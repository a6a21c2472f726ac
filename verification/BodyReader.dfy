/**
 Reading a request body into one replayable buffer under a byte limit. A declared length makes the
 reader write into one allocation, until the body disagrees with it and the reader turns to a
 list of pieces.
 */
module BodyReader {
  import opened Units
  import opened JsonGrammar
  import opened Decimal

  /** What one read yields; a chunk that is no byte array is ignored. */
  datatype Chunk = Bytes(data: seq<Byte>) | Foreign

  datatype ReadResult = NoBody | Body(bytes: seq<Byte>) | DeclaredTooLarge | StreamedTooLarge

  /** A retained piece: a view of the first bytes of the direct buffer, or a chunk of its own. */
  datatype Piece = View(length: nat) | Own(data: seq<Byte>)

  /** A Content-Length (section 8.6 of RFC 9110) that is all digits and a safe integer. */
  function SafeContentLength(value: Option<Text>): Option<nat> {
    if value.Some? && |value.value| > 0 && AllDigits(value.value) && NumberOf(value.value) <= MAX_SAFE_INTEGER
    then Some(NumberOf(value.value)) else None
  }

  /** What counts as a length: some zeros and the decimal text of a safe integer. */
  ghost predicate Spells(t: Text, n: nat) { exists zeros: Text :: AllZeros(zeros) && t == zeros + Digits(n) }

  predicate AllZeros(t: Text) { forall k :: 0 <= k < |t| ==> t[k] == ZERO }

  lemma {:induction false} LeadingZero(t: Text)
    requires AllDigits(t)
    ensures AllDigits([ZERO] + t) && NumberOf([ZERO] + t) == NumberOf(t)
    decreases |t|
  {
    var all := [ZERO] + t;
    if t == [] {
      assert all[..0] == [];
    } else {
      var n := |t| - 1;
      LeadingZero(t[..n]);
      assert all[..|all| - 1] == [ZERO] + t[..n];
    }
  }

  lemma {:induction false} SpelledNumber(zeros: Text, n: nat)
    requires AllZeros(zeros)
    ensures var t := zeros + Digits(n); |t| > 0 && AllDigits(t) && NumberOf(t) == n
    decreases |zeros|
  {
    DigitsCanonical(n);
    if zeros == [] {
      assert zeros + Digits(n) == Digits(n);
    } else {
      SpelledNumber(zeros[1..], n);
      LeadingZero(zeros[1..] + Digits(n));
      assert zeros + Digits(n) == [ZERO] + (zeros[1..] + Digits(n));
    }
  }

  lemma {:induction false} NumberSpelled(t: Text)
    requires |t| > 0 && AllDigits(t)
    ensures Spells(t, NumberOf(t))
    decreases |t|
  {
    hide NumberOf, Digits;
    if t[0] == ZERO && |t| > 1 {
      var rest := t[1..];
      NumberSpelled(rest);
      var zeros: Text :| AllZeros(zeros) && rest == zeros + Digits(NumberOf(rest));
      assert t == [ZERO] + rest;
      LeadingZero(rest);
      var more := [ZERO] + zeros;
      assert AllZeros(more) && [ZERO] + (zeros + Digits(NumberOf(rest))) == more + Digits(NumberOf(rest));
    } else {
      CanonicalIsDigits(t);
      assert AllZeros([]) && t == [] + Digits(NumberOf(t));
    }
  }

  /** A declared length is taken exactly when it spells a safe integer, and then is that integer. */
  lemma DeclaredLengthMeans(t: Text, n: nat)
    ensures SafeContentLength(Some(t)) == Some(n) <==> n <= MAX_SAFE_INTEGER && Spells(t, n)
  {
    hide NumberOf, Digits;
    if |t| > 0 && AllDigits(t) { NumberSpelled(t); }
    if Spells(t, n) {
      var zeros: Text :| AllZeros(zeros) && t == zeros + Digits(n);
      SpelledNumber(zeros, n);
    }
  }

  function Payload(chunks: seq<Chunk>): seq<Byte> {
    if chunks == [] then [] else
    var n := |chunks| - 1;
    Payload(chunks[..n]) + (match chunks[n] case Bytes(data) => data case Foreign => [])
  }

  lemma PayloadStep(chunks: seq<Chunk>, n: nat)
    requires n < |chunks|
    ensures Payload(chunks[..n + 1]) ==
              Payload(chunks[..n]) + (match chunks[n] case Bytes(data) => data case Foreign => [])
  {
    assert chunks[..n + 1][..n] == chunks[..n];
  }

  /** The payload is the bytes of the chunks one behind the other, however they are split. */
  lemma {:induction false} PayloadJoins(a: seq<Chunk>, b: seq<Chunk>, data: seq<Byte>)
    ensures Payload(a + b) == Payload(a) + Payload(b)
    ensures Payload([Bytes(data)]) == data && Payload([Foreign]) == []
    decreases |b|
  {
    if b == [] {
      assert a + b == a;
    } else {
      var n := |b| - 1;
      PayloadJoins(a, b[..n], data);
      assert (a + b)[..|a| + n] == a + b[..n];
    }
  }

  lemma {:induction false} PayloadGrows(chunks: seq<Chunk>, n: nat)
    requires n <= |chunks|
    ensures |Payload(chunks[..n])| <= |Payload(chunks)|
    decreases |chunks| - n
  {
    if n == |chunks| {
      assert chunks[..n] == chunks;
    } else {
      PayloadStep(chunks, n);
      PayloadGrows(chunks, n + 1);
    }
  }

  ghost predicate Within(pieces: seq<Piece>, direct: seq<Byte>) {
    forall k :: 0 <= k < |pieces| && pieces[k].View? ==> pieces[k].length <= |direct|
  }

  function PieceBytes(p: Piece, direct: seq<Byte>): seq<Byte>
    requires p.View? ==> p.length <= |direct|
  {
    match p case View(n) => direct[..n] case Own(data) => data
  }

  /** What the pieces hold, given what the direct buffer holds now. */
  function Flatten(pieces: seq<Piece>, direct: seq<Byte>): seq<Byte>
    requires Within(pieces, direct)
  {
    if pieces == [] then [] else
    var n := |pieces| - 1;
    Flatten(pieces[..n], direct) + PieceBytes(pieces[n], direct)
  }

  lemma FlattenAppend(pieces: seq<Piece>, p: Piece, direct: seq<Byte>)
    requires Within(pieces + [p], direct)
    ensures Within(pieces, direct) && (p.View? ==> p.length <= |direct|)
    ensures Flatten(pieces + [p], direct) == Flatten(pieces, direct) + PieceBytes(p, direct)
  {
    var all := pieces + [p];
    assert all[|pieces|] == p;
    forall k | 0 <= k < |pieces| && pieces[k].View? ensures pieces[k].length <= |direct| {
      assert all[k] == pieces[k];
    }
    assert all[..|pieces|] == pieces;
  }

  /** The host's `TypedArray.set`. */
  method SetBytes(buffer: array<Byte>, data: seq<Byte>, at: nat)
    requires at + |data| <= buffer.Length
    modifies buffer
    ensures buffer[..] == old(buffer[..])[..at] + data + old(buffer[..])[at + |data|..]
  {
    for k := 0 to |data|
      invariant buffer[at..at + k] == data[..k]
      invariant buffer[..at] == old(buffer[..at]) && buffer[at + k..] == old(buffer[at + k..])
    {
      buffer[at + k] := data[k];
    }
    assert buffer[..] == buffer[..at] + buffer[at..at + |data|] + buffer[at + |data|..];
  }

  /** The held bytes once `data` is written behind the first `n` of them. */
  lemma SetExtends(held: seq<Byte>, data: seq<Byte>, n: nat, before: seq<Byte>)
    requires n + |data| <= |before| && before[..n] == held
    ensures var after := before[..n] + data + before[n + |data|..];
            |after| == |before| && after[..n + |data|] == held + data
  {}

  /** The two representations hold exactly the bytes `held`. */
  ghost predicate Holds(hasDirect: bool, direct: seq<Byte>, chunks: seq<Piece>, held: seq<Byte>) {
    && Within(chunks, direct)
    && if chunks != [] then Flatten(chunks, direct) == held
       else if hasDirect then |held| <= |direct| && direct[..|held|] == held
       else held == []
  }

  /** The piece list once a chunk that does not fit the direct buffer arrives. */
  function Divert(hasDirect: bool, chunks: seq<Piece>, totalLength: nat): seq<Piece> {
    if chunks == [] && hasDirect && totalLength > 0 then [View(totalLength)] else chunks
  }

  lemma DirectStep(direct: seq<Byte>, held: seq<Byte>, value: seq<Byte>)
    requires Holds(true, direct, [], held) && |held| + |value| <= |direct|
    ensures Holds(true, direct[..|held|] + value + direct[|held| + |value|..], [], held + value)
  {
    SetExtends(held, value, |held|, direct);
  }

  lemma PieceStep(hasDirect: bool, direct: seq<Byte>, chunks: seq<Piece>, held: seq<Byte>, value: seq<Byte>)
    requires Holds(hasDirect, direct, chunks, held)
    ensures Holds(hasDirect, direct, Divert(hasDirect, chunks, |held|) + [Own(value)], held + value)
  {
    if chunks == [] && hasDirect && |held| > 0 {
      FlattenAppend([], View(|held|), direct);
      assert [] + [View(|held|)] == [View(|held|)];
    }
    FlattenAppend(Divert(hasDirect, chunks, |held|), Own(value), direct);
  }

  lemma HoldsNothing(hasDirect: bool, direct: seq<Byte>)
    ensures Payload([]) == [] && Holds(hasDirect, direct, [], [])
  {}

  lemma HeldBytes(hasDirect: bool, direct: seq<Byte>, chunks: seq<Piece>, held: seq<Byte>)
    requires Holds(hasDirect, direct, chunks, held)
    ensures hasDirect && chunks == [] ==> |held| <= |direct| && direct[..|held|] == held
    ensures !(hasDirect && chunks == []) ==> Within(chunks, direct) && Flatten(chunks, direct) == held
  {}

  /**
   Without abort, the reader returns the concatenation of the chunks when it is within the limit and
   the streamed size error otherwise, however the bytes are split and whatever admissible length was declared.
   */
  method ReadBoundedRequestBody(contentLength: Option<Text>, body: Option<seq<Chunk>>, limit: nat)
    returns (r: ReadResult)
    ensures var declaredLength := SafeContentLength(contentLength);
            r == if declaredLength.Some? && declaredLength.value > limit then DeclaredTooLarge
                 else if body.None? then NoBody
                 else if |Payload(body.value)| > limit then StreamedTooLarge
                 else Body(Payload(body.value))
  {
    hide Payload, Holds, Flatten, Within, SafeContentLength;
    var declaredLength := SafeContentLength(contentLength);
    if declaredLength.Some? && declaredLength.value > limit { return DeclaredTooLarge; }
    if body.None? { return NoBody; }
    var stream := body.value;
    var hasDirect := declaredLength.Some?;
    var directBuffer := new Byte[if hasDirect then declaredLength.value else 0](_ => 0);
    var chunks: seq<Piece> := [];
    var totalLength: nat := 0;
    assert stream[..0] == [];
    HoldsNothing(hasDirect, directBuffer[..]);
    for i := 0 to |stream|
      invariant totalLength == |Payload(stream[..i])| <= limit
      invariant Holds(hasDirect, directBuffer[..], chunks, Payload(stream[..i]))
    {
      PayloadStep(stream, i);
      PayloadGrows(stream, i + 1);
      if stream[i].Foreign? {
        assert Payload(stream[..i]) + [] == Payload(stream[..i]);
        continue;
      }
      var value := stream[i].data;
      if |value| > limit - totalLength { return StreamedTooLarge; }
      if hasDirect && chunks == [] && |value| <= directBuffer.Length - totalLength {
        DirectStep(directBuffer[..], Payload(stream[..i]), value);
        SetBytes(directBuffer, value, totalLength);
      } else {
        PieceStep(hasDirect, directBuffer[..], chunks, Payload(stream[..i]), value);
        if chunks == [] && hasDirect && totalLength > 0 {
          chunks := [View(totalLength)];
        }
        chunks := chunks + [Own(value)];
      }
      totalLength := totalLength + |value|;
    }
    assert stream[..|stream|] == stream;
    HeldBytes(hasDirect, directBuffer[..], chunks, Payload(stream));
    if hasDirect && chunks == [] {
      return Body(directBuffer[..][..totalLength]);
    }
    var bytes := CopyPieces(chunks, directBuffer, totalLength);
    return Body(bytes);
  }

  lemma EmptyFlatten(direct: seq<Byte>)
    ensures Flatten([], direct) == []
  {}

  method CopyPieces(chunks: seq<Piece>, directBuffer: array<Byte>, totalLength: nat) returns (bytes: seq<Byte>)
    requires Within(chunks, directBuffer[..]) && |Flatten(chunks, directBuffer[..])| == totalLength
    ensures bytes == Flatten(chunks, directBuffer[..])
  {
    hide Flatten;
    ghost var direct := directBuffer[..];
    var buffer := new Byte[totalLength](_ => 0);
    var offset := 0;
    assert chunks[..0] == [];
    EmptyFlatten(direct);
    for i := 0 to |chunks|
      invariant directBuffer[..] == direct && Within(chunks[..i], direct)
      invariant offset == |Flatten(chunks[..i], direct)| <= totalLength
      invariant buffer[..][..offset] == Flatten(chunks[..i], direct)
    {
      assert chunks[..i + 1] == chunks[..i] + [chunks[i]];
      FlattenAppend(chunks[..i], chunks[i], direct);
      FlattenGrows(chunks, i + 1, direct);
      var chunk := match chunks[i] case View(n) => directBuffer[..n] case Own(data) => data;
      assert chunk == PieceBytes(chunks[i], direct);
      SetExtends(Flatten(chunks[..i], direct), chunk, offset, buffer[..]);
      SetBytes(buffer, chunk, offset);
      offset := offset + |chunk|;
    }
    assert chunks[..|chunks|] == chunks;
    bytes := buffer[..];
    assert bytes[..offset] == bytes;
  }

  lemma {:induction false} FlattenGrows(pieces: seq<Piece>, n: nat, direct: seq<Byte>)
    requires n <= |pieces| && Within(pieces, direct)
    ensures |Flatten(pieces[..n], direct)| <= |Flatten(pieces, direct)|
    decreases |pieces| - n
  {
    hide Flatten;
    if n == |pieces| {
      assert pieces[..n] == pieces;
    } else {
      assert pieces[..n + 1] == pieces[..n] + [pieces[n]];
      FlattenAppend(pieces[..n], pieces[n], direct);
      FlattenGrows(pieces, n + 1, direct);
    }
  }
}
