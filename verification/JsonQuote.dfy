/** How the host prints strings as JSON (ECMA-262 section 25.5.2.2) and counts UTF-8 bytes. */
module JsonQuote {
  import opened Units
  import opened JsonGrammar

  predicate IsHigh(c: int) { 0xd800 <= c <= 0xdbff }
  predicate IsLow(c: int) { 0xdc00 <= c <= 0xdfff }

  function HexLetter(n: int): Unit
    requires 0 <= n < 16
  {
    if n < 10 then 0x30 + n else 0x61 + n - 10
  }

  function EscapeUnit(c: Unit): Part {
    var high, third := c / 0x100, c / 0x10;
    Hex(HexLetter(high / 16), HexLetter(high % 16), HexLetter(third % 16), HexLetter(c % 16))
  }

  /** A unit that is not half of a surrogate pair. */
  function QuoteUnit(c: Unit): Part {
    if c == 0x08 then Short(0x62) else if c == 0x09 then Short(0x74) else if c == 0x0a then Short(0x6e)
    else if c == 0x0c then Short(0x66) else if c == 0x0d then Short(0x72)
    else if c == QUOTE || c == BACKSLASH then Short(c)
    else if c < 0x20 || IsHigh(c) || IsLow(c) then EscapeUnit(c)
    else Plain(c)
  }

  /** The parts of the literal the host prints for `s`: pairs stay, lone surrogates are escaped. */
  function Quote(s: Text): seq<Part> {
    if s == [] then []
    else if |s| >= 2 && IsHigh(s[0]) && IsLow(s[1]) then [Plain(s[0])] + ([Plain(s[1])] + Quote(s[2..]))
    else [QuoteUnit(s[0])] + Quote(s[1..])
  }

  function Quoted(s: Text): Text { PrintString(Quote(s)) }

  lemma HexLetterDecodes(n: int)
    requires 0 <= n < 16
    ensures IsHex(HexLetter(n)) && HexDigit(HexLetter(n)) == n
  {}

  lemma UnitDecodes(c: Unit)
    ensures ValidPart(QuoteUnit(c)) && DecodePart(QuoteUnit(c)) == c
  {
    hide HexLetter, HexDigit, IsHex;
    var high, third := c / 0x100, c / 0x10;
    assert third / 16 == high;
    HexLetterDecodes(high / 16);
    HexLetterDecodes(high % 16);
    HexLetterDecodes(third % 16);
    HexLetterDecodes(c % 16);
  }

  /** Printing a string and decoding the literal gives the string back. */
  lemma {:induction false} QuoteDecodes(s: Text)
    ensures ValidParts(Quote(s)) && DecodeParts(Quote(s)) == s
    decreases |s|
  {
    hide QuoteUnit, DecodePart, ValidPart;
    if s != [] {
      if |s| >= 2 && IsHigh(s[0]) && IsLow(s[1]) {
        QuoteDecodes(s[2..]);
        var rest := Quote(s[2..]);
        ConsDecodes(Plain(s[1]), rest, s[1]);
        ConsDecodes(Plain(s[0]), [Plain(s[1])] + rest, s[0]);
        assert s == [s[0]] + ([s[1]] + s[2..]);
      } else {
        UnitDecodes(s[0]);
        QuoteDecodes(s[1..]);
        ConsDecodes(QuoteUnit(s[0]), Quote(s[1..]), s[0]);
        assert s == [s[0]] + s[1..];
      }
    }
  }

  lemma ConsDecodes(p: Part, ps: seq<Part>, c: Unit)
    requires ValidParts(ps) && ((p == Plain(c) && c >= 0x80) || (ValidPart(p) && DecodePart(p) == c))
    ensures ValidParts([p] + ps) && DecodeParts([p] + ps) == [c] + DecodeParts(ps)
  {
    assert ([p] + ps)[1..] == ps;
  }

  /** Half of a surrogate pair whose other half is not beside it. */
  predicate Lone(s: Text, k: nat)
    requires k < |s|
  {
    || (IsHigh(s[k]) && !IsLow(At(s, k + 1)))
    || (IsLow(s[k]) && (k == 0 || !IsHigh(s[k - 1])))
  }

  predicate HasShortForm(c: int) {
    c == QUOTE || c == BACKSLASH || c == 0x08 || c == 0x09 || c == 0x0a || c == 0x0c || c == 0x0d
  }

  predicate IsLowerHex(c: int) { IsDigit(c) || 0x61 <= c <= 0x66 }

  /** The least escaping: a short form where there is one, hexadecimal digits for what else must not stand as itself. */
  ghost predicate LeastEscape(p: Part, c: Unit, lone: bool) {
    && DecodePart(p) == c
    && (p.Short? <==> HasShortForm(c))
    && (p.Hex? <==> !HasShortForm(c) && (c < 0x20 || lone))
    && (p.Hex? ==> IsLowerHex(p.h0) && IsLowerHex(p.h1) && IsLowerHex(p.h2) && IsLowerHex(p.h3))
  }

  lemma UnitEscapes(c: Unit)
    ensures LeastEscape(QuoteUnit(c), c, IsHigh(c) || IsLow(c))
  {
    UnitDecodes(c);
  }

  /** Unit by unit, `s` is quoted with the least escaping. */
  lemma {:induction false} QuoteMeans(s: Text)
    ensures |Quote(s)| == |s|
    ensures forall k :: 0 <= k < |s| ==> LeastEscape(Quote(s)[k], s[k], Lone(s, k))
    decreases |s|
  {
    hide QuoteUnit, LeastEscape, Lone;
    if s != [] {
      var pair := |s| >= 2 && IsHigh(s[0]) && IsLow(s[1]);
      var n := if pair then 2 else 1;
      QuoteMeans(s[n..]);
      UnitEscapes(s[0]);
      if pair { PairEscapes(s); } else { LoneFirst(s); }
      forall k | 0 <= k < |s| ensures LeastEscape(Quote(s)[k], s[k], Lone(s, k)) {
        if k >= n { LoneBehind(s, n, k); }
      }
    }
  }

  lemma PairEscapes(s: Text)
    requires |s| >= 2 && IsHigh(s[0]) && IsLow(s[1])
    ensures LeastEscape(Plain(s[0]), s[0], Lone(s, 0)) && LeastEscape(Plain(s[1]), s[1], Lone(s, 1))
  {}

  lemma LoneFirst(s: Text)
    requires s != [] && !(|s| >= 2 && IsHigh(s[0]) && IsLow(s[1]))
    ensures Lone(s, 0) <==> IsHigh(s[0]) || IsLow(s[0])
  {}

  /** Dropping a pair or a unit that starts none leaves the rest as it was. */
  lemma LoneBehind(s: Text, n: nat, k: nat)
    requires 0 < n <= k < |s| && !(IsHigh(s[n - 1]) && IsLow(At(s, n)))
    ensures Lone(s, k) <==> Lone(s[n..], k - n)
  {
    assert s[k] == s[n..][k - n] && At(s, k + 1) == At(s[n..], k - n + 1);
    assert k > n ==> s[k - 1] == s[n..][k - n - 1];
  }

  // ---- UTF-8 length ----

  function UnitBytes(c: Unit): nat { if c < 0x80 then 1 else if c < 0x800 then 2 else 3 }

  /** Bytes of the UTF-8 form; a lone surrogate counts as the replacement character. */
  function Utf8Length(t: Text): nat {
    if t == [] then 0
    else if |t| >= 2 && IsHigh(t[0]) && IsLow(t[1]) then 4 + Utf8Length(t[2..])
    else UnitBytes(t[0]) + Utf8Length(t[1..])
  }

  /** No surrogate pair straddles the seam between `a` and `b`. */
  ghost predicate CleanSeam(a: Text, b: Text) {
    a == [] || b == [] || !IsHigh(a[|a| - 1]) || !IsLow(b[0])
  }

  lemma {:induction false} Utf8Append(a: Text, b: Text)
    requires CleanSeam(a, b)
    ensures Utf8Length(a + b) == Utf8Length(a) + Utf8Length(b)
    decreases |a|
  {
    if a == [] {
      assert a + b == b;
    } else {
      var n := if |a| >= 2 && IsHigh(a[0]) && IsLow(a[1]) then 2 else 1;
      Utf8Append(a[n..], b);
      assert (a + b)[n..] == a[n..] + b;
      assert (a + b)[0] == a[0] && (|a| >= 2 ==> (a + b)[1] == a[1]) && (|a| == 1 && b != [] ==> (a + b)[1] == b[0]);
    }
  }
}
