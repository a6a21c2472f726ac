/**
 The strict recogniser for JSON configuration texts: one mutable offset, no tree, duplicate
 member names refused after escapes are decoded, and a bound on nesting.
 */
module StrictJson {
  import opened Units
  import opened JsonGrammar
  import opened JsonParser
  import JsonSpelling
  import JsonSoundness
  import JsonCompleteness

  const MAX_DEPTH: nat := 64

  function Ends<T>(r: Option<Parsed<T>>): Option<nat> {
    if r.None? then None else Some(r.value.end)
  }

  /** The host's `JSON.parse` on the text of a string literal; `None` stands for the exception. */
  function ParseLiteral(literal: Text): Option<Text> {
    var r := StringAt(literal, 0);
    if r.Some? && r.value.end == |literal| then Some(DecodeParts(r.value.tree)) else None
  }

  /** Decoding a scanned literal never raises: it yields the name the parser decodes. */
  lemma LiteralDecodes(s: Text, i: nat)
    requires i <= |s| && StringAt(s, i).Some?
    ensures ParseLiteral(s[i..StringAt(s, i).value.end]) == Some(DecodeParts(StringAt(s, i).value.tree))
  {
    hide PartsAt, DecodeParts;
    var Parsed(ps, end) := StringAt(s, i).value;
    JsonSoundness.PartsSound(s, i + 1);
    JsonSpelling.StringPrint(s, i, ps);
    var t := s[i..end];
    OccursSlice(s, i, PrintString(ps));
    assert t == PrintString(ps);
    SliceOccurs(t, 0, |t|);
    assert t[0..|t|] == t;
    JsonSpelling.StringPrint(t, 0, ps);
    JsonCompleteness.PartsComplete(t, 1, ps);
  }

  // One step of each parsing function, told by end positions alone.

  lemma PartsUnfold(s: Text, i: nat)
    requires i <= |s|
    ensures Ends(PartsAt(s, i)) ==
              var c := At(s, i);
              if c == QUOTE then Some(i + 1)
              else if c < 0x20 then None
              else if c != BACKSLASH then Ends(PartsAt(s, i + 1))
              else if IsShortEscape(At(s, i + 1)) then Ends(PartsAt(s, i + 2))
              else if At(s, i + 1) == LETTER_U && FourHex(s, i + 2) then Ends(PartsAt(s, i + 6))
              else None
  {}

  lemma NumberUnfold(s: Text, i: nat)
    requires i <= |s|
    ensures Ends(NumberAt(s, i)) ==
              var b := IntEnd(s, if At(s, i) == MINUS then i + 1 else i);
              if b.None? then None else
              var c := FracEnd(s, b.value);
              if c.None? then None else ExpEnd(s, c.value)
  {}

  lemma ObjectUnfold(s: Text, i: nat, depth: nat, limit: nat)
    requires i <= |s| && At(s, i) == LBRACE
    ensures Ends(ValueAt(s, i, depth, limit)) ==
              if depth >= limit then None
              else if At(s, Skip(s, i + 1)) == RBRACE then Some(Skip(s, i + 1) + 1)
              else Ends(MembersAt(s, i + 1, depth, limit, {}))
  {
    hide MembersAt, Skip;
  }

  lemma ArrayUnfold(s: Text, i: nat, depth: nat, limit: nat)
    requires i <= |s| && At(s, i) == LBRACKET
    ensures Ends(ValueAt(s, i, depth, limit)) ==
              if depth >= limit then None
              else if At(s, Skip(s, i + 1)) == RBRACKET then Some(Skip(s, i + 1) + 1)
              else Ends(ItemsAt(s, i + 1, depth, limit))
  {
    hide ItemsAt, Skip;
  }

  lemma ItemsUnfold(s: Text, i: nat, depth: nat, limit: nat)
    requires i <= |s|
    ensures Ends(ItemsAt(s, i, depth, limit)) ==
              var v := Ends(ValueAt(s, Skip(s, i), depth + 1, limit));
              if v.None? then None else
              var q := Skip(s, v.value);
              if At(s, q) == RBRACKET then Some(q + 1)
              else if At(s, q) != COMMA then None
              else Ends(ItemsAt(s, q + 1, depth, limit))
  {
    hide ValueAt, Skip;
  }

  lemma MembersUnfold(s: Text, i: nat, depth: nat, limit: nat, names: set<Text>)
    requires i <= |s|
    ensures Ends(MembersAt(s, i, depth, limit, names)) ==
              var m := MemberAt(s, i, depth, limit, names);
              if m.None? then None else
              var q := m.value.end;
              if At(s, q) == RBRACE then Some(q + 1)
              else if At(s, q) != COMMA then None
              else Ends(MembersAt(s, q + 1, depth, limit, names + {DecodeParts(m.value.tree.name)}))
  {
    hide MemberAt, DecodeParts;
  }

  lemma MemberUnfold(s: Text, i: nat, depth: nat, limit: nat, names: set<Text>)
    requires i <= |s|
    ensures var m := MemberAt(s, i, depth, limit, names);
            var name := StringAt(s, Skip(s, i));
            && (m.Some? ==> name.Some? && m.value.tree.name == name.value.tree)
            && Ends(m) ==
              if name.None? || DecodeParts(name.value.tree) in names then None else
              var c := Skip(s, name.value.end);
              if At(s, c) != COLON then None else
              var v := Ends(ValueAt(s, Skip(s, c + 1), depth + 1, limit));
              if v.None? then None else Some(Skip(s, v.value))
  {
    hide ValueAt, Skip, StringAt, DecodeParts;
  }

  class StrictJsonScanner {
    const source: Text
    var offset: nat

    ghost predicate Valid()
      reads this
    {
      offset <= |source|
    }

    constructor (source: Text)
      ensures this.source == source && offset == 0 && Valid()
    {
      this.source := source;
      offset := 0;
    }

    method Scan() returns (ok: bool)
      requires Valid() && offset == 0
      modifies this
      ensures Valid() && ok == DocumentAt(source, MAX_DEPTH).Some?
      ensures ok ==> offset == |source|
    {
      ok := ParseValue(0);
      if ok {
        SkipWhitespace();
        ok := offset == |source|;
      }
    }

    method ParseValue(depth: nat) returns (ok: bool)
      requires Valid()
      modifies this
      ensures Valid()
      ensures var r := ValueAt(source, Skip(source, old(offset)), depth, MAX_DEPTH);
              ok == r.Some? && (ok ==> offset == r.value.end)
      decreases |source| - offset, 1
    {
      SkipWhitespace();
      var c := At(source, offset);
      if c == LBRACE {
        ok := ParseObject(depth);
      } else if c == LBRACKET {
        ok := ParseArray(depth);
      } else if c == QUOTE {
        var literal := ScanStringLiteral();
        ok := literal.Some?;
      } else if c == 0x74 {
        ok := ConsumeLiteral(TRUE);
      } else if c == 0x66 {
        ok := ConsumeLiteral(FALSE);
      } else if c == 0x6e {
        ok := ConsumeLiteral(NULL);
      } else {
        ok := ConsumeNumber();
      }
    }

    method ParseObject(depth: nat) returns (ok: bool)
      requires Valid() && At(source, offset) == LBRACE
      modifies this
      ensures Valid()
      ensures var r := ValueAt(source, old(offset), depth, MAX_DEPTH);
              ok == r.Some? && (ok ==> offset == r.value.end)
      decreases |source| - offset, 0
    {
      hide ValueAt, MembersAt, MemberAt, DecodeParts, Skip;
      ObjectUnfold(source, offset, depth, MAX_DEPTH);
      if depth >= MAX_DEPTH {
        return false;
      }
      offset := offset + 1;
      ghost var from := offset;
      SkipWhitespace();
      if At(source, offset) == RBRACE {
        offset := offset + 1;
        return true;
      }
      ghost var goal := Ends(MembersAt(source, from, depth, MAX_DEPTH, {}));
      var memberNames: set<Text> := {};
      while offset < |source|
        invariant old(offset) < from <= |source| && offset == Skip(source, from)
        invariant Ends(MembersAt(source, from, depth, MAX_DEPTH, memberNames)) == goal
        decreases |source| - offset
      {
        MembersUnfold(source, from, depth, MAX_DEPTH, memberNames);
        var memberName := ParseMember(depth, memberNames, from);
        if memberName.None? {
          return false;
        }
        memberNames := memberNames + {memberName.value};
        var delimiter := At(source, offset);
        if delimiter == RBRACE {
          offset := offset + 1;
          return true;
        }
        if delimiter != COMMA {
          return false;
        }
        offset := offset + 1;
        from := offset;
        SkipWhitespace();
      }
      MembersUnfold(source, from, depth, MAX_DEPTH, memberNames);
      MemberUnfold(source, from, depth, MAX_DEPTH, memberNames);
      EndIsNoValue(source, depth + 1, MAX_DEPTH);
      return false;
    }

    /** One round of the member loop, up to its delimiter; the result is the member's decoded name. */
    method ParseMember(depth: nat, memberNames: set<Text>, ghost from: nat) returns (memberName: Option<Text>)
      requires Valid() && from <= |source| && offset == Skip(source, from)
      modifies this
      ensures Valid()
      ensures var m := MemberAt(source, from, depth, MAX_DEPTH, memberNames);
              if m.None? then memberName.None?
              else offset == m.value.end > old(offset) && memberName == Some(DecodeParts(m.value.tree.name))
      decreases |source| - offset, 2
    {
      hide ValueAt, MemberAt, StringAt, DecodeParts, ParseLiteral, Skip;
      MemberUnfold(source, from, depth, MAX_DEPTH, memberNames);
      ghost var start := offset;
      var literal := ScanStringLiteral();
      if literal.None? {
        return None;
      }
      LiteralDecodes(source, start);
      memberName := ParseLiteral(literal.value);
      if memberName.None? || memberName.value in memberNames {
        return None;
      }
      SkipWhitespace();
      if At(source, offset) != COLON {
        return None;
      }
      offset := offset + 1;
      var parsed := ParseValue(depth + 1);
      if !parsed {
        return None;
      }
      SkipWhitespace();
    }

    method ParseArray(depth: nat) returns (ok: bool)
      requires Valid() && At(source, offset) == LBRACKET
      modifies this
      ensures Valid()
      ensures var r := ValueAt(source, old(offset), depth, MAX_DEPTH);
              ok == r.Some? && (ok ==> offset == r.value.end)
      decreases |source| - offset, 0
    {
      hide ValueAt, ItemsAt, Skip;
      ArrayUnfold(source, offset, depth, MAX_DEPTH);
      ghost var open := offset;
      if depth >= MAX_DEPTH {
        return false;
      }
      offset := offset + 1;
      ghost var from := offset;
      SkipWhitespace();
      if At(source, offset) == RBRACKET {
        offset := offset + 1;
        return true;
      }
      ghost var goal := Ends(ItemsAt(source, from, depth, MAX_DEPTH));
      SkipIdempotent(source, from);
      while offset < |source|
        invariant open < from <= offset <= |source| && Skip(source, offset) == Skip(source, from)
        invariant Ends(ItemsAt(source, from, depth, MAX_DEPTH)) == goal
        decreases |source| - offset
      {
        ItemsUnfold(source, from, depth, MAX_DEPTH);
        var parsed := ParseValue(depth + 1);
        if !parsed {
          return false;
        }
        SkipWhitespace();
        var delimiter := At(source, offset);
        if delimiter == RBRACKET {
          offset := offset + 1;
          return true;
        }
        if delimiter != COMMA {
          return false;
        }
        offset := offset + 1;
        from := offset;
      }
      ItemsUnfold(source, from, depth, MAX_DEPTH);
      EndIsNoValue(source, depth + 1, MAX_DEPTH);
      return false;
    }

    method ScanStringLiteral() returns (literal: Option<Text>)
      requires Valid()
      modifies this
      ensures Valid()
      ensures var r := StringAt(source, old(offset));
              if r.None? then literal.None?
              else offset == r.value.end && literal == Some(source[old(offset)..offset])
    {
      hide PartsAt, FourHex;
      if At(source, offset) != QUOTE {
        return None;
      }
      var start := offset;
      offset := offset + 1;
      while offset < |source|
        invariant start < offset <= |source|
        invariant Ends(PartsAt(source, offset)) == Ends(PartsAt(source, start + 1))
        decreases |source| - offset
      {
        PartsUnfold(source, offset);
        var codeUnit := source[offset];
        if codeUnit == 0x22 {
          offset := offset + 1;
          return Some(source[start..offset]);
        }
        if codeUnit < 0x20 {
          return None;
        }
        if codeUnit != 0x5c {
          offset := offset + 1;
          continue;
        }
        offset := offset + 1;
        var escape := At(source, offset);
        if escape == -1 {
          return None;
        }
        if IsShortEscape(escape) {
          offset := offset + 1;
          continue;
        }
        var hex := HasFourHexDigits(offset + 1);
        if escape != LETTER_U || !hex {
          return None;
        }
        offset := offset + 5;
      }
      PartsUnfold(source, offset);
      return None;
    }

    method HasFourHexDigits(start: nat) returns (ok: bool)
      ensures ok == FourHex(source, start)
      ensures ok ==> start + 4 <= |source|
    {
      if start + 4 > |source| {
        return false;
      }
      for index := start to start + 4
        invariant forall k :: start <= k < index ==> IsHex(At(source, k))
      {
        if !IsHex(source[index]) {
          return false;
        }
      }
      return true;
    }

    method ConsumeLiteral(literal: Text) returns (ok: bool)
      requires Valid()
      modifies this
      ensures Valid()
      ensures ok == LiteralAt(source, old(offset), literal).Some?
      ensures offset == if ok then old(offset) + |literal| else old(offset)
    {
      if !(offset + |literal| <= |source| && source[offset..offset + |literal|] == literal) {
        return false;
      }
      offset := offset + |literal|;
      return true;
    }

    method ConsumeNumber() returns (ok: bool)
      requires Valid()
      modifies this
      ensures Valid()
      ensures var r := NumberAt(source, old(offset));
              ok == r.Some? && offset == if ok then r.value.end else old(offset)
    {
      hide NumberAt, FracEnd, ExpEnd, DigitsEnd;
      NumberUnfold(source, offset);
      var start := offset;
      if At(source, offset) == MINUS {
        offset := offset + 1;
      }
      if At(source, offset) == ZERO {
        offset := offset + 1;
        ok := !IsDigit(At(source, offset));
      } else if 0x31 <= At(source, offset) <= 0x39 {
        offset := offset + 1;
        SkipDigits();
        ok := true;
      } else {
        ok := false;
      }
      if ok {
        ok := SkipFraction();
      }
      if ok {
        ok := SkipExponent();
      }
      if !ok {
        offset := start;
      }
    }

    method SkipFraction() returns (ok: bool)
      requires Valid()
      modifies this
      ensures Valid() && ok == FracEnd(source, old(offset)).Some?
      ensures ok ==> offset == FracEnd(source, old(offset)).value
    {
      if At(source, offset) == DOT {
        offset := offset + 1;
        if !IsDigit(At(source, offset)) {
          return false;
        }
        SkipDigits();
      }
      return true;
    }

    method SkipExponent() returns (ok: bool)
      requires Valid()
      modifies this
      ensures Valid() && ok == ExpEnd(source, old(offset)).Some?
      ensures ok ==> offset == ExpEnd(source, old(offset)).value
    {
      if IsExpMark(At(source, offset)) {
        offset := offset + 1;
        if IsSign(At(source, offset)) {
          offset := offset + 1;
        }
        if !IsDigit(At(source, offset)) {
          return false;
        }
        SkipDigits();
      }
      return true;
    }

    method SkipDigits()
      requires Valid()
      modifies this
      ensures Valid() && offset == DigitsEnd(source, old(offset))
    {
      while IsDigit(At(source, offset))
        invariant old(offset) <= offset <= |source|
        invariant DigitsEnd(source, offset) == DigitsEnd(source, old(offset))
        decreases |source| - offset
      {
        offset := offset + 1;
      }
    }

    method SkipWhitespace()
      requires Valid()
      modifies this
      ensures Valid() && offset == Skip(source, old(offset))
    {
      while offset < |source|
        invariant old(offset) <= offset <= |source|
        invariant Skip(source, offset) == Skip(source, old(offset))
        decreases |source| - offset
      {
        if !IsWs(source[offset]) {
          return;
        }
        offset := offset + 1;
      }
    }
  }

  lemma {:induction false} SkipIdempotent(s: Text, i: nat)
    requires i <= |s|
    ensures Skip(s, Skip(s, i)) == Skip(s, i)
    decreases |s| - i
  {
    if IsWs(At(s, i)) { SkipIdempotent(s, i + 1); }
  }

  lemma EndIsNoValue(s: Text, depth: nat, limit: nat)
    ensures Skip(s, |s|) == |s| && ValueAt(s, |s|, depth, limit).None? && StringAt(s, |s|).None?
  {}

  /** The scanner's verdict is the grammar's: sections 2 to 7 of RFC 8259, distinct names, nesting at most 64. */
  method IsStrictJsonDocument(source: Text) returns (ok: bool)
    ensures ok <==> exists d :: StrictDocument(d, MAX_DEPTH) && PrintDocument(d) == source
  {
    var scanner := new StrictJsonScanner(source);
    ok := scanner.Scan();
    AcceptsExactlyStrictDocuments(source, MAX_DEPTH);
  }

  lemma AcceptsExactlyStrictDocuments(s: Text, limit: nat)
    ensures DocumentAt(s, limit).Some? <==> exists d :: StrictDocument(d, limit) && PrintDocument(d) == s
  {
    hide DocumentAt, StrictDocument, PrintDocument;
    if DocumentAt(s, limit).Some? {
      JsonSoundness.DocumentSound(s, limit);
    }
    forall d | StrictDocument(d, limit) && PrintDocument(d) == s
      ensures DocumentAt(s, limit).Some?
    {
      JsonCompleteness.DocumentComplete(d, limit);
    }
  }

  /** The grammar is unambiguous: a text has at most one tree. */
  lemma Unambiguous(d: Document, d': Document, limit: nat)
    requires StrictDocument(d, limit) && StrictDocument(d', limit) && PrintDocument(d) == PrintDocument(d')
    ensures d == d'
  {
    JsonCompleteness.DocumentComplete(d, limit);
    JsonCompleteness.DocumentComplete(d', limit);
  }
}
