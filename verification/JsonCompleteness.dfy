/** Every text the grammar derives is parsed back to the very tree it was derived from. */
module JsonCompleteness {
  import opened Units
  import opened JsonGrammar
  import opened JsonParser
  import opened JsonSpelling

  /** The unit would be read as a continuation of a number that stands before it. */
  predicate ContinuesNumber(c: int) { IsDigit(c) || c == DOT || IsExpMark(c) }

  lemma {:induction false} SkipOver(s: Text, i: nat, w: Text)
    requires Occurs(s, i, w) && AllWs(w) && !IsWs(At(s, i + |w|))
    ensures Skip(s, i) == i + |w|
    decreases |w|
  {
    if w != [] {
      OccursAt(s, i, w, 0);
      assert w == [w[0]] + w[1..];
      OccursSplit(s, i, [w[0]], w[1..]);
      SkipOver(s, i + 1, w[1..]);
    }
  }

  lemma {:induction false} DigitsOver(s: Text, i: nat, w: Text)
    requires Occurs(s, i, w) && AllDigits(w) && !IsDigit(At(s, i + |w|))
    ensures DigitsEnd(s, i) == i + |w|
    decreases |w|
  {
    if w != [] {
      OccursAt(s, i, w, 0);
      assert w == [w[0]] + w[1..];
      OccursSplit(s, i, [w[0]], w[1..]);
      DigitsOver(s, i + 1, w[1..]);
    }
  }

  lemma PartComplete(s: Text, i: nat, p: Part)
    requires ValidPart(p) && Occurs(s, i, PrintPart(p))
    ensures At(s, i) != QUOTE && PartAt(s, i) == Some(p)
  {
    var t := PrintPart(p);
    forall k | 0 <= k < |t| ensures At(s, i + k) == t[k] { OccursAt(s, i, t, k); }
    if p.Hex? {
      assert At(s, i + 1) == t[1] && At(s, i + 2) == t[2] && At(s, i + 3) == t[3];
      assert At(s, i + 4) == t[4] && At(s, i + 5) == t[5];
    } else if p.Short? {
      assert At(s, i + 1) == t[1];
    }
    assert At(s, i + 0) == t[0];
  }

  lemma {:induction false} PartsComplete(s: Text, i: nat, ps: seq<Part>)
    requires ValidParts(ps) && SpellsParts(s, i, ps)
    ensures i <= |s| && PartsAt(s, i) == Some(Parsed(ps, i + PartsWidth(ps)))
    decreases |ps|
  {
    hide PartAt, Occurs, PrintPart, ValidPart;
    if ps == [] {
      assert PartsAt(s, i) == Some(Parsed([], i + 1));
    } else {
      hide PartsAt;
      var p := ps[0];
      PartComplete(s, i, p);
      PartsComplete(s, i + |PrintPart(p)|, ps[1..]);
      PartsRead(s, i, p, ps[1..], i + |PrintPart(p)| + PartsWidth(ps[1..]));
      assert ps == [p] + ps[1..];
    }
  }

  lemma PartsRead(s: Text, i: nat, p: Part, rest: seq<Part>, end: nat)
    requires i + |PrintPart(p)| <= |s| && At(s, i) != QUOTE && PartAt(s, i) == Some(p)
    requires PartsAt(s, i + |PrintPart(p)|) == Some(Parsed(rest, end))
    ensures PartsAt(s, i) == Some(Parsed([p] + rest, end))
  {
    hide PartAt, PrintPart;
  }

  lemma IntComplete(s: Text, i: nat, t: Text)
    requires Occurs(s, i, t) && |t| > 0 && AllDigits(t) && (t[0] == ZERO ==> |t| == 1)
    requires !IsDigit(At(s, i + |t|))
    ensures IntEnd(s, i) == Some(i + |t|)
  {
    OccursAt(s, i, t, 0);
    if t[0] != ZERO {
      assert t == [t[0]] + t[1..];
      OccursSplit(s, i, [t[0]], t[1..]);
      DigitsOver(s, i + 1, t[1..]);
    }
  }

  lemma FracComplete(s: Text, i: nat, t: Text)
    requires Occurs(s, i, t) && (t == [] || (|t| > 1 && t[0] == DOT && AllDigits(t[1..])))
    requires At(s, i + |t|) != DOT && !IsDigit(At(s, i + |t|))
    ensures FracEnd(s, i) == Some(i + |t|)
  {
    if t != [] {
      OccursAt(s, i, t, 0);
      OccursAt(s, i, t, 1);
      assert IsDigit(t[1..][0]);
      assert t == [t[0]] + t[1..];
      OccursSplit(s, i, [t[0]], t[1..]);
      DigitsOver(s, i + 1, t[1..]);
    }
  }

  lemma ExpComplete(s: Text, i: nat, t: Text)
    requires Occurs(s, i, t) && (t == [] || ValidExp(t))
    requires !IsExpMark(At(s, i + |t|)) && !IsDigit(At(s, i + |t|))
    ensures ExpEnd(s, i) == Some(i + |t|)
  {
    if t != [] {
      var n := if IsSign(t[1]) then 2 else 1;
      OccursAt(s, i, t, 0);
      OccursAt(s, i, t, 1);
      OccursAt(s, i, t, n);
      assert IsDigit(t[n..][0]);
      assert t == t[..n] + t[n..];
      OccursSplit(s, i, t[..n], t[n..]);
      DigitsOver(s, i + n, t[n..]);
    }
  }

  lemma NumberComplete(s: Text, i: nat, n: Num)
    requires ValidNum(n) && SpellsNum(s, i, n) && !ContinuesNumber(At(s, i + NumWidth(n)))
    ensures i <= |s| && NumberAt(s, i) == Some(Parsed(n, i + NumWidth(n)))
  {
    hide IntEnd, FracEnd, ExpEnd, Occurs, AllDigits, ValidExp;
    var a := i + |n.minus|;
    var b := a + |n.whole|;
    var c := b + |n.frac|;
    OccursSlice(s, i, n.minus);
    OccursSlice(s, a, n.whole);
    OccursSlice(s, b, n.frac);
    OccursSlice(s, c, n.exp);
    FirstDigit(s, a, n.whole);
    if n.minus != [] { OccursAt(s, i, n.minus, 0); }
    if n.exp != [] { ExpStart(s, c, n.exp); }
    if n.frac != [] { OccursAt(s, b, n.frac, 0); }
    IntComplete(s, a, n.whole);
    FracComplete(s, b, n.frac);
    ExpComplete(s, c, n.exp);
  }

  lemma FirstDigit(s: Text, i: nat, t: Text)
    requires Occurs(s, i, t) && |t| > 0 && AllDigits(t)
    ensures IsDigit(At(s, i))
  {
    OccursAt(s, i, t, 0);
  }

  lemma ExpStart(s: Text, i: nat, t: Text)
    requires Occurs(s, i, t) && ValidExp(t)
    ensures IsExpMark(At(s, i))
  {
    OccursAt(s, i, t, 0);
  }

  /** No value starts with white space or with a delimiter. */
  lemma FirstUnit(s: Text, i: nat, v: Value)
    requires Valid(v) && Spells(s, i, v)
    ensures var c := At(s, i); !IsWs(c) && c != RBRACKET && c != RBRACE && c != -1
    ensures v.Number? ==> At(s, i) == MINUS || IsDigit(At(s, i))
  {
    match v {
      case Literal(w) => OccursAt(s, i, w, 0);
      case Number(n) => if n.minus == [] { OccursAt(s, i, n.whole, 0); } else { OccursAt(s, i, n.minus, 0); }
      case _ =>
    }
  }

  /** White space that is not empty does not continue a number, and neither does what follows it. */
  lemma AfterValue(s: Text, i: nat, ws: Text)
    requires Occurs(s, i, ws) && AllWs(ws) && !ContinuesNumber(At(s, i + |ws|))
    ensures !ContinuesNumber(At(s, i))
  {
    if ws != [] { OccursAt(s, i, ws, 0); }
  }

  lemma Delimits(close: Unit)
    requires close == RBRACKET || close == RBRACE
    ensures !ContinuesNumber(close) && !ContinuesNumber(COMMA)
  {}

  lemma ScalarComplete(s: Text, i: nat, depth: nat, limit: nat, v: Value)
    requires (v.Literal? || v.Number? || v.Str?) && Valid(v)
    requires Spells(s, i, v) && (v.Number? ==> !ContinuesNumber(At(s, i + Width(v))))
    ensures i <= |s| && ValueAt(s, i, depth, limit) == Some(Parsed(v, i + Width(v)))
  {
    hide MembersAt, ItemsAt, PartsAt, NumberAt, Skip, AllWs, ValidNum, SpellsNum, ValidParts, SpellsParts, PartsWidth;
    FirstUnit(s, i, v);
    match v {
      case Literal(w) =>
      case Number(n) => NumberComplete(s, i, n);
      case Str(ps) => PartsComplete(s, i + 1, ps);
    }
  }

  lemma {:induction false} ValueComplete(s: Text, i: nat, depth: nat, limit: nat, v: Value)
    requires Valid(v) && Unrepeated(v) && (Depth(v) == 0 || depth + Depth(v) <= limit)
    requires Spells(s, i, v) && (v.Number? ==> !ContinuesNumber(At(s, i + Width(v))))
    ensures i <= |s| && ValueAt(s, i, depth, limit) == Some(Parsed(v, i + Width(v)))
    decreases v
  {
    hide MembersAt, ItemsAt, NumberAt, StringAt, LiteralAt, Skip, AllWs, ContinuesNumber;
    hide ValidItems, UnrepeatedItems, SpellsItems, ItemsWidth;
    hide ValidMembers, UnrepeatedMembers, SpellsMembers, MembersWidth;
    FirstUnit(s, i, v);
    match v {
      case EmptyArray(ws) => SkipOver(s, i + 1, ws);
      case EmptyObject(ws) => SkipOver(s, i + 1, ws);
      case Array(xs) => ItemsComplete(s, i + 1, depth, limit, xs);
      case Object(ms) => MembersComplete(s, i + 1, depth, limit, {}, ms);
      case _ => ScalarComplete(s, i, depth, limit, v);
    }
  }

  /** What the parser returns for an item, given where its pieces end. */
  lemma ItemsRead(s: Text, i: nat, depth: nat, limit: nat, k: nat, v: Value, e: nat, q: nat)
    requires i <= k <= e <= q <= |s| && Skip(s, i) == k && ValueAt(s, k, depth + 1, limit) == Some(Parsed(v, e))
      && Skip(s, e) == q
    ensures At(s, q) == RBRACKET ==> ItemsAt(s, i, depth, limit) == Some(Parsed(LastItem(s[i..k], v, s[e..q]), q + 1))
    ensures At(s, q) == COMMA && ItemsAt(s, q + 1, depth, limit).Some? ==>
              var Parsed(rest, end) := ItemsAt(s, q + 1, depth, limit).value;
              ItemsAt(s, i, depth, limit) == Some(Parsed(MoreItems(s[i..k], v, s[e..q], rest), end))
  {
    hide ValueAt, Skip;
  }

  lemma MemberRead(s: Text, i: nat, depth: nat, limit: nat, names: set<Text>,
                   k: nat, name: seq<Part>, e: nat, c: nat, p: nat, v: Value, f: nat, q: nat)
    requires i <= k <= e <= c < p <= f <= q <= |s| && Skip(s, i) == k && StringAt(s, k) == Some(Parsed(name, e))
    requires DecodeParts(name) !in names && Skip(s, e) == c && At(s, c) == COLON && Skip(s, c + 1) == p
    requires ValueAt(s, p, depth + 1, limit) == Some(Parsed(v, f)) && Skip(s, f) == q
    ensures MemberAt(s, i, depth, limit, names) ==
              Some(Parsed(Member(s[i..k], name, s[e..c], s[c + 1..p], v, s[f..q]), q))
  {
    hide ValueAt, Skip, StringAt, DecodeParts;
  }

  lemma {:induction false} ItemsComplete(s: Text, i: nat, depth: nat, limit: nat, xs: Items)
    requires ValidItems(xs) && UnrepeatedItems(xs) && depth + 1 + ItemsDepth(xs) <= limit
    requires SpellsItems(s, i, xs)
    ensures i <= |s| && ItemsAt(s, i, depth, limit) == Some(Parsed(xs, i + ItemsWidth(xs)))
    ensures At(s, Skip(s, i)) != RBRACKET
    decreases xs
  {
    hide ItemsAt, ValueAt, Skip, Occurs, AllWs, Valid, Unrepeated, Depth, Spells, Width, ContinuesNumber;
    var k := i + |xs.before|;
    var e := k + Width(xs.value);
    FirstUnit(s, k, xs.value);
    SkipOver(s, i, xs.before);
    SkipOver(s, e, xs.after);
    assert !ContinuesNumber(At(s, e + |xs.after|)) by { Delimits(RBRACKET); }
    AfterValue(s, e, xs.after);
    ValueComplete(s, k, depth + 1, limit, xs.value);
    if xs.MoreItems? {
      ItemsComplete(s, e + |xs.after| + 1, depth, limit, xs.rest);
    }
    OccursSlice(s, i, xs.before);
    OccursSlice(s, e, xs.after);
    ItemsRead(s, i, depth, limit, k, xs.value, e, e + |xs.after|);
  }

  lemma {:induction false} MemberComplete(s: Text, i: nat, depth: nat, limit: nat, names: set<Text>, m: Member)
    requires ValidMember(m) && DecodeParts(m.name) !in names && Unrepeated(m.value)
    requires depth + 1 + Depth(m.value) <= limit
    requires SpellsMember(s, i, m)
    requires var c := At(s, i + MemberWidth(m)); c == RBRACE || c == COMMA
    ensures i <= |s| && MemberAt(s, i, depth, limit, names) == Some(Parsed(m, i + MemberWidth(m)))
    ensures At(s, Skip(s, i)) != RBRACE
    decreases m
  {
    hide MemberAt, ValueAt, Skip, PartsAt, Occurs, AllWs, Valid, Unrepeated, Depth, Spells, Width, ContinuesNumber;
    hide SpellsParts, PartsWidth, DecodeParts, ValidParts;
    var k := i + |m.before|;
    var e := k + 1 + PartsWidth(m.name);
    var c := e + |m.mid|;
    var p := c + 1 + |m.pad|;
    var f := p + Width(m.value);
    SkipOver(s, i, m.before);
    PartsComplete(s, k + 1, m.name);
    SkipOver(s, e, m.mid);
    FirstUnit(s, p, m.value);
    SkipOver(s, c + 1, m.pad);
    assert !ContinuesNumber(At(s, f + |m.after|)) by { Delimits(RBRACE); }
    AfterValue(s, f, m.after);
    ValueComplete(s, p, depth + 1, limit, m.value);
    SkipOver(s, f, m.after);
    MemberAssembled(s, i, depth, limit, names, m);
  }

  /** A member whose pieces are read where they are spelled is read as itself. */
  lemma MemberAssembled(s: Text, i: nat, depth: nat, limit: nat, names: set<Text>, m: Member)
    requires SpellsMember(s, i, m) && DecodeParts(m.name) !in names
    requires var k := i + |m.before|; var e := k + 1 + PartsWidth(m.name); var c := e + |m.mid|;
      var p := c + 1 + |m.pad|;
      var f := p + Width(m.value); var q := f + |m.after|;
      && q <= |s| && Skip(s, i) == k && StringAt(s, k) == Some(Parsed(m.name, e)) && Skip(s, e) == c
        && At(s, c) == COLON
      && Skip(s, c + 1) == p && ValueAt(s, p, depth + 1, limit) == Some(Parsed(m.value, f)) && Skip(s, f) == q
    ensures MemberAt(s, i, depth, limit, names) == Some(Parsed(m, i + MemberWidth(m)))
  {
    hide MemberAt, ValueAt, Skip, StringAt, Occurs, Spells, Width, SpellsParts, PartsWidth, DecodeParts;
    var k := i + |m.before|;
    var e := k + 1 + PartsWidth(m.name);
    var c := e + |m.mid|;
    var p := c + 1 + |m.pad|;
    var f := p + Width(m.value);
    OccursSlice(s, i, m.before);
    OccursSlice(s, e, m.mid);
    OccursSlice(s, c + 1, m.pad);
    OccursSlice(s, f, m.after);
    MemberRead(s, i, depth, limit, names, k, m.name, e, c, p, m.value, f, f + |m.after|);
  }

  lemma {:induction false} MembersComplete(s: Text, i: nat, depth: nat, limit: nat, names: set<Text>, ms: Members)
    requires ValidMembers(ms) && UnrepeatedMembers(ms, names) && depth + 1 + MembersDepth(ms) <= limit
    requires SpellsMembers(s, i, ms)
    ensures i <= |s| && MembersAt(s, i, depth, limit, names) == Some(Parsed(ms, i + MembersWidth(ms)))
    ensures At(s, Skip(s, i)) != RBRACE
    decreases ms
  {
    hide MemberAt, Skip, SpellsMember, MemberWidth, ValidMember;
    var q := i + MemberWidth(ms.m);
    assert ValidMember(ms.m) && Unrepeated(ms.m.value);
    MemberComplete(s, i, depth, limit, names, ms.m);
    if ms.MoreMembers? {
      MembersComplete(s, q + 1, depth, limit, names + {DecodeParts(ms.m.name)}, ms.more);
    }
  }

  lemma DocumentPieces(d: Document)
    ensures var s, k := PrintDocument(d), |d.before|;
            var e := k + Width(d.value);
            && Occurs(s, 0, d.before) && Spells(s, k, d.value) && Occurs(s, e, d.after)
            && e + |d.after| == |s| && s[..k] == d.before && s[e..] == d.after
  {
    hide Occurs, Spells, Width, Print;
    var s := PrintDocument(d);
    var k := |d.before|;
    SliceOccurs(s, 0, |s|);
    assert s[0..|s|] == s;
    OccursSplit(s, 0, d.before, Print(d.value) + d.after);
    OccursSplit(s, k, Print(d.value), d.after);
    ValuePrint(s, k, d.value);
  }

  lemma DocumentComplete(d: Document, limit: nat)
    requires StrictDocument(d, limit)
    ensures DocumentAt(PrintDocument(d), limit) == Some(d)
  {
    hide ValueAt, Skip, Occurs, AllWs, Valid, Unrepeated, Depth, Spells, Width, PrintDocument;
    var s := PrintDocument(d);
    var k := |d.before|;
    var e := k + Width(d.value);
    DocumentPieces(d);
    FirstUnit(s, k, d.value);
    SkipOver(s, 0, d.before);
    AfterValue(s, e, d.after);
    ValueComplete(s, k, 0, limit, d.value);
    SkipOver(s, e, d.after);
  }
}
