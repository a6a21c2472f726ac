/**
 Where the pieces of a tree stand in a text. `Spells` says by position what `Print` says by
 concatenation, so that the proofs about the parser need no sequence algebra.
 */
module JsonSpelling {
  import opened Units
  import opened JsonGrammar

  ghost predicate SpellsNum(s: Text, i: nat, n: Num) {
    && Occurs(s, i, n.minus)
    && Occurs(s, i + |n.minus|, n.whole)
    && Occurs(s, i + |n.minus| + |n.whole|, n.frac)
    && Occurs(s, i + |n.minus| + |n.whole| + |n.frac|, n.exp)
  }

  function NumWidth(n: Num): nat { |n.minus| + |n.whole| + |n.frac| + |n.exp| }

  ghost predicate SpellsParts(s: Text, i: nat, ps: seq<Part>)
    decreases |ps|
  {
    if ps == [] then At(s, i) == QUOTE
    else Occurs(s, i, PrintPart(ps[0])) && SpellsParts(s, i + |PrintPart(ps[0])|, ps[1..])
  }

  function PartsWidth(ps: seq<Part>): nat {
    if ps == [] then 1 else |PrintPart(ps[0])| + PartsWidth(ps[1..])
  }

  ghost predicate SpellsString(s: Text, i: nat, ps: seq<Part>) { At(s, i) == QUOTE && SpellsParts(s, i + 1, ps) }

  ghost predicate Spells(s: Text, i: nat, v: Value)
    decreases v
  {
    match v
    case Literal(w) => Occurs(s, i, w)
    case Number(n) => SpellsNum(s, i, n)
    case Str(ps) => SpellsString(s, i, ps)
    case EmptyArray(ws) => At(s, i) == LBRACKET && Occurs(s, i + 1, ws) && At(s, i + 1 + |ws|) == RBRACKET
    case Array(xs) => At(s, i) == LBRACKET && SpellsItems(s, i + 1, xs)
    case EmptyObject(ws) => At(s, i) == LBRACE && Occurs(s, i + 1, ws) && At(s, i + 1 + |ws|) == RBRACE
    case Object(ms) => At(s, i) == LBRACE && SpellsMembers(s, i + 1, ms)
  }

  ghost predicate SpellsItems(s: Text, i: nat, xs: Items)
    decreases xs
  {
    var k := i + |xs.before|;
    var e := k + Width(xs.value);
    var q := e + |xs.after|;
    && Occurs(s, i, xs.before) && Spells(s, k, xs.value) && Occurs(s, e, xs.after)
    && match xs
       case LastItem(_, _, _) => At(s, q) == RBRACKET
       case MoreItems(_, _, _, rest) => At(s, q) == COMMA && SpellsItems(s, q + 1, rest)
  }

  ghost predicate SpellsMember(s: Text, i: nat, m: Member)
    decreases m
  {
    var k := i + |m.before|;
    var e := k + 1 + PartsWidth(m.name);
    var c := e + |m.mid|;
    var p := c + 1 + |m.pad|;
    var f := p + Width(m.value);
    && Occurs(s, i, m.before) && SpellsString(s, k, m.name) && Occurs(s, e, m.mid)
    && At(s, c) == COLON && Occurs(s, c + 1, m.pad) && Spells(s, p, m.value) && Occurs(s, f, m.after)
  }

  ghost predicate SpellsMembers(s: Text, i: nat, ms: Members)
    decreases ms
  {
    var q := i + MemberWidth(ms.m);
    && SpellsMember(s, i, ms.m)
    && match ms
       case LastMember(_) => At(s, q) == RBRACE
       case MoreMembers(_, more) => At(s, q) == COMMA && SpellsMembers(s, q + 1, more)
  }

  function Width(v: Value): nat {
    match v
    case Literal(w) => |w|
    case Number(n) => NumWidth(n)
    case Str(ps) => 1 + PartsWidth(ps)
    case EmptyArray(ws) => |ws| + 2
    case Array(xs) => 1 + ItemsWidth(xs)
    case EmptyObject(ws) => |ws| + 2
    case Object(ms) => 1 + MembersWidth(ms)
  }

  function ItemsWidth(xs: Items): nat {
    |xs.before| + Width(xs.value) + |xs.after| + 1 +
    match xs case LastItem(_, _, _) => 0 case MoreItems(_, _, _, rest) => ItemsWidth(rest)
  }

  function MemberWidth(m: Member): nat {
    |m.before| + 1 + PartsWidth(m.name) + |m.mid| + 1 + |m.pad| + Width(m.value) + |m.after|
  }

  function MembersWidth(ms: Members): nat {
    MemberWidth(ms.m) + 1 + match ms case LastMember(_) => 0 case MoreMembers(_, more) => MembersWidth(more)
  }

  // ---- the two readings agree ----

  lemma UnitOccurs(s: Text, i: nat, c: Unit)
    ensures Occurs(s, i, [c]) <==> At(s, i) == c
  {
    if At(s, i) == c { assert s[i..i + 1] == [c]; }
    if Occurs(s, i, [c]) { OccursAt(s, i, [c], 0); }
  }

  lemma NumPrint(s: Text, i: nat, n: Num)
    ensures NumWidth(n) == |PrintNum(n)| && (SpellsNum(s, i, n) <==> Occurs(s, i, PrintNum(n)))
  {
    hide Occurs;
    var a := i + |n.minus|;
    OccursSplit(s, i, n.minus, n.whole + (n.frac + n.exp));
    OccursSplit(s, a, n.whole, n.frac + n.exp);
    OccursSplit(s, a + |n.whole|, n.frac, n.exp);
  }

  lemma {:induction false} PartsPrint(s: Text, i: nat, ps: seq<Part>)
    ensures PartsWidth(ps) == |PrintParts(ps)| && (SpellsParts(s, i, ps) <==> Occurs(s, i, PrintParts(ps)))
    decreases |ps|
  {
    hide Occurs;
    if ps == [] {
      UnitOccurs(s, i, QUOTE);
    } else {
      OccursSplit(s, i, PrintPart(ps[0]), PrintParts(ps[1..]));
      PartsPrint(s, i + |PrintPart(ps[0])|, ps[1..]);
    }
  }

  lemma StringPrint(s: Text, i: nat, ps: seq<Part>)
    ensures 1 + PartsWidth(ps) == |PrintString(ps)| && (SpellsString(s, i, ps) <==> Occurs(s, i, PrintString(ps)))
  {
    hide Occurs, PrintParts, SpellsParts, PartsWidth;
    PartsPrint(s, i + 1, ps);
    UnitOccurs(s, i, QUOTE);
    OccursSplit(s, i, [QUOTE], PrintParts(ps));
  }

  lemma {:induction false} ValuePrint(s: Text, i: nat, v: Value)
    ensures Width(v) == |Print(v)| && (Spells(s, i, v) <==> Occurs(s, i, Print(v)))
    decreases v
  {
    hide Occurs, SpellsNum, NumWidth, PrintNum, SpellsString, PrintString, PartsWidth;
    match v {
      case Literal(_) =>
      case Number(n) => NumPrint(s, i, n);
      case Str(ps) => StringPrint(s, i, ps);
      case EmptyArray(ws) =>
        UnitOccurs(s, i, LBRACKET);
        UnitOccurs(s, i + 1 + |ws|, RBRACKET);
        OccursSplit(s, i, [LBRACKET], ws + [RBRACKET]);
        OccursSplit(s, i + 1, ws, [RBRACKET]);
      case EmptyObject(ws) =>
        UnitOccurs(s, i, LBRACE);
        UnitOccurs(s, i + 1 + |ws|, RBRACE);
        OccursSplit(s, i, [LBRACE], ws + [RBRACE]);
        OccursSplit(s, i + 1, ws, [RBRACE]);
      case Array(xs) =>
        UnitOccurs(s, i, LBRACKET);
        OccursSplit(s, i, [LBRACKET], PrintItems(xs));
        ItemsPrint(s, i + 1, xs);
      case Object(ms) =>
        UnitOccurs(s, i, LBRACE);
        OccursSplit(s, i, [LBRACE], PrintMembers(ms));
        MembersPrint(s, i + 1, ms);
    }
  }

  lemma {:induction false} ItemsPrint(s: Text, i: nat, xs: Items)
    ensures ItemsWidth(xs) == |PrintItems(xs)| && (SpellsItems(s, i, xs) <==> Occurs(s, i, PrintItems(xs)))
    decreases xs
  {
    hide Occurs, Print, Spells, Width;
    var k := i + |xs.before|;
    ValuePrint(s, k, xs.value);
    var e := k + Width(xs.value);
    var q := e + |xs.after|;
    var tail :=
      match xs
      case LastItem(_, _, _) => [RBRACKET]
      case MoreItems(_, _, _, rest) => [COMMA] + PrintItems(rest);
    OccursSplit(s, i, xs.before, Print(xs.value) + (xs.after + tail));
    OccursSplit(s, k, Print(xs.value), xs.after + tail);
    OccursSplit(s, e, xs.after, tail);
    match xs {
      case LastItem(_, _, _) => UnitOccurs(s, q, RBRACKET);
      case MoreItems(_, _, _, rest) =>
        UnitOccurs(s, q, COMMA);
        OccursSplit(s, q, [COMMA], PrintItems(rest));
        ItemsPrint(s, q + 1, rest);
    }
  }

  lemma {:induction false} MemberPrint(s: Text, i: nat, m: Member)
    ensures MemberWidth(m) == |PrintMember(m)| && (SpellsMember(s, i, m) <==> Occurs(s, i, PrintMember(m)))
    decreases m
  {
    hide Occurs, Print, Spells, Width, SpellsString, PrintString, PartsWidth;
    var k := i + |m.before|;
    StringPrint(s, k, m.name);
    var e := k + 1 + PartsWidth(m.name);
    var c := e + |m.mid|;
    var p := c + 1 + |m.pad|;
    ValuePrint(s, p, m.value);
    UnitOccurs(s, c, COLON);
    OccursSplit(s, p, Print(m.value), m.after);
    OccursSplit(s, c + 1, m.pad, Print(m.value) + m.after);
    OccursSplit(s, c, [COLON], m.pad + (Print(m.value) + m.after));
    OccursSplit(s, e, m.mid, [COLON] + (m.pad + (Print(m.value) + m.after)));
    OccursSplit(s, k, PrintString(m.name), m.mid + ([COLON] + (m.pad + (Print(m.value) + m.after))));
    OccursSplit(s, i, m.before, PrintString(m.name) + (m.mid + ([COLON] + (m.pad + (Print(m.value) + m.after)))));
  }

  lemma {:induction false} MembersPrint(s: Text, i: nat, ms: Members)
    ensures MembersWidth(ms) == |PrintMembers(ms)| && (SpellsMembers(s, i, ms) <==> Occurs(s, i, PrintMembers(ms)))
    decreases ms
  {
    hide Occurs, PrintMember, SpellsMember, MemberWidth;
    MemberPrint(s, i, ms.m);
    var q := i + MemberWidth(ms.m);
    match ms {
      case LastMember(_) =>
        OccursSplit(s, i, PrintMember(ms.m), [RBRACE]);
        UnitOccurs(s, q, RBRACE);
      case MoreMembers(_, more) =>
        OccursSplit(s, i, PrintMember(ms.m), [COMMA] + PrintMembers(more));
        UnitOccurs(s, q, COMMA);
        OccursSplit(s, q, [COMMA], PrintMembers(more));
        MembersPrint(s, q + 1, more);
    }
  }
}
