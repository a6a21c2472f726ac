/**
 A reference parser that follows the recogniser's control flow and keeps the tree it recognises.
 It is sound and complete for `JsonGrammar`, which makes the grammar unambiguous.
 */
module JsonParser {
  import opened Units
  import opened JsonGrammar

  datatype Parsed<+T> = Parsed(tree: T, end: nat)

  /** The first position at or after `i` that holds no white space. */
  function Skip(s: Text, i: nat): (j: nat)
    requires i <= |s|
    ensures i <= j <= |s|
    decreases |s| - i
  {
    if IsWs(At(s, i)) then Skip(s, i + 1) else i
  }

  function DigitsEnd(s: Text, i: nat): (j: nat)
    requires i <= |s|
    ensures i <= j <= |s|
    decreases |s| - i
  {
    if IsDigit(At(s, i)) then DigitsEnd(s, i + 1) else i
  }

  /** The string part that starts at `i`; a closing quotation mark is none. */
  function PartAt(s: Text, i: nat): (r: Option<Part>)
    ensures r.Some? ==> ValidPart(r.value) && i + |PrintPart(r.value)| <= |s| && Occurs(s, i, PrintPart(r.value))
  {
    var c := At(s, i);
    if c < 0x20 || c == QUOTE then None
    else if c != BACKSLASH then Some(Plain(c))
    else if IsShortEscape(At(s, i + 1)) then Some(Short(s[i + 1]))
    else if At(s, i + 1) == LETTER_U && FourHex(s, i + 2) then Some(Hex(s[i + 2], s[i + 3], s[i + 4], s[i + 5]))
    else None
  }

  /** The rest of a string literal whose opening quotation mark stands before `i`. */
  function PartsAt(s: Text, i: nat): (r: Option<Parsed<seq<Part>>>)
    requires i <= |s|
    ensures r.Some? ==> i < r.value.end <= |s|
    decreases |s| - i
  {
    if At(s, i) == QUOTE then Some(Parsed([], i + 1)) else
    var p := PartAt(s, i);
    if p.None? then None else
    var rest := PartsAt(s, i + |PrintPart(p.value)|);
    if rest.None? then None else Some(Parsed([p.value] + rest.value.tree, rest.value.end))
  }

  predicate FourHex(s: Text, i: nat) {
    IsHex(At(s, i)) && IsHex(At(s, i + 1)) && IsHex(At(s, i + 2)) && IsHex(At(s, i + 3))
  }

  function StringAt(s: Text, i: nat): (r: Option<Parsed<seq<Part>>>)
    requires i <= |s|
    ensures r.Some? ==> i < r.value.end <= |s|
  {
    if At(s, i) == QUOTE then PartsAt(s, i + 1) else None
  }

  /** Where the integer part starting at `i` ends, if there is one. */
  function IntEnd(s: Text, i: nat): (r: Option<nat>)
    requires i <= |s|
    ensures r.Some? ==> i < r.value <= |s|
  {
    if At(s, i) == ZERO then (if IsDigit(At(s, i + 1)) then None else Some(i + 1))
    else if IsDigit(At(s, i)) then Some(DigitsEnd(s, i + 1))
    else None
  }

  function FracEnd(s: Text, i: nat): (r: Option<nat>)
    requires i <= |s|
    ensures r.Some? ==> i <= r.value <= |s|
  {
    if At(s, i) != DOT then Some(i)
    else if IsDigit(At(s, i + 1)) then Some(DigitsEnd(s, i + 1))
    else None
  }

  function ExpEnd(s: Text, i: nat): (r: Option<nat>)
    requires i <= |s|
    ensures r.Some? ==> i <= r.value <= |s|
  {
    if !IsExpMark(At(s, i)) then Some(i)
    else
      var k := if IsSign(At(s, i + 1)) then i + 2 else i + 1;
      if IsDigit(At(s, k)) then Some(DigitsEnd(s, k)) else None
  }

  function NumberAt(s: Text, i: nat): (r: Option<Parsed<Num>>)
    requires i <= |s|
    ensures r.Some? ==> i < r.value.end <= |s|
  {
    var a := if At(s, i) == MINUS then i + 1 else i;
    var b := IntEnd(s, a);
    if b.None? then None else
    var c := FracEnd(s, b.value);
    if c.None? then None else
    var e := ExpEnd(s, c.value);
    if e.None? then None else
    Some(Parsed(Num(s[i..a], s[a..b.value], s[b.value..c.value], s[c.value..e.value]), e.value))
  }

  function LiteralAt(s: Text, i: nat, word: Text): (r: Option<Parsed<Value>>)
    requires i <= |s|
    ensures r.Some? && |word| > 0 ==> i < r.value.end <= |s|
  {
    if i + |word| <= |s| && s[i..i + |word|] == word then Some(Parsed(Literal(word), i + |word|)) else None
  }

  /** The value starting exactly at `i`, inside `depth` containers, with at most `limit` of them. */
  function ValueAt(s: Text, i: nat, depth: nat, limit: nat): (r: Option<Parsed<Value>>)
    requires i <= |s|
    ensures r.Some? ==> i < r.value.end <= |s|
    decreases |s| - i, 1
  {
    var c := At(s, i);
    if c == LBRACE then
      if depth >= limit then None else
      var k := Skip(s, i + 1);
      if At(s, k) == RBRACE then Some(Parsed(EmptyObject(s[i + 1..k]), k + 1)) else
      var ms := MembersAt(s, i + 1, depth, limit, {});
      if ms.None? then None else Some(Parsed(Object(ms.value.tree), ms.value.end))
    else if c == LBRACKET then
      if depth >= limit then None else
      var k := Skip(s, i + 1);
      if At(s, k) == RBRACKET then Some(Parsed(EmptyArray(s[i + 1..k]), k + 1)) else
      var xs := ItemsAt(s, i + 1, depth, limit);
      if xs.None? then None else Some(Parsed(Array(xs.value.tree), xs.value.end))
    else if c == QUOTE then
      var ps := StringAt(s, i);
      if ps.None? then None else Some(Parsed(Str(ps.value.tree), ps.value.end))
    else if c == 0x74 then LiteralAt(s, i, TRUE)
    else if c == 0x66 then LiteralAt(s, i, FALSE)
    else if c == 0x6e then LiteralAt(s, i, NULL)
    else
      var n := NumberAt(s, i);
      if n.None? then None else Some(Parsed(Number(n.value.tree), n.value.end))
  }

  /** Items of an array from `i` to the closing bracket. */
  function ItemsAt(s: Text, i: nat, depth: nat, limit: nat): (r: Option<Parsed<Items>>)
    requires i <= |s|
    ensures r.Some? ==> i < r.value.end <= |s|
    decreases |s| - i, 2
  {
    var k := Skip(s, i);
    var v := ValueAt(s, k, depth + 1, limit);
    if v.None? then None else
    var q := Skip(s, v.value.end);
    var before, value, after := s[i..k], v.value.tree, s[v.value.end..q];
    if At(s, q) == RBRACKET then Some(Parsed(LastItem(before, value, after), q + 1))
    else if At(s, q) != COMMA then None else
    var rest := ItemsAt(s, q + 1, depth, limit);
    if rest.None? then None else Some(Parsed(MoreItems(before, value, after, rest.value.tree), rest.value.end))
  }

  /** Members of an object from `i` to the closing brace, given the names already seen. */
  function MembersAt(s: Text, i: nat, depth: nat, limit: nat, names: set<Text>): (r: Option<Parsed<Members>>)
    requires i <= |s|
    ensures r.Some? ==> i < r.value.end <= |s|
    decreases |s| - i, 2
  {
    var m := MemberAt(s, i, depth, limit, names);
    if m.None? then None else
    var q := m.value.end;
    if At(s, q) == RBRACE then Some(Parsed(LastMember(m.value.tree), q + 1))
    else if At(s, q) != COMMA then None else
    var rest := MembersAt(s, q + 1, depth, limit, names + {DecodeParts(m.value.tree.name)});
    if rest.None? then None else Some(Parsed(MoreMembers(m.value.tree, rest.value.tree), rest.value.end))
  }

  /** One member, from its leading to its trailing white space. */
  function MemberAt(s: Text, i: nat, depth: nat, limit: nat, names: set<Text>): (r: Option<Parsed<Member>>)
    requires i <= |s|
    ensures r.Some? ==> i < r.value.end <= |s|
    decreases |s| - i, 1
  {
    var k := Skip(s, i);
    var name := StringAt(s, k);
    if name.None? then None else
    if DecodeParts(name.value.tree) in names then None else
    var e := name.value.end;
    var c := Skip(s, e);
    if At(s, c) != COLON then None else
    var p := Skip(s, c + 1);
    var v := ValueAt(s, p, depth + 1, limit);
    if v.None? then None else
    var q := Skip(s, v.value.end);
    Some(Parsed(Member(s[i..k], name.value.tree, s[e..c], s[c + 1..p], v.value.tree, s[v.value.end..q]), q))
  }

  function DocumentAt(s: Text, limit: nat): Option<Document> {
    var k := Skip(s, 0);
    var v := ValueAt(s, k, 0, limit);
    if v.None? then None else
    var q := Skip(s, v.value.end);
    if q == |s| then Some(Document(s[..k], v.value.tree, s[v.value.end..])) else None
  }
}
