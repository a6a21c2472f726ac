/**
 The grammar of JSON texts (sections 2 to 7 of RFC 8259) as concrete syntax trees that keep
 every layout detail, together with the text each tree derives.
 */
module JsonGrammar {
  import opened Units

  const QUOTE: Unit := 0x22
  const BACKSLASH: Unit := 0x5c
  const COMMA: Unit := 0x2c
  const COLON: Unit := 0x3a
  const LBRACE: Unit := 0x7b
  const RBRACE: Unit := 0x7d
  const LBRACKET: Unit := 0x5b
  const RBRACKET: Unit := 0x5d
  const MINUS: Unit := 0x2d
  const PLUS: Unit := 0x2b
  const DOT: Unit := 0x2e
  const ZERO: Unit := 0x30
  const LETTER_U: Unit := 0x75

  const TRUE: Text := [0x74, 0x72, 0x75, 0x65]
  const FALSE: Text := [0x66, 0x61, 0x6c, 0x73, 0x65]
  const NULL: Text := [0x6e, 0x75, 0x6c, 0x6c]

  predicate IsWs(c: int) { c == 0x20 || c == 0x09 || c == 0x0a || c == 0x0d }
  predicate IsDigit(c: int) { 0x30 <= c <= 0x39 }
  predicate IsHex(c: int) { IsDigit(c) || 0x41 <= c <= 0x46 || 0x61 <= c <= 0x66 }
  predicate IsExpMark(c: int) { c == 0x65 || c == 0x45 }
  predicate IsSign(c: int) { c == 0x2b || c == 0x2d }
  /** The letters allowed after a backslash, other than `u`. */
  predicate IsShortEscape(c: int) {
    c == 0x22 || c == 0x5c || c == 0x2f || c == 0x62 || c == 0x66 || c == 0x6e || c == 0x72 || c == 0x74
  }

  predicate AllWs(t: Text) { forall k :: 0 <= k < |t| ==> IsWs(t[k]) }
  predicate AllDigits(t: Text) { forall k :: 0 <= k < |t| ==> IsDigit(t[k]) }

  // ---- strings (section 7) ----

  datatype Part =
    | Plain(c: Unit)
    | Short(letter: Unit)
    | Hex(h0: Unit, h1: Unit, h2: Unit, h3: Unit)

  predicate ValidPart(p: Part) {
    match p
    case Plain(c) => c >= 0x20 && c != QUOTE && c != BACKSLASH
    case Short(e) => IsShortEscape(e)
    case Hex(a, b, c, d) => IsHex(a) && IsHex(b) && IsHex(c) && IsHex(d)
  }

  predicate ValidParts(ps: seq<Part>) { forall k :: 0 <= k < |ps| ==> ValidPart(ps[k]) }

  function HexDigit(c: Unit): (v: int)
    ensures 0 <= v < 16
  {
    if IsDigit(c) then c - 0x30
    else if 0x41 <= c <= 0x46 then c - 0x41 + 10
    else if 0x61 <= c <= 0x66 then c - 0x61 + 10
    else 0
  }

  /** The code unit a part of a string literal stands for. */
  function DecodePart(p: Part): Unit {
    match p
    case Plain(c) => c
    case Short(e) =>
      if e == 0x62 then 0x08 else if e == 0x66 then 0x0c else if e == 0x6e then 0x0a
      else if e == 0x72 then 0x0d else if e == 0x74 then 0x09 else e
    case Hex(a, b, c, d) =>
      HexDigit(a) * 0x1000 + HexDigit(b) * 0x100 + HexDigit(c) * 0x10 + HexDigit(d)
  }

  function DecodeParts(ps: seq<Part>): Text {
    if ps == [] then [] else [DecodePart(ps[0])] + DecodeParts(ps[1..])
  }

  function PrintPart(p: Part): (t: Text)
    ensures |t| > 0
  {
    match p
    case Plain(c) => [c]
    case Short(e) => [BACKSLASH, e]
    case Hex(a, b, c, d) => [BACKSLASH, LETTER_U, a, b, c, d]
  }

  /** The parts of a string literal up to and including the closing quotation mark. */
  function PrintParts(ps: seq<Part>): Text {
    if ps == [] then [QUOTE] else PrintPart(ps[0]) + PrintParts(ps[1..])
  }

  function PrintString(ps: seq<Part>): Text { [QUOTE] + PrintParts(ps) }

  // ---- numbers (section 6) ----

  datatype Num = Num(minus: Text, whole: Text, frac: Text, exp: Text)

  ghost predicate ValidNum(n: Num) {
    && (n.minus == [] || n.minus == [MINUS])
    && |n.whole| > 0 && AllDigits(n.whole) && (n.whole[0] == ZERO ==> |n.whole| == 1)
    && (n.frac == [] || (|n.frac| > 1 && n.frac[0] == DOT && AllDigits(n.frac[1..])))
    && (n.exp == [] || ValidExp(n.exp))
  }

  ghost predicate ValidExp(t: Text) {
    && |t| >= 2 && IsExpMark(t[0])
    && var digits := if IsSign(t[1]) then t[2..] else t[1..];
    |digits| > 0 && AllDigits(digits)
  }

  function PrintNum(n: Num): Text { n.minus + (n.whole + (n.frac + n.exp)) }

  // ---- values (sections 2 to 5) ----

  datatype Value =
    | Literal(word: Text)
    | Number(n: Num)
    | Str(parts: seq<Part>)
    | EmptyArray(ws: Text)
    | Array(items: Items)
    | EmptyObject(ws: Text)
    | Object(members: Members)

  datatype Items =
    | LastItem(before: Text, value: Value, after: Text)
    | MoreItems(before: Text, value: Value, after: Text, rest: Items)

  datatype Member = Member(before: Text, name: seq<Part>, mid: Text, pad: Text, value: Value, after: Text)

  datatype Members =
    | LastMember(m: Member)
    | MoreMembers(m: Member, more: Members)

  /** A JSON text: `ws value ws`. */
  datatype Document = Document(before: Text, value: Value, after: Text)

  ghost predicate Valid(v: Value) {
    match v
    case Literal(w) => w == TRUE || w == FALSE || w == NULL
    case Number(n) => ValidNum(n)
    case Str(ps) => ValidParts(ps)
    case EmptyArray(ws) => AllWs(ws)
    case Array(items) => ValidItems(items)
    case EmptyObject(ws) => AllWs(ws)
    case Object(ms) => ValidMembers(ms)
  }

  ghost predicate ValidItems(xs: Items) {
    AllWs(xs.before) && Valid(xs.value) && AllWs(xs.after) && (xs.MoreItems? ==> ValidItems(xs.rest))
  }

  ghost predicate ValidMember(m: Member) {
    AllWs(m.before) && ValidParts(m.name) && AllWs(m.mid) && AllWs(m.pad) && Valid(m.value) && AllWs(m.after)
  }

  ghost predicate ValidMembers(ms: Members) {
    ValidMember(ms.m) && (ms.MoreMembers? ==> ValidMembers(ms.more))
  }

  ghost predicate ValidDocument(d: Document) { AllWs(d.before) && Valid(d.value) && AllWs(d.after) }

  function Print(v: Value): Text {
    match v
    case Literal(w) => w
    case Number(n) => PrintNum(n)
    case Str(ps) => PrintString(ps)
    case EmptyArray(ws) => [LBRACKET] + (ws + [RBRACKET])
    case Array(items) => [LBRACKET] + PrintItems(items)
    case EmptyObject(ws) => [LBRACE] + (ws + [RBRACE])
    case Object(ms) => [LBRACE] + PrintMembers(ms)
  }

  /** The items with their separators, up to and including the closing bracket. */
  function PrintItems(xs: Items): Text {
    xs.before + (Print(xs.value) + (xs.after +
      match xs case LastItem(_, _, _) => [RBRACKET] case MoreItems(_, _, _, rest) => [COMMA] + PrintItems(rest)))
  }

  /** A member from its leading white space to the white space after its value. */
  function PrintMember(m: Member): Text {
    m.before + (PrintString(m.name) + (m.mid + ([COLON] + (m.pad + (Print(m.value) + m.after)))))
  }

  function PrintMembers(ms: Members): Text {
    PrintMember(ms.m) +
      match ms case LastMember(_) => [RBRACE] case MoreMembers(_, more) => [COMMA] + PrintMembers(more)
  }

  function PrintDocument(d: Document): Text { d.before + (Print(d.value) + d.after) }

  // ---- the two restrictions beyond the grammar ----

  /** How deep containers nest. */
  function Depth(v: Value): nat {
    match v
    case Array(items) => 1 + ItemsDepth(items)
    case Object(ms) => 1 + MembersDepth(ms)
    case EmptyArray(_) => 1
    case EmptyObject(_) => 1
    case _ => 0
  }

  function ItemsDepth(xs: Items): nat {
    match xs
    case LastItem(_, v, _) => Depth(v)
    case MoreItems(_, v, _, rest) => Max(Depth(v), ItemsDepth(rest))
  }

  function MembersDepth(ms: Members): nat {
    match ms
    case LastMember(m) => Depth(m.value)
    case MoreMembers(m, more) => Max(Depth(m.value), MembersDepth(more))
  }

  /** No object, at any level, repeats a decoded member name. */
  ghost predicate Unrepeated(v: Value) {
    match v
    case Array(items) => UnrepeatedItems(items)
    case Object(ms) => UnrepeatedMembers(ms, {})
    case _ => true
  }

  ghost predicate UnrepeatedItems(xs: Items) {
    Unrepeated(xs.value) && (xs.MoreItems? ==> UnrepeatedItems(xs.rest))
  }

  /** The members' names are distinct and none of them is in `names`. */
  ghost predicate UnrepeatedMembers(ms: Members, names: set<Text>) {
    && DecodeParts(ms.m.name) !in names
    && Unrepeated(ms.m.value)
    && (ms.MoreMembers? ==> UnrepeatedMembers(ms.more, names + {DecodeParts(ms.m.name)}))
  }

  /** The texts the strict recogniser is for. */
  ghost predicate StrictDocument(d: Document, limit: nat) {
    ValidDocument(d) && Unrepeated(d.value) && Depth(d.value) <= limit
  }
}
