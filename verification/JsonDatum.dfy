/** What a JSON text says: the data a concrete syntax tree stands for, whatever its layout and its escapes. */
module JsonDatum {
  import opened Units
  import G = JsonGrammar
  import opened JsonQuote
  import JsonParser
  import JsonCompleteness

  /** A number is its numeral; an object is its members in the order they are written. */
  datatype Datum =
    | Null
    | Bool(b: bool)
    | Number(text: Text)
    | String(s: Text)
    | Array(items: seq<Datum>)
    | Object(fields: seq<Field>)

  datatype Field = Field(name: Text, value: Datum)

  function Read(v: G.Value): Datum {
    match v
    case Literal(w) => if w == G.TRUE then Bool(true) else if w == G.FALSE then Bool(false) else Null
    case Number(n) => Number(G.PrintNum(n))
    case Str(ps) => String(G.DecodeParts(ps))
    case EmptyArray(_) => Array([])
    case Array(items) => Array(ReadItems(items))
    case EmptyObject(_) => Object([])
    case Object(ms) => Object(ReadMembers(ms))
  }

  function ReadItems(xs: G.Items): seq<Datum> {
    [Read(xs.value)] + match xs case LastItem(_, _, _) => [] case MoreItems(_, _, _, rest) => ReadItems(rest)
  }

  function ReadMembers(ms: G.Members): seq<Field> {
    [Field(G.DecodeParts(ms.m.name), Read(ms.m.value))] +
      match ms case LastMember(_) => [] case MoreMembers(_, more) => ReadMembers(more)
  }

  // ---- a tree without white space for given data ----

  /** A number of section 6 of RFC 8259. */
  ghost predicate IsNumeral(t: Text) { exists n: G.Num :: G.ValidNum(n) && G.PrintNum(n) == t }

  ghost function NumOf(t: Text): (n: G.Num)
    ensures G.PrintNum(n) == t && (IsNumeral(t) ==> G.ValidNum(n))
  {
    if IsNumeral(t) then
      var n: G.Num :| G.ValidNum(n) && G.PrintNum(n) == t;
      n
    else
      var n := G.Num(t, [], [], []);
      assert G.PrintNum(n) == t + ([] + ([] + []));
      n
  }

  ghost function Tree(d: Datum): G.Value
    decreases d, 0
  {
    match d
    case Null => G.Literal(G.NULL)
    case Bool(b) => G.Literal(if b then G.TRUE else G.FALSE)
    case Number(t) => G.Number(NumOf(t))
    case String(s) => G.Str(Quote(s))
    case Array(items) => if items == [] then G.EmptyArray([]) else G.Array(ItemsTree(items))
    case Object(fs) => if fs == [] then G.EmptyObject([]) else G.Object(MembersTree(fs))
  }

  ghost function ItemsTree(items: seq<Datum>): G.Items
    requires items != []
    decreases items, 0
  {
    if |items| == 1 then G.LastItem([], Tree(items[0]), [])
    else G.MoreItems([], Tree(items[0]), [], ItemsTree(items[1..]))
  }

  ghost function MemberTree(f: Field): G.Member
    decreases f, 0
  {
    G.Member([], Quote(f.name), [], [], Tree(f.value), [])
  }

  ghost function MembersTree(fs: seq<Field>): G.Members
    requires fs != []
    decreases fs, 1
  {
    if |fs| == 1 then G.LastMember(MemberTree(fs[0]))
    else G.MoreMembers(MemberTree(fs[0]), MembersTree(fs[1..]))
  }

  // ---- the tree says the data ----

  lemma {:induction false} TreeReads(d: Datum)
    ensures Read(Tree(d)) == d
    decreases d, 0
  {
    hide Quote, NumOf;
    match d {
      case String(s) => QuoteDecodes(s);
      case Array(items) => if items != [] { ItemsRead(items); }
      case Object(fs) => if fs != [] { MembersRead(fs); }
      case _ =>
    }
  }

  lemma {:induction false} ItemsRead(items: seq<Datum>)
    requires items != []
    ensures ReadItems(ItemsTree(items)) == items
    decreases items, 0
  {
    hide Tree, Read;
    TreeReads(items[0]);
    if |items| > 1 { ItemsRead(items[1..]); }
    assert items == [items[0]] + items[1..];
  }

  lemma {:induction false} MembersRead(fs: seq<Field>)
    requires fs != []
    ensures ReadMembers(MembersTree(fs)) == fs
    decreases fs, 1
  {
    hide Tree, Read, Quote;
    TreeReads(fs[0].value);
    QuoteDecodes(fs[0].name);
    if |fs| > 1 { MembersRead(fs[1..]); }
    assert fs == [fs[0]] + fs[1..];
  }

  // ---- the tree is in the grammar ----

  ghost predicate DistinctNames(fs: seq<Field>) { forall i, j :: 0 <= i < j < |fs| ==> fs[i].name != fs[j].name }

  /** Numerals are numbers of the grammar and objects have distinct member names, at every level. */
  ghost predicate WellFormed(d: Datum) {
    match d
    case Number(t) => IsNumeral(t)
    case Array(items) => forall i :: 0 <= i < |items| ==> WellFormed(items[i])
    case Object(fs) => DistinctNames(fs) && forall i :: 0 <= i < |fs| ==> WellFormed(fs[i].value)
    case _ => true
  }

  lemma {:induction false} TreeValid(d: Datum)
    requires WellFormed(d)
    ensures G.Valid(Tree(d)) && G.Unrepeated(Tree(d))
    decreases d, 0
  {
    hide G.ValidItems, G.UnrepeatedItems, G.ValidMembers, G.UnrepeatedMembers, Quote, NumOf, G.ValidNum, IsNumeral;
    match d {
      case String(s) => QuoteDecodes(s);
      case Array(items) => if items != [] { ItemsTreeValid(items); }
      case Object(fs) => if fs != [] { MembersTreeValid(fs, {}); }
      case _ =>
    }
  }

  lemma {:induction false} ItemsTreeValid(items: seq<Datum>)
    requires items != [] && forall i :: 0 <= i < |items| ==> WellFormed(items[i])
    ensures G.ValidItems(ItemsTree(items)) && G.UnrepeatedItems(ItemsTree(items))
    decreases items, 0
  {
    hide Tree, G.Valid, G.Unrepeated;
    TreeValid(items[0]);
    if |items| > 1 { ItemsTreeValid(items[1..]); }
  }

  lemma {:induction false} MembersTreeValid(fs: seq<Field>, names: set<Text>)
    requires fs != [] && DistinctNames(fs) && forall i :: 0 <= i < |fs| ==> WellFormed(fs[i].value)
    requires forall i :: 0 <= i < |fs| ==> fs[i].name !in names
    ensures G.ValidMembers(MembersTree(fs)) && G.UnrepeatedMembers(MembersTree(fs), names)
    decreases fs, 1
  {
    hide Tree, G.Valid, G.Unrepeated, Quote, G.DecodeParts, WellFormed;
    TreeValid(fs[0].value);
    QuoteDecodes(fs[0].name);
    assert G.ValidMember(MemberTree(fs[0]));
    if |fs| > 1 { MembersTreeValid(fs[1..], names + {fs[0].name}); }
  }

  // ---- its text ----

  lemma Nothing(a: Text)
    ensures [] + a == a && a + [] == a
  {}

  /** The text of some data without white space. */
  ghost function Spelled(d: Datum): Text { G.Print(Tree(d)) }

  /** The items with their commas, then the closing bracket. */
  ghost function SpelledItems(items: seq<Datum>): Text {
    if items == [] then [G.RBRACKET] else G.PrintItems(ItemsTree(items))
  }

  ghost function SpelledMembers(fs: seq<Field>): Text {
    if fs == [] then [G.RBRACE] else G.PrintMembers(MembersTree(fs))
  }

  lemma SpelledContainers(items: seq<Datum>, fs: seq<Field>)
    ensures Spelled(Array(items)) == [G.LBRACKET] + SpelledItems(items)
    ensures Spelled(Object(fs)) == [G.LBRACE] + SpelledMembers(fs)
  {
    hide ItemsTree, MembersTree, G.PrintItems, G.PrintMembers;
    Nothing([G.RBRACKET]);
    Nothing([G.RBRACE]);
  }

  lemma SpelledScalars(b: bool, t: Text, s: Text)
    ensures Spelled(Null) == G.NULL && Spelled(Bool(b)) == if b then G.TRUE else G.FALSE
    ensures Spelled(Number(t)) == t && Spelled(String(s)) == Quoted(s)
  {
    hide Quote, NumOf;
  }

  lemma ItemsSpelled(items: seq<Datum>)
    requires items != []
    ensures SpelledItems(items) ==
      Spelled(items[0]) + ((if |items| == 1 then [] else [G.COMMA]) + SpelledItems(items[1..]))
  {
    hide Tree, G.Print;
    var tail := (if |items| == 1 then [] else [G.COMMA]) + SpelledItems(items[1..]);
    Nothing([G.RBRACKET]);
    Nothing(tail);
    Nothing(Spelled(items[0]) + tail);
    if |items| > 1 { assert G.PrintItems(ItemsTree(items)) == [] + (Spelled(items[0]) + ([] + tail)); }
  }

  lemma MembersSpelled(fs: seq<Field>)
    requires fs != []
    ensures SpelledMembers(fs) == Quoted(fs[0].name) + ([G.COLON] + Spelled(fs[0].value)) +
      ((if |fs| == 1 then [] else [G.COMMA]) + SpelledMembers(fs[1..]))
  {
    hide Tree, G.Print, Quote, G.PrintString;
    var f := fs[0];
    var q, t := Quoted(f.name), Spelled(f.value);
    Nothing([G.RBRACE]);
    Nothing(t);
    Nothing([G.COLON] + t);
    Nothing(q + ([G.COLON] + t));
    assert G.PrintMember(MemberTree(f)) == q + ([G.COLON] + t);
  }

  // ---- reading ----

  ghost predicate DocumentOf(doc: G.Document, t: Text) {
    G.ValidDocument(doc) && G.Unrepeated(doc.value) && G.PrintDocument(doc) == t
  }

  /** The text is JSON without repeated names, and what it says is `d`. */
  ghost predicate Says(t: Text, d: Datum) {
    && (exists doc: G.Document :: DocumentOf(doc, t))
    && forall doc: G.Document :: DocumentOf(doc, t) ==> Read(doc.value) == d
  }

  lemma SameDocument(a: G.Document, b: G.Document, t: Text)
    requires DocumentOf(a, t) && DocumentOf(b, t)
    ensures a == b
  {
    hide G.ValidDocument, G.Unrepeated, G.PrintDocument, G.Depth, JsonParser.DocumentAt;
    var limit := Max(G.Depth(a.value), G.Depth(b.value));
    JsonCompleteness.DocumentComplete(a, limit);
    JsonCompleteness.DocumentComplete(b, limit);
  }

  lemma SpelledSays(d: Datum)
    requires WellFormed(d)
    ensures Says(Spelled(d), d)
  {
    hide Tree, Read, G.Valid, G.Unrepeated, G.Print, WellFormed;
    TreeValid(d);
    TreeReads(d);
    Nothing(Spelled(d));
    var doc := G.Document([], Tree(d), []);
    assert DocumentOf(doc, Spelled(d));
    forall other: G.Document | DocumentOf(other, Spelled(d)) ensures Read(other.value) == d {
      SameDocument(doc, other, Spelled(d));
    }
  }

  /** A text says one thing. */
  lemma SaysOneThing(t: Text, d: Datum, e: Datum)
    requires Says(t, d) && Says(t, e)
    ensures d == e
  {
    var doc: G.Document :| DocumentOf(doc, t);
  }
}
