/** The ledger's canonical printer: object members are sorted by name before they are printed. */
module StableJson {
  import opened Units
  import opened Decimal
  import opened JsonQuote
  import opened Sorting
  import opened StableSorting
  import G = JsonGrammar
  import D = JsonDatum

  type SafeInt = n: int | -MAX_SAFE_INTEGER <= n <= MAX_SAFE_INTEGER

  datatype Json =
    | Null
    | Bool(b: bool)
    | Integer(n: SafeInt)
    | Str(s: Text)
    | Arr(items: seq<Json>)
    | Obj(entries: seq<Entry>)

  datatype Entry = Entry(key: Text, value: Json)

  ghost predicate DistinctKeys(es: seq<Entry>) { forall i, j :: 0 <= i < j < |es| ==> es[i].key != es[j].key }

  /** Objects have distinct member names, at every level. */
  ghost predicate WellFormed(v: Json) {
    match v
    case Arr(items) => forall i :: 0 <= i < |items| ==> WellFormed(items[i])
    case Obj(es) => DistinctKeys(es) && forall i :: 0 <= i < |es| ==> WellFormed(es[i].value)
    case _ => true
  }

  // ---- the printer ----

  /** How the host collates names: `localeCompare(a, b)` is the sign of `rank(a) - rank(b)`. */
  type Collation = Text -> real

  function ByKey(rank: Collation): (Entry, Entry) -> bool { (a: Entry, b: Entry) => rank(a.key) <= rank(b.key) }

  /** The value with the members of every object sorted. */
  function Canon(v: Json, rank: Collation): Json
    decreases v
  {
    match v
    case Arr(items) => Arr(seq(|items|, i requires 0 <= i < |items| => Canon(items[i], rank)))
    case Obj(es) =>
      Obj(Sort(seq(|es|, i requires 0 <= i < |es| => Entry(es[i].key, Canon(es[i].value, rank))), ByKey(rank)))
    case _ => v
  }

  function IntegerText(n: SafeInt): Text { if n < 0 then [G.MINUS] + Digits(-n) else Digits(n) }

  function TextOf(v: Json): Text
    decreases v, 0
  {
    match v
    case Null => G.NULL
    case Bool(b) => if b then G.TRUE else G.FALSE
    case Integer(n) => IntegerText(n)
    case Str(s) => Quoted(s)
    case Arr(items) => [G.LBRACKET] + (if items == [] then [G.RBRACKET] else ItemsText(items))
    case Obj(es) => [G.LBRACE] + (if es == [] then [G.RBRACE] else EntriesText(es))
  }

  /** The items joined by commas, then the closing bracket. */
  function ItemsText(items: seq<Json>): Text
    requires items != []
    decreases items, 0
  {
    TextOf(items[0]) + (if |items| == 1 then [G.RBRACKET] else [G.COMMA] + ItemsText(items[1..]))
  }

  function EntriesText(es: seq<Entry>): Text
    requires es != []
    decreases es, 0
  {
    Quoted(es[0].key) + ([G.COLON] + (TextOf(es[0].value) +
      (if |es| == 1 then [G.RBRACE] else [G.COMMA] + EntriesText(es[1..]))))
  }

  function StableText(v: Json, rank: Collation): Text { TextOf(Canon(v, rank)) }

  // ---- equality up to member order ----

  ghost predicate Same(v: Json, w: Json)
    decreases v
  {
    match (v, w)
    case (Arr(xs), Arr(ys)) => |xs| == |ys| && forall i :: 0 <= i < |xs| ==> Same(xs[i], ys[i])
    case (Obj(es), Obj(fs)) => |es| == |fs| && forall i :: 0 <= i < |es| ==> SameIn(es[i], fs)
    case (_, _) => v == w
  }

  /** Some member of `fs` has this name and the same value. */
  ghost predicate SameIn(e: Entry, fs: seq<Entry>)
    decreases e, 0
  {
    exists j :: 0 <= j < |fs| && fs[j].key == e.key && Same(e.value, fs[j].value)
  }

  // ---- the printed text has one reading ----

  /** What a value says, its members in the order they come. */
  function DatumOf(v: Json): D.Datum
    decreases v, 0
  {
    match v
    case Null => D.Null
    case Bool(b) => D.Bool(b)
    case Integer(n) => D.Number(IntegerText(n))
    case Str(s) => D.String(s)
    case Arr(items) => D.Array(DataOf(items))
    case Obj(es) => D.Object(FieldsOf(es))
  }

  function DataOf(items: seq<Json>): seq<D.Datum>
    decreases items, 0
  {
    if items == [] then [] else [DatumOf(items[0])] + DataOf(items[1..])
  }

  function FieldsOf(es: seq<Entry>): seq<D.Field>
    decreases es, 1
  {
    if es == [] then [] else [FieldOf(es[0])] + FieldsOf(es[1..])
  }

  function FieldOf(e: Entry): D.Field
    decreases e, 0
  {
    D.Field(e.key, DatumOf(e.value))
  }

  lemma Assoc(a: Text, b: Text, c: Text)
    ensures (a + b) + c == a + (b + c)
  {}

  lemma {:induction false} TextIsSpelled(v: Json)
    ensures TextOf(v) == D.Spelled(DatumOf(v))
    decreases v, 0
  {
    hide Digits, Quoted, ItemsText, EntriesText, D.Spelled, DataOf, FieldsOf;
    match v {
      case Null => D.SpelledScalars(false, [], []);
      case Bool(b) => D.SpelledScalars(b, [], []);
      case Integer(n) => D.SpelledScalars(false, IntegerText(n), []);
      case Str(s) => D.SpelledScalars(false, [], s);
      case Arr(items) =>
        D.SpelledContainers(DataOf(items), []);
        NothingSpelled();
        if items != [] { ItemsSpelled(items); }
      case Obj(es) =>
        D.SpelledContainers([], FieldsOf(es));
        NothingSpelled();
        if es != [] { EntriesSpelled(es); }
    }
  }

  lemma NothingSpelled()
    ensures D.SpelledItems(DataOf([])) == [G.RBRACKET] && D.SpelledMembers(FieldsOf([])) == [G.RBRACE]
  {}

  lemma {:induction false} ItemsSpelled(items: seq<Json>)
    requires items != []
    ensures ItemsText(items) == D.SpelledItems(DataOf(items))
    decreases items, 0
  {
    hide TextOf, D.Spelled, D.SpelledItems, DatumOf;
    TextIsSpelled(items[0]);
    var ds := DataOf(items);
    D.ItemsSpelled(ds);
    assert ds[1..] == DataOf(items[1..]);
    if |items| > 1 { ItemsSpelled(items[1..]); } else { NothingSpelled(); }
  }

  lemma {:induction false} EntriesSpelled(es: seq<Entry>)
    requires es != []
    ensures EntriesText(es) == D.SpelledMembers(FieldsOf(es))
    decreases es, 1
  {
    hide TextOf, D.Spelled, D.SpelledMembers, DatumOf, Quoted;
    var e, fs := es[0], FieldsOf(es);
    TextIsSpelled(e.value);
    D.MembersSpelled(fs);
    assert fs[1..] == FieldsOf(es[1..]) && fs[0] == FieldOf(e);
    if |es| > 1 { EntriesSpelled(es[1..]); } else { NothingSpelled(); }
    var q, t, tail := Quoted(e.key), TextOf(e.value), (if |es| == 1 then [] else [G.COMMA]) + D.SpelledMembers(fs[1..]);
    Assoc(q, [G.COLON] + t, tail);
    Assoc([G.COLON], t, tail);
  }

  /** The numeral of an integer: digits without leading zero, behind a minus sign for a negative one. */
  ghost predicate Writes(t: Text, n: int) {
    if n < 0 then |t| > 1 && t[0] == G.MINUS && WritesNat(t[1..], -n) else WritesNat(t, n)
  }

  ghost predicate WritesNat(t: Text, n: nat) { Canonical(t) && NumberOf(t) == n }

  lemma IntegerWrites(n: SafeInt)
    ensures Writes(IntegerText(n), n)
  {
    DigitsCanonical(if n < 0 then -n else n);
    if n < 0 { assert IntegerText(n)[1..] == Digits(-n); }
  }

  lemma IntegerIsNumeral(n: SafeInt)
    ensures D.IsNumeral(IntegerText(n))
  {
    var digits := Digits(if n < 0 then -n else n);
    DigitsCanonical(if n < 0 then -n else n);
    var num := G.Num(if n < 0 then [G.MINUS] else [], digits, [], []);
    assert G.ValidNum(num) && G.PrintNum(num) == IntegerText(n);
  }

  lemma {:induction false} DatumWellFormed(v: Json)
    requires WellFormed(v)
    ensures D.WellFormed(DatumOf(v))
    decreases v, 0
  {
    hide DataOf, FieldsOf, D.IsNumeral, Digits;
    match v {
      case Integer(n) => IntegerIsNumeral(n);
      case Arr(items) =>
        DataAre(items);
        forall i | 0 <= i < |items| ensures D.WellFormed(DatumOf(items[i])) { DatumWellFormed(items[i]); }
      case Obj(es) =>
        FieldsAre(es);
        forall i | 0 <= i < |es| ensures D.WellFormed(DatumOf(es[i].value)) { DatumWellFormed(es[i].value); }
      case _ =>
    }
  }

  lemma {:induction false} DataAre(items: seq<Json>)
    ensures |DataOf(items)| == |items| && forall i :: 0 <= i < |items| ==> DataOf(items)[i] == DatumOf(items[i])
    decreases |items|
  {
    hide DatumOf;
    if items != [] { DataAre(items[1..]); }
  }

  lemma {:induction false} FieldsAre(es: seq<Entry>)
    ensures |FieldsOf(es)| == |es|
    ensures forall i :: 0 <= i < |es| ==> FieldsOf(es)[i] == D.Field(es[i].key, DatumOf(es[i].value))
    decreases |es|
  {
    hide DatumOf;
    if es != [] { FieldsAre(es[1..]); }
  }

  lemma {:induction false} DatumInjective(v: Json, w: Json)
    requires DatumOf(v) == DatumOf(w)
    ensures v == w
    decreases v, 0
  {
    hide Digits, DataOf, FieldsOf;
    match v {
      case Integer(n) =>
        IntegerWrites(n);
        IntegerWrites(w.n);
      case Arr(items) =>
        DataAre(items);
        DataAre(w.items);
        forall i | 0 <= i < |items| ensures items[i] == w.items[i] { DatumInjective(items[i], w.items[i]); }
      case Obj(es) =>
        FieldsAre(es);
        FieldsAre(w.entries);
        forall i | 0 <= i < |es| ensures es[i] == w.entries[i] { DatumInjective(es[i].value, w.entries[i].value); }
      case _ =>
    }
  }

  /** The printed text is JSON, and what it says is the value. */
  lemma ReadsBack(v: Json)
    requires WellFormed(v)
    ensures D.Says(TextOf(v), DatumOf(v))
  {
    hide D.Says, TextOf, DatumOf, D.Spelled, WellFormed, D.WellFormed;
    DatumWellFormed(v);
    TextIsSpelled(v);
    D.SpelledSays(DatumOf(v));
  }

  /** Different values print different texts. */
  lemma TextInjective(v: Json, w: Json)
    requires WellFormed(v) && WellFormed(w) && TextOf(v) == TextOf(w)
    ensures v == w
  {
    hide TextOf, DatumOf, D.Says;
    ReadsBack(v);
    ReadsBack(w);
    D.SaysOneThing(TextOf(v), DatumOf(v), DatumOf(w));
    DatumInjective(v, w);
  }

  // ---- sorting forgets exactly the member order ----

  ghost predicate KeysApart(es: seq<Entry>, rank: Collation) {
    forall i, j :: 0 <= i < j < |es| ==> rank(es[i].key) != rank(es[j].key)
  }

  /** No object inside the value has two members whose names collate equal. */
  ghost predicate NoTies(v: Json, rank: Collation) {
    match v
    case Arr(items) => forall i :: 0 <= i < |items| ==> NoTies(items[i], rank)
    case Obj(es) => KeysApart(es, rank) && forall i :: 0 <= i < |es| ==> NoTies(es[i].value, rank)
    case _ => true
  }

  /** The entries of an object with their values made canonical, in the order they came. */
  function Pairs(es: seq<Entry>, rank: Collation): seq<Entry> {
    seq(|es|, i requires 0 <= i < |es| => Entry(es[i].key, Canon(es[i].value, rank)))
  }

  lemma CanonObj(es: seq<Entry>, rank: Collation)
    ensures Canon(Obj(es), rank) == Obj(Sort(Pairs(es, rank), ByKey(rank)))
  {
    var inline := seq(|es|, i requires 0 <= i < |es| => Entry(es[i].key, Canon(es[i].value, rank)));
    assert inline == Pairs(es, rank);
  }

  lemma KeysDistinct(es: seq<Entry>)
    requires DistinctKeys(es)
    ensures Distinct(es)
  {}

  lemma {:induction false} CanonWellFormed(v: Json, rank: Collation)
    requires WellFormed(v)
    ensures WellFormed(Canon(v, rank))
    decreases v
  {
    match v {
      case Arr(items) =>
        forall i | 0 <= i < |items| ensures WellFormed(Canon(items[i], rank)) { CanonWellFormed(items[i], rank); }
      case Obj(es) =>
        forall i | 0 <= i < |es| ensures WellFormed(Canon(es[i].value, rank)) { CanonWellFormed(es[i].value, rank); }
        CanonObj(es, rank);
        SortedPairs(Pairs(es, rank), ByKey(rank));
      case _ =>
    }
  }

  lemma SortedPairs(ps: seq<Entry>, le: (Entry, Entry) -> bool)
    requires DistinctKeys(ps) && forall i :: 0 <= i < |ps| ==> WellFormed(ps[i].value)
    ensures WellFormed(Obj(Sort(ps, le)))
  {
    hide Sort;
    var s := Sort(ps, le);
    SortPermutes(ps, le);
    MembersByMultiset(s, ps);
    KeysDistinct(ps);
    DistinctPermutes(s, ps);
    forall i | 0 <= i < |s| ensures WellFormed(s[i].value) { assert s[i] in ps; }
    forall i, j | 0 <= i < j < |s| ensures s[i].key != s[j].key {
      assert s[i] in ps && s[j] in ps && s[i] != s[j];
    }
  }

  /** Values equal up to member order have one canonical form. */
  lemma {:induction false} SameCanon(v: Json, w: Json, rank: Collation)
    requires WellFormed(v) && WellFormed(w) && Same(v, w) && NoTies(v, rank)
    ensures Canon(v, rank) == Canon(w, rank)
    decreases v
  {
    match v {
      case Arr(xs) =>
        var ys := w.items;
        forall i | 0 <= i < |xs| ensures Canon(xs[i], rank) == Canon(ys[i], rank) { SameCanon(xs[i], ys[i], rank); }
      case Obj(es) =>
        var fs := w.entries;
        var ps, qs := Pairs(es, rank), Pairs(fs, rank);
        forall i | 0 <= i < |ps| ensures ps[i] in qs {
          assert SameIn(es[i], fs);
          var j :| 0 <= j < |fs| && fs[j].key == es[i].key && Same(es[i].value, fs[j].value);
          SameCanon(es[i].value, fs[j].value, rank);
          assert qs[j] == ps[i];
        }
        CanonObj(es, rank);
        CanonObj(fs, rank);
        SortedAlike(ps, qs, rank);
      case _ =>
    }
  }

  lemma SortedAlike(ps: seq<Entry>, qs: seq<Entry>, rank: Collation)
    requires DistinctKeys(ps) && DistinctKeys(qs) && |ps| == |qs| && KeysApart(ps, rank)
    requires forall i :: 0 <= i < |ps| ==> ps[i] in qs
    ensures Sort(ps, ByKey(rank)) == Sort(qs, ByKey(rank))
  {
    hide Sort;
    KeysDistinct(ps);
    KeysDistinct(qs);
    Rearranged(ps, qs);
    var le := ByKey(rank);
    assert Antisymmetric(ps, le) by {
      forall i, j | 0 <= i < |ps| && 0 <= j < |ps| && le(ps[i], ps[j]) && le(ps[j], ps[i]) ensures ps[i] == ps[j] {
        assert rank(ps[i].key) == rank(ps[j].key);
      }
    }
    SortForgetsOrder(ps, qs, le);
  }

  /** Whatever the collation, one canonical form means equal up to member order. */
  lemma {:induction false} CanonSame(v: Json, w: Json, rank: Collation)
    requires Canon(v, rank) == Canon(w, rank)
    ensures Same(v, w)
    decreases v
  {
    match v {
      case Arr(xs) =>
        var ys := w.items;
        var c := Canon(v, rank).items;
        assert |xs| == |c| == |ys|;
        forall i | 0 <= i < |xs| ensures Same(xs[i], ys[i]) {
          assert c[i] == Canon(xs[i], rank) == Canon(ys[i], rank);
          CanonSame(xs[i], ys[i], rank);
        }
      case Obj(es) =>
        var fs := w.entries;
        var ps, qs := Pairs(es, rank), Pairs(fs, rank);
        CanonObj(es, rank);
        CanonObj(fs, rank);
        SortPermutes(ps, ByKey(rank));
        SortPermutes(qs, ByKey(rank));
        MembersByMultiset(ps, qs);
        forall i | 0 <= i < |es| ensures SameIn(es[i], fs) {
          assert ps[i] in qs;
          var j :| 0 <= j < |qs| && qs[j] == ps[i];
          CanonSame(es[i].value, fs[j].value, rank);
        }
      case _ =>
    }
  }

  /** Values print alike only if they are equal up to member order, and then always if one of them has no tied names. */
  lemma PrintsAlikeIffSame(v: Json, w: Json, rank: Collation)
    requires WellFormed(v) && WellFormed(w)
    ensures StableText(v, rank) == StableText(w, rank) ==> Same(v, w)
    ensures NoTies(v, rank) ==> (StableText(v, rank) == StableText(w, rank) <==> Same(v, w))
  {
    hide TextOf, Canon, WellFormed, Same, NoTies;
    CanonWellFormed(v, rank);
    CanonWellFormed(w, rank);
    if StableText(v, rank) == StableText(w, rank) {
      TextInjective(Canon(v, rank), Canon(w, rank));
      CanonSame(v, w, rank);
    }
    if NoTies(v, rank) && Same(v, w) {
      SameCanon(v, w, rank);
    }
  }

  /** The text of a value hides the order of its members exactly when no object inside it has tied names. */
  lemma OrderHiddenIffNoTies(v: Json, rank: Collation)
    requires WellFormed(v)
    ensures (forall w :: WellFormed(w) && Same(v, w) ==> StableText(v, rank) == StableText(w, rank)) <==>
      NoTies(v, rank)
  {
    hide TextOf, Canon, WellFormed, Same, NoTies;
    if NoTies(v, rank) {
      forall w | WellFormed(w) && Same(v, w) ensures StableText(v, rank) == StableText(w, rank) {
        PrintsAlikeIffSame(v, w, rank);
      }
    } else {
      var w := TieShows(v, rank);
      CanonWellFormed(v, rank);
      CanonWellFormed(w, rank);
      if StableText(v, rank) == StableText(w, rank) {
        TextInjective(Canon(v, rank), Canon(w, rank));
      }
    }
  }

  // ---- a tie shows ----

  lemma {:induction false} SameAsItself(v: Json)
    ensures Same(v, v)
    decreases v
  {
    match v {
      case Arr(items) =>
        forall i | 0 <= i < |items| ensures Same(items[i], items[i]) { SameAsItself(items[i]); }
      case Obj(es) =>
        forall i | 0 <= i < |es| ensures SameIn(es[i], es) { SameAsItself(es[i].value); }
      case _ =>
    }
  }

  lemma NamesOrdered(rank: Collation)
    ensures Preorder(ByKey(rank))
  {}

  lemma PairsSwapped(es: seq<Entry>, i: nat, j: nat, rank: Collation)
    requires i < j < |es|
    ensures Pairs(Swapped(es, i, j), rank) == Swapped(Pairs(es, rank), i, j)
  {}

  lemma SwapIsSame(es: seq<Entry>, i: nat, j: nat)
    requires i < j < |es| && WellFormed(Obj(es))
    ensures WellFormed(Obj(Swapped(es, i, j))) && Same(Obj(es), Obj(Swapped(es, i, j)))
  {
    var fs := Swapped(es, i, j);
    assert forall k :: 0 <= k < |es| ==> fs[k] == es[if k == i then j else if k == j then i else k];
    forall k | 0 <= k < |es| ensures SameIn(es[k], fs) {
      var m := if k == i then j else if k == j then i else k;
      SameAsItself(es[k].value);
      assert fs[m] == es[k];
    }
  }

  lemma ChangeIsSame(es: seq<Entry>, i: nat, x: Json)
    requires i < |es| && WellFormed(Obj(es)) && WellFormed(x) && Same(es[i].value, x)
    ensures WellFormed(Obj(es[i := Entry(es[i].key, x)])) && Same(Obj(es), Obj(es[i := Entry(es[i].key, x)]))
  {
    var fs := es[i := Entry(es[i].key, x)];
    forall k | 0 <= k < |es| ensures SameIn(es[k], fs) {
      if k != i { SameAsItself(es[k].value); }
      assert fs[k].key == es[k].key;
    }
  }

  /** A member whose value changes shows after sorting. */
  lemma ChangeShows(es: seq<Entry>, i: nat, x: Json, rank: Collation)
    requires i < |es| && DistinctKeys(es) && Canon(es[i].value, rank) != Canon(x, rank)
    ensures Canon(Obj(es), rank) != Canon(Obj(es[i := Entry(es[i].key, x)]), rank)
  {
    hide Sort, Canon;
    var fs := es[i := Entry(es[i].key, x)];
    var ps, qs := Pairs(es, rank), Pairs(fs, rank);
    CanonObj(es, rank);
    CanonObj(fs, rank);
    SortPermutes(ps, ByKey(rank));
    SortPermutes(qs, ByKey(rank));
    forall k | 0 <= k < |ps| ensures ps[k] != qs[i] {
      assert k != i ==> es[k].key != es[i].key;
    }
    assert qs[i] in multiset(qs) && qs[i] !in multiset(ps);
  }

  /** From a value with tied names, one equal up to member order that has another canonical form. */
  lemma {:induction false} TieShows(v: Json, rank: Collation) returns (w: Json)
    requires WellFormed(v) && !NoTies(v, rank)
    ensures WellFormed(w) && Same(v, w) && Canon(v, rank) != Canon(w, rank)
    decreases v
  {
    match v {
      case Arr(items) =>
        var i :| 0 <= i < |items| && !NoTies(items[i], rank);
        var x := TieShows(items[i], rank);
        w := Arr(items[i := x]);
        ItemShows(items, i, x, rank);
      case Obj(es) =>
        if i :| 0 <= i < |es| && !NoTies(es[i].value, rank) {
          var x := TieShows(es[i].value, rank);
          w := Obj(es[i := Entry(es[i].key, x)]);
          ChangeIsSame(es, i, x);
          ChangeShows(es, i, x, rank);
        } else {
          var i, j :| 0 <= i < j < |es| && rank(es[i].key) == rank(es[j].key);
          w := Obj(Swapped(es, i, j));
          SwapIsSame(es, i, j);
          TiedSwapShows(es, i, j, rank);
        }
    }
  }

  lemma TiedSwapShows(es: seq<Entry>, i: nat, j: nat, rank: Collation)
    requires i < j < |es| && es[i].key != es[j].key && rank(es[i].key) == rank(es[j].key)
    ensures Canon(Obj(es), rank) != Canon(Obj(Swapped(es, i, j)), rank)
  {
    hide Sort, Canon;
    CanonObj(es, rank);
    CanonObj(Swapped(es, i, j), rank);
    PairsSwapped(es, i, j, rank);
    NamesOrdered(rank);
    SwapShows(Pairs(es, rank), i, j, ByKey(rank));
  }

  lemma ItemShows(items: seq<Json>, i: nat, x: Json, rank: Collation)
    requires i < |items| && WellFormed(Arr(items)) && WellFormed(x) && Same(items[i], x)
      && Canon(items[i], rank) != Canon(x, rank)
    ensures var w := Arr(items[i := x]);
      WellFormed(w) && Same(Arr(items), w) && Canon(Arr(items), rank) != Canon(w, rank)
  {
    var ys := items[i := x];
    forall k | 0 <= k < |items| ensures Same(items[k], ys[k]) {
      if k != i { SameAsItself(items[k]); }
    }
    assert Canon(Arr(items), rank).items[i] == Canon(items[i], rank);
    assert Canon(Arr(ys), rank).items[i] == Canon(ys[i], rank);
  }

  // ---- what the sorted text says ----

  ghost predicate NamesSorted(fs: seq<D.Field>, rank: Collation) {
    forall i, j :: 0 <= i < j < |fs| ==> rank(fs[i].name) <= rank(fs[j].name)
  }

  /** The data are the value's, with the members of every object in collation order. */
  ghost predicate Denotes(d: D.Datum, v: Json, rank: Collation)
    decreases v
  {
    match v
    case Null => d == D.Null
    case Bool(b) => d == D.Bool(b)
    case Integer(n) => d.Number? && Writes(d.text, n)
    case Str(s) => d == D.String(s)
    case Arr(items) =>
      d.Array? && |d.items| == |items| && forall i :: 0 <= i < |items| ==> Denotes(d.items[i], items[i], rank)
    case Obj(es) =>
      && d.Object? && |d.fields| == |es| && NamesSorted(d.fields, rank)
      && forall i :: 0 <= i < |es| ==> FieldFor(d.fields, es[i], rank)
  }

  /** Some field has the entry's name and its value. */
  ghost predicate FieldFor(fs: seq<D.Field>, e: Entry, rank: Collation)
    decreases e, 0
  {
    exists j :: 0 <= j < |fs| && fs[j].name == e.key && Denotes(fs[j].value, e.value, rank)
  }

  lemma {:induction false} CanonDenotes(v: Json, rank: Collation)
    ensures Denotes(DatumOf(Canon(v, rank)), v, rank)
    decreases v
  {
    hide DataOf, FieldsOf, Digits, Writes;
    match v {
      case Integer(n) => IntegerWrites(n);
      case Arr(items) =>
        DataAre(Canon(v, rank).items);
        forall i | 0 <= i < |items| ensures Denotes(DatumOf(Canon(items[i], rank)), items[i], rank) {
          CanonDenotes(items[i], rank);
        }
      case Obj(es) =>
        forall i | 0 <= i < |es| ensures Denotes(DatumOf(Canon(es[i].value, rank)), es[i].value, rank) {
          CanonDenotes(es[i].value, rank);
        }
        EntriesDenote(es, rank);
      case _ =>
    }
  }

  lemma EntriesDenote(es: seq<Entry>, rank: Collation)
    requires forall i :: 0 <= i < |es| ==> Denotes(DatumOf(Canon(es[i].value, rank)), es[i].value, rank)
    ensures Denotes(DatumOf(Canon(Obj(es), rank)), Obj(es), rank)
  {
    hide DataOf, FieldsOf, Sort, Canon, DatumOf, Preorder;
    var ps := Pairs(es, rank);
    var sorted := Sort(ps, ByKey(rank));
    var fs := FieldsOf(sorted);
    CanonObj(es, rank);
    NamesOrdered(rank);
    SortSorts(ps, ByKey(rank));
    MembersByMultiset(ps, sorted);
    FieldsAre(sorted);
    assert DatumOf(Obj(sorted)) == D.Object(fs) by { ObjectDatum(sorted); }
    forall i, j | 0 <= i < j < |fs| ensures rank(fs[i].name) <= rank(fs[j].name) {
      assert ByKey(rank)(sorted[i], sorted[j]);
    }
    forall i | 0 <= i < |es| ensures FieldFor(fs, es[i], rank) {
      assert ps[i] in sorted;
      var j :| 0 <= j < |sorted| && sorted[j] == ps[i];
      assert fs[j].name == es[i].key && fs[j].value == DatumOf(Canon(es[i].value, rank));
    }
  }

  lemma ObjectDatum(es: seq<Entry>)
    ensures DatumOf(Obj(es)) == D.Object(FieldsOf(es))
  {}

  /** The stable text is JSON that says the value with the members of every object in collation order. */
  lemma StableTextSays(v: Json, rank: Collation)
    requires WellFormed(v)
    ensures exists d :: D.Says(StableText(v, rank), d) && Denotes(d, v, rank)
  {
    hide Canon, TextOf, DatumOf, D.Says, Denotes, WellFormed;
    CanonWellFormed(v, rank);
    ReadsBack(Canon(v, rank));
    CanonDenotes(v, rank);
  }

  /** Two names that collate equal are printed in the order they came. */
  lemma TiedNamesKeepTheirOrder(a: Text, b: Text, rank: Collation)
    requires rank(a) == rank(b) && a != b
    ensures var v, w := Obj([Entry(a, Null), Entry(b, Null)]), Obj([Entry(b, Null), Entry(a, Null)]);
            WellFormed(v) && WellFormed(w) && Same(v, w) && StableText(v, rank) != StableText(w, rank)
  {
    hide TextOf, Canon, Same;
    var es, fs := [Entry(a, Null), Entry(b, Null)], [Entry(b, Null), Entry(a, Null)];
    assert Swapped(es, 0, 1) == fs;
    SwapIsSame(es, 0, 1);
    TiedSwapShows(es, 0, 1, rank);
    CanonWellFormed(Obj(es), rank);
    CanonWellFormed(Obj(fs), rank);
    if StableText(Obj(es), rank) == StableText(Obj(fs), rank) {
      TextInjective(Canon(Obj(es), rank), Canon(Obj(fs), rank));
    }
  }
}
