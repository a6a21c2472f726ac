/** Values as host objects hold them: array-index names come first, in ascending order, whatever order they came in. */
module HostJson {
  import opened Units
  import opened Decimal
  import opened Seqs
  import opened Sorting
  import opened StableSorting
  import opened StableJson

  /** A name that is the canonical spelling of an array index (section 6.1.7 of ECMA-262). */
  predicate IsIndex(name: Text) { Canonical(name) && NumberOf(name) < 0xffff_ffff }

  /** Index names before the others, and among themselves by number. */
  predicate NotBehind(a: Entry, b: Entry) {
    if IsIndex(a.key) then IsIndex(b.key) ==> NumberOf(a.key) <= NumberOf(b.key) else !IsIndex(b.key)
  }

  function ByHost(): (Entry, Entry) -> bool { (a, b) => NotBehind(a, b) }

  /** Every object inside the value lists its members as a host object does. */
  ghost predicate HostOrdered(v: Json) {
    match v
    case Arr(items) => forall i :: 0 <= i < |items| ==> HostOrdered(items[i])
    case Obj(es) => Sorted(es, ByHost()) && forall i :: 0 <= i < |es| ==> HostOrdered(es[i].value)
    case _ => true
  }

  /** Two names that collate equal, neither of them an index, so that the host leaves their order open. */
  predicate FreeTie(a: Entry, b: Entry, rank: Collation) {
    !IsIndex(a.key) && !IsIndex(b.key) && rank(a.key) == rank(b.key)
  }

  ghost predicate NoFreeTie(es: seq<Entry>, rank: Collation) {
    forall i, j :: 0 <= i < j < |es| ==> !FreeTie(es[i], es[j], rank)
  }

  ghost predicate NoFreeTies(v: Json, rank: Collation) {
    match v
    case Arr(items) => forall i :: 0 <= i < |items| ==> NoFreeTies(items[i], rank)
    case Obj(es) => NoFreeTie(es, rank) && forall i :: 0 <= i < |es| ==> NoFreeTies(es[i].value, rank)
    case _ => true
  }

  lemma HostOrders()
    ensures Preorder(ByHost())
  {
    hide Canonical, NumberOf;
  }

  lemma IndexIsItsNumber(a: Text, b: Text)
    requires IsIndex(a) && IsIndex(b) && NumberOf(a) == NumberOf(b)
    ensures a == b
  {
    CanonicalIsDigits(a);
    CanonicalIsDigits(b);
  }

  // ---- without free ties the order is hidden ----

  lemma PairsHost(es: seq<Entry>, rank: Collation)
    requires Sorted(es, ByHost())
    ensures Sorted(Pairs(es, rank), ByHost())
  {
    hide Canon, IsIndex;
    var ps := Pairs(es, rank);
    forall i, j | 0 <= i < j < |ps| ensures ByHost()(ps[i], ps[j]) { assert ByHost()(es[i], es[j]); }
  }

  /** Entries tied with `c` that the host may list in one order only. */
  lemma TiesAgree(ps: seq<Entry>, qs: seq<Entry>, rank: Collation, c: Entry)
    requires multiset(ps) == multiset(qs) && DistinctKeys(ps) && NoFreeTie(ps, rank)
    requires Sorted(ps, ByHost()) && Sorted(qs, ByHost())
    ensures AgreeOn(ps, qs, ByKey(rank), c)
  {
    hide FlatMap, IsIndex, NotBehind;
    var f := TiedWith(c, ByKey(rank));
    var a, b := FlatMap(f, ps), FlatMap(f, qs);
    KeptSorted(ps, f, ByHost());
    KeptSorted(qs, f, ByHost());
    FlatMapPermutes(f, ps, qs);
    HostOrders();
    forall i, j | 0 <= i < |a| && 0 <= j < |a| && ByHost()(a[i], a[j]) && ByHost()(a[j], a[i]) ensures a[i] == a[j] {
      KeptMembers(ps, f, a[i]);
      KeptMembers(ps, f, a[j]);
      OnePlace(ps, rank, a[i], a[j]);
    }
    SortedIsUnique(a, b, ByHost());
  }

  /** Two tied entries that stand nowhere behind each other are one. */
  lemma OnePlace(ps: seq<Entry>, rank: Collation, x: Entry, y: Entry)
    requires DistinctKeys(ps) && NoFreeTie(ps, rank) && x in ps && y in ps && rank(x.key) == rank(y.key)
    requires NotBehind(x, y) && NotBehind(y, x)
    ensures x == y
  {
    hide Canonical, NumberOf;
    var i :| 0 <= i < |ps| && ps[i] == x;
    var j :| 0 <= j < |ps| && ps[j] == y;
    if IsIndex(x.key) {
      IndexIsItsNumber(x.key, y.key);
    } else {
      assert FreeTie(ps[i], ps[j], rank) && FreeTie(ps[j], ps[i], rank);
    }
  }

  lemma PairsNoFreeTie(es: seq<Entry>, rank: Collation)
    requires NoFreeTie(es, rank)
    ensures NoFreeTie(Pairs(es, rank), rank)
  {
    hide Canon, IsIndex;
    var ps := Pairs(es, rank);
    forall i, j | 0 <= i < j < |ps| ensures !FreeTie(ps[i], ps[j], rank) { assert !FreeTie(es[i], es[j], rank); }
  }

  lemma ObjectsAlike(es: seq<Entry>, fs: seq<Entry>, rank: Collation)
    requires DistinctKeys(es) && DistinctKeys(fs) && |es| == |fs| && NoFreeTie(es, rank)
    requires Sorted(es, ByHost()) && Sorted(fs, ByHost())
    requires forall i :: 0 <= i < |es| ==> Pairs(es, rank)[i] in Pairs(fs, rank)
    ensures Canon(Obj(es), rank) == Canon(Obj(fs), rank)
  {
    hide Sort, Canon, IsIndex, NotBehind;
    var ps, qs := Pairs(es, rank), Pairs(fs, rank);
    CanonObj(es, rank);
    CanonObj(fs, rank);
    PairsHost(es, rank);
    PairsHost(fs, rank);
    PairsNoFreeTie(es, rank);
    KeysDistinct(ps);
    KeysDistinct(qs);
    Rearranged(ps, qs);
    NamesOrdered(rank);
    forall c ensures AgreeOn(ps, qs, ByKey(rank), c) { TiesAgree(ps, qs, rank, c); }
    SortsAlike(ps, qs, ByKey(rank));
  }

  lemma {:induction false} HostSameCanon(v: Json, w: Json, rank: Collation)
    requires WellFormed(v) && WellFormed(w) && HostOrdered(v) && HostOrdered(w) && Same(v, w) && NoFreeTies(v, rank)
    ensures Canon(v, rank) == Canon(w, rank)
    decreases v
  {
    match v {
      case Arr(xs) =>
        var ys := w.items;
        forall i | 0 <= i < |xs| ensures Canon(xs[i], rank) == Canon(ys[i], rank) { HostSameCanon(xs[i], ys[i], rank); }
      case Obj(es) =>
        var fs := w.entries;
        var ps, qs := Pairs(es, rank), Pairs(fs, rank);
        forall i | 0 <= i < |ps| ensures ps[i] in qs {
          assert SameIn(es[i], fs);
          var j :| 0 <= j < |fs| && fs[j].key == es[i].key && Same(es[i].value, fs[j].value);
          HostSameCanon(es[i].value, fs[j].value, rank);
          assert qs[j] == ps[i];
        }
        ObjectsAlike(es, fs, rank);
      case _ =>
    }
  }

  /** Host values print alike only if they are equal up to member order, and exactly then if one has no free ties. */
  lemma HostPrintsAlike(v: Json, w: Json, rank: Collation)
    requires WellFormed(v) && WellFormed(w) && HostOrdered(v) && HostOrdered(w)
    ensures StableText(v, rank) == StableText(w, rank) ==> Same(v, w)
    ensures NoFreeTies(v, rank) ==> (StableText(v, rank) == StableText(w, rank) <==> Same(v, w))
  {
    hide TextOf, Canon, WellFormed, Same, NoTies, NoFreeTies, HostOrdered;
    PrintsAlikeIffSame(v, w, rank);
    if NoFreeTies(v, rank) && Same(v, w) { HostSameCanon(v, w, rank); }
  }

  // ---- a free tie shows ----

  lemma SwapKeepsOrder(es: seq<Entry>, i: nat, j: nat)
    requires i < j < |es| && Sorted(es, ByHost()) && !IsIndex(es[i].key) && !IsIndex(es[j].key)
    ensures Sorted(Swapped(es, i, j), ByHost())
  {
    hide IsIndex;
    var fs := Swapped(es, i, j);
    forall a, b | 0 <= a < b < |fs| ensures ByHost()(fs[a], fs[b]) {
      assert ByHost()(es[a], es[b]);
      if a <= i { assert a < i ==> ByHost()(es[a], es[i]) && ByHost()(es[a], es[j]); }
      assert i < b ==> ByHost()(es[i], es[b]);
      assert j < b ==> ByHost()(es[j], es[b]);
    }
  }

  lemma SwapKeepsHost(es: seq<Entry>, i: nat, j: nat)
    requires i < j < |es| && HostOrdered(Obj(es)) && !IsIndex(es[i].key) && !IsIndex(es[j].key)
    ensures HostOrdered(Obj(Swapped(es, i, j)))
  {
    hide IsIndex, Sorted;
    SwapKeepsOrder(es, i, j);
  }

  lemma ItemKeepsHost(items: seq<Json>, i: nat, x: Json)
    requires i < |items| && HostOrdered(Arr(items)) && HostOrdered(x)
    ensures HostOrdered(Arr(items[i := x]))
  {}

  lemma ChangeKeepsHost(es: seq<Entry>, i: nat, x: Json)
    requires i < |es| && HostOrdered(Obj(es)) && HostOrdered(x)
    ensures HostOrdered(Obj(es[i := Entry(es[i].key, x)]))
  {
    hide IsIndex;
    var fs := es[i := Entry(es[i].key, x)];
    forall a, b | 0 <= a < b < |fs| ensures ByHost()(fs[a], fs[b]) { assert ByHost()(es[a], es[b]); }
  }

  lemma DistinctAt(es: seq<Entry>, i: nat, j: nat)
    requires DistinctKeys(es) && i < j < |es|
    ensures es[i].key != es[j].key
  {}

  /** From a host value with a free tie, another one, equal up to member order, that has another canonical form. */
  lemma {:induction false} FreeTieShows(v: Json, rank: Collation) returns (w: Json)
    requires WellFormed(v) && HostOrdered(v) && !NoFreeTies(v, rank)
    ensures WellFormed(w) && HostOrdered(w) && Same(v, w) && Canon(v, rank) != Canon(w, rank)
    decreases v
  {
    hide IsIndex, Sorted, Same, Canon, DistinctKeys;
    match v {
      case Arr(items) =>
        var i :| 0 <= i < |items| && !NoFreeTies(items[i], rank);
        var x := FreeTieShows(items[i], rank);
        w := Arr(items[i := x]);
        ItemShows(items, i, x, rank);
        ItemKeepsHost(items, i, x);
      case Obj(es) =>
        if i :| 0 <= i < |es| && !NoFreeTies(es[i].value, rank) {
          var x := FreeTieShows(es[i].value, rank);
          w := Obj(es[i := Entry(es[i].key, x)]);
          ChangeIsSame(es, i, x);
          ChangeShows(es, i, x, rank);
          ChangeKeepsHost(es, i, x);
        } else {
          var i, j :| 0 <= i < j < |es| && FreeTie(es[i], es[j], rank);
          w := Obj(Swapped(es, i, j));
          SwapIsSame(es, i, j);
          DistinctAt(es, i, j);
          TiedSwapShows(es, i, j, rank);
          SwapKeepsHost(es, i, j);
        }
    }
  }

  /**
   Among host values, the text of a value hides the order of its members exactly when no object inside it has two names
   that collate equal and are both no array index.
   */
  lemma HostOrderHidden(v: Json, rank: Collation)
    requires WellFormed(v) && HostOrdered(v)
    ensures (forall w :: WellFormed(w) && HostOrdered(w) && Same(v, w) ==>
      StableText(v, rank) == StableText(w, rank)) <==>
      NoFreeTies(v, rank)
  {
    hide TextOf, Canon, WellFormed, Same, NoFreeTies, HostOrdered;
    if NoFreeTies(v, rank) {
      forall w | WellFormed(w) && HostOrdered(w) && Same(v, w) ensures StableText(v, rank) == StableText(w, rank) {
        HostPrintsAlike(v, w, rank);
      }
    } else {
      var w := FreeTieShows(v, rank);
      CanonWellFormed(v, rank);
      CanonWellFormed(w, rank);
      if StableText(v, rank) == StableText(w, rank) { TextInjective(Canon(v, rank), Canon(w, rank)); }
    }
  }
}
