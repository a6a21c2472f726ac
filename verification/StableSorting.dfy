/** Stability of the sort: elements that compare equal keep their order, and nothing else decides the result. */
module StableSorting {
  import opened Seqs
  import opened Sorting

  /** Keeps the elements that compare equal to `c`. */
  function TiedWith<T>(c: T, le: (T, T) -> bool): T -> seq<T> { (x: T) => if le(x, c) && le(c, x) then [x] else [] }

  lemma {:induction false} InsertKeepsTies<T(!new)>(x: T, xs: seq<T>, le: (T, T) -> bool, c: T)
    requires Preorder(le)
    ensures FlatMap(TiedWith(c, le), Insert(x, xs, le)) == FlatMap(TiedWith(c, le), xs) + TiedWith(c, le)(x)
    decreases |xs|
  {
    hide FlatMap;
    var f := TiedWith(c, le);
    if xs == [] {
      FlatMapOne(f, x);
      FlatMapNone(f);
    } else {
      var front, last := xs[..|xs| - 1], xs[|xs| - 1];
      assert xs == front + [last];
      if le(last, x) {
        FlatMapLast(f, xs, x);
      } else {
        InsertKeepsTies(x, front, le, c);
        FlatMapLast(f, Insert(x, front, le), last);
        FlatMapLast(f, front, last);
        assert f(x) == [] || f(last) == [];
      }
    }
  }

  /** Sorting keeps the order of the elements that compare equal. */
  lemma {:induction false} SortKeepsTies<T(!new)>(xs: seq<T>, le: (T, T) -> bool, c: T)
    requires Preorder(le)
    ensures FlatMap(TiedWith(c, le), Sort(xs, le)) == FlatMap(TiedWith(c, le), xs)
    decreases |xs|
  {
    hide FlatMap, Insert, Preorder;
    if xs != [] {
      var front, last := xs[..|xs| - 1], xs[|xs| - 1];
      assert xs == front + [last];
      SortKeepsTies(front, le, c);
      InsertKeepsTies(last, Sort(front, le), le, c);
      FlatMapLast(TiedWith(c, le), front, last);
    }
  }

  lemma KeptAt<T>(xs: seq<T>, i: nat, f: T -> seq<T>)
    requires i < |xs| && f(xs[i]) == [xs[i]]
    ensures var n := |FlatMap(f, xs[..i])|; n < |FlatMap(f, xs)| && FlatMap(f, xs)[n] == xs[i]
  {
    hide FlatMap;
    assert xs == (xs[..i] + [xs[i]]) + xs[i + 1..];
    FlatMapAppend(f, xs[..i] + [xs[i]], xs[i + 1..]);
    FlatMapLast(f, xs[..i], xs[i]);
  }

  // ---- exchanging two elements ----

  function Swapped<T>(xs: seq<T>, i: nat, j: nat): seq<T>
    requires i < j < |xs|
  {
    xs[i := xs[j]][j := xs[i]]
  }

  lemma SwapPermutes<T>(xs: seq<T>, i: nat, j: nat)
    requires i < j < |xs|
    ensures multiset(Swapped(xs, i, j)) == multiset(xs)
  {}

  /** Different elements that compare equal show when they change places. */
  lemma SwapShows<T(!new)>(xs: seq<T>, i: nat, j: nat, le: (T, T) -> bool)
    requires Preorder(le) && i < j < |xs| && xs[i] != xs[j] && le(xs[i], xs[j]) && le(xs[j], xs[i])
    ensures Sort(xs, le) != Sort(Swapped(xs, i, j), le)
  {
    hide FlatMap, Sort;
    var ys, f := Swapped(xs, i, j), TiedWith(xs[i], le);
    assert le(xs[i], xs[i]);
    SortKeepsTies(xs, le, xs[i]);
    SortKeepsTies(ys, le, xs[i]);
    var n := |FlatMap(f, xs[..i])|;
    assert ys[..i] == xs[..i];
    KeptAt(xs, i, f);
    KeptAt(ys, i, f);
    assert FlatMap(f, xs)[n] == xs[i] && FlatMap(f, ys)[n] == ys[i];
  }

  // ---- what a sorted list is made of ----

  lemma {:induction false} KeptMembers<T>(xs: seq<T>, f: T -> seq<T>, y: T)
    requires forall x :: f(x) == [] || f(x) == [x]
    ensures y in FlatMap(f, xs) <==> y in xs && f(y) == [y]
  {
    FlatMapMember(f, xs, y);
    if y in FlatMap(f, xs) {
      var k :| 0 <= k < |xs| && y in f(xs[k]);
      assert xs[k] == y;
    }
    if y in xs && f(y) == [y] {
      var k :| 0 <= k < |xs| && xs[k] == y;
      assert y in f(xs[k]);
    }
  }

  /** What is kept of a sorted list is sorted. */
  lemma {:induction false} KeptSorted<T(!new)>(xs: seq<T>, f: T -> seq<T>, le: (T, T) -> bool)
    requires Sorted(xs, le) && forall x :: f(x) == [] || f(x) == [x]
    ensures Sorted(FlatMap(f, xs), le)
    decreases |xs|
  {
    hide FlatMap;
    if xs == [] {
      FlatMapNone(f);
    } else {
      var front, last := xs[..|xs| - 1], xs[|xs| - 1];
      assert xs == front + [last];
      KeptSorted(front, f, le);
      FlatMapLast(f, front, last);
      var kept := FlatMap(f, front);
      forall i | 0 <= i < |kept| ensures le(kept[i], last) {
        KeptMembers(front, f, kept[i]);
        var k :| 0 <= k < |front| && front[k] == kept[i];
        assert xs[k] == kept[i];
      }
    }
  }

  /** Both lists hold the same elements that compare equal to `c`, in the same order. */
  ghost predicate AgreeOn<T>(a: seq<T>, b: seq<T>, le: (T, T) -> bool, c: T) {
    FlatMap(TiedWith(c, le), a) == FlatMap(TiedWith(c, le), b)
  }

  lemma LastIsTied<T(!new)>(a: seq<T>, b: seq<T>, le: (T, T) -> bool)
    requires Preorder(le) && Sorted(a, le) && Sorted(b, le) && a != [] && forall c :: AgreeOn(a, b, le, c)
    ensures b != [] && a[|a| - 1] == b[|b| - 1]
  {
    hide FlatMap;
    var x := a[|a| - 1];
    assert le(x, x) && AgreeOn(a, b, le, x);
    KeptMembers(a, TiedWith(x, le), x);
    KeptMembers(b, TiedWith(x, le), x);
    var y := b[|b| - 1];
    BelowLast(x, b, le);
    assert le(y, y) && AgreeOn(a, b, le, y);
    KeptMembers(b, TiedWith(y, le), y);
    KeptMembers(a, TiedWith(y, le), y);
    BelowLast(y, a, le);
    LastKept(a, x, le);
    LastKept(b, x, le);
  }

  lemma LastKept<T(!new)>(a: seq<T>, c: T, le: (T, T) -> bool)
    requires a != [] && le(a[|a| - 1], c) && le(c, a[|a| - 1])
    ensures var k := FlatMap(TiedWith(c, le), a); k != [] && k[|k| - 1] == a[|a| - 1]
  {
    hide FlatMap;
    var front, last := a[..|a| - 1], a[|a| - 1];
    assert a == front + [last];
    FlatMapLast(TiedWith(c, le), front, last);
  }

  /** Two sorted lists are equal if they agree on every class of elements that compare equal. */
  lemma {:induction false} SortedByTies<T(!new)>(a: seq<T>, b: seq<T>, le: (T, T) -> bool)
    requires Preorder(le) && Sorted(a, le) && Sorted(b, le) && forall c :: AgreeOn(a, b, le, c)
    ensures a == b
    decreases |a|
  {
    hide FlatMap, Preorder;
    if a == [] {
      if b != [] {
        SwapAgree(a, b, le);
        LastIsTied(b, a, le);
      }
    } else {
      LastIsTied(a, b, le);
      var x, a', b' := a[|a| - 1], a[..|a| - 1], b[..|b| - 1];
      assert a == a' + [x] && b == b' + [x];
      forall c ensures AgreeOn(a', b', le, c) {
        assert AgreeOn(a, b, le, c);
        FlatMapLast(TiedWith(c, le), a', x);
        FlatMapLast(TiedWith(c, le), b', x);
        CutSuffix(FlatMap(TiedWith(c, le), a'), FlatMap(TiedWith(c, le), b'), TiedWith(c, le)(x));
      }
      SortedByTies(a', b', le);
    }
  }

  lemma SwapAgree<T(!new)>(a: seq<T>, b: seq<T>, le: (T, T) -> bool)
    requires forall c :: AgreeOn(a, b, le, c)
    ensures forall c :: AgreeOn(b, a, le, c)
  {
    forall c ensures AgreeOn(b, a, le, c) { assert AgreeOn(a, b, le, c); }
  }

  lemma CutSuffix<T>(a: seq<T>, b: seq<T>, t: seq<T>)
    requires a + t == b + t
    ensures a == b
  {
    assert |a + t| == |b + t|;
    assert a == (a + t)[..|a|] == (b + t)[..|b|] == b;
  }

  /** Stable sorting of two lists gives the same if they agree on every class of elements that compare equal. */
  lemma SortsAlike<T(!new)>(a: seq<T>, b: seq<T>, le: (T, T) -> bool)
    requires Preorder(le) && forall c :: AgreeOn(a, b, le, c)
    ensures Sort(a, le) == Sort(b, le)
  {
    hide FlatMap, Sort;
    SortSorts(a, le);
    SortSorts(b, le);
    forall c ensures AgreeOn(Sort(a, le), Sort(b, le), le, c) {
      assert AgreeOn(a, b, le, c);
      SortKeepsTies(a, le, c);
      SortKeepsTies(b, le, c);
    }
    SortedByTies(Sort(a, le), Sort(b, le), le);
  }
}
