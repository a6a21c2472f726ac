/** Filtering and mapping in one, and what it keeps of a rearranged input. */
module Seqs {

  function FlatMap<T, U>(f: T -> seq<U>, xs: seq<T>): seq<U> {
    if xs == [] then [] else FlatMap(f, xs[..|xs| - 1]) + f(xs[|xs| - 1])
  }

  lemma FlatMapLast<T, U>(f: T -> seq<U>, front: seq<T>, x: T)
    ensures FlatMap(f, front + [x]) == FlatMap(f, front) + f(x)
  {
    assert (front + [x])[..|front|] == front;
  }

  lemma FlatMapNone<T, U>(f: T -> seq<U>)
    ensures FlatMap(f, []) == []
  {}

  lemma FlatMapStep<T, U>(f: T -> seq<U>, xs: seq<T>, k: nat)
    requires k < |xs|
    ensures FlatMap(f, xs[..k + 1]) == FlatMap(f, xs[..k]) + f(xs[k])
  {
    assert xs[..k + 1][..k] == xs[..k];
  }

  lemma {:induction false} FlatMapAppend<T, U>(f: T -> seq<U>, a: seq<T>, b: seq<T>)
    ensures FlatMap(f, a + b) == FlatMap(f, a) + FlatMap(f, b)
    decreases |b|
  {
    hide FlatMap;
    if b == [] {
      assert a + b == a;
      FlatMapNone(f);
    } else {
      var front, x := b[..|b| - 1], b[|b| - 1];
      assert b == front + [x] && a + b == (a + front) + [x];
      FlatMapAppend(f, a, front);
      FlatMapLast(f, a + front, x);
      FlatMapLast(f, front, x);
    }
  }

  lemma FlatMapOne<T, U>(f: T -> seq<U>, x: T)
    ensures FlatMap(f, [x]) == f(x)
  {
    assert [x][..0] == [];
    assert FlatMap(f, []) == [];
  }

  lemma {:induction false} FlatMapMember<T, U>(f: T -> seq<U>, xs: seq<T>, y: U)
    ensures y in FlatMap(f, xs) <==> exists k :: 0 <= k < |xs| && y in f(xs[k])
    decreases |xs|
  {
    if xs != [] {
      var n := |xs| - 1;
      FlatMapMember(f, xs[..n], y);
      if y in FlatMap(f, xs[..n]) {
        var k :| 0 <= k < n && y in f(xs[..n][k]);
        assert y in f(xs[k]);
      }
      if k :| 0 <= k < |xs| && y in f(xs[k]) {
        if k < n { assert y in f(xs[..n][k]); }
      }
    }
  }

  /** A rearranged input gives a rearranged output. */
  lemma {:induction false} FlatMapPermutes<T, U>(f: T -> seq<U>, a: seq<T>, b: seq<T>)
    requires multiset(a) == multiset(b)
    ensures multiset(FlatMap(f, a)) == multiset(FlatMap(f, b))
    decreases |a|
  {
    if a == [] {
      assert |multiset(b)| == 0;
    } else {
      var n := |a| - 1;
      assert a[n] in multiset(b);
      var j :| 0 <= j < |b| && b[j] == a[n];
      var left, right := b[..j], b[j + 1..];
      assert b == left + ([b[j]] + right);
      assert a == a[..n] + [a[n]];
      RemoveOne(a[..n], a[n], left, right);
      FlatMapPermutes(f, a[..n], left + right);
      FlatMapAppend(f, left, right);
      FlatMapAppend(f, left, [b[j]] + right);
      FlatMapAppend(f, [b[j]], right);
      FlatMapOne(f, b[j]);
    }
  }

  lemma RemoveOne<T>(rest: seq<T>, x: T, left: seq<T>, right: seq<T>)
    requires multiset(rest + [x]) == multiset(left + ([x] + right))
    ensures multiset(rest) == multiset(left + right)
  {
    assert multiset(rest) == multiset(rest + [x]) - multiset{x};
    assert multiset(left + right) == multiset(left + ([x] + right)) - multiset{x};
  }

  lemma {:induction false} FlatMapSame<T, U>(f: T -> seq<U>, g: T -> seq<U>, xs: seq<T>)
    requires forall k :: 0 <= k < |xs| ==> f(xs[k]) == g(xs[k])
    ensures FlatMap(f, xs) == FlatMap(g, xs)
    decreases |xs|
  {
    if xs != [] { FlatMapSame(f, g, xs[..|xs| - 1]); }
  }

  /** Mapping the output is mapping each piece. */
  lemma {:induction false} FlatMapCompose<T, U, V>(f: T -> seq<U>, g: U -> seq<V>, h: T -> seq<V>, xs: seq<T>)
    requires forall k :: 0 <= k < |xs| ==> FlatMap(g, f(xs[k])) == h(xs[k])
    ensures FlatMap(g, FlatMap(f, xs)) == FlatMap(h, xs)
    decreases |xs|
  {
    if xs != [] {
      var n := |xs| - 1;
      FlatMapCompose(f, g, h, xs[..n]);
      FlatMapAppend(g, FlatMap(f, xs[..n]), f(xs[n]));
    }
  }

  /** Mapping each element to one keeps the positions. */
  lemma {:induction false} FlatMapSingle<T, U>(f: T -> seq<U>, g: T -> U, xs: seq<T>)
    requires forall x :: f(x) == [g(x)]
    ensures |FlatMap(f, xs)| == |xs| && forall k :: 0 <= k < |xs| ==> FlatMap(f, xs)[k] == g(xs[k])
    decreases |xs|
  {
    if xs != [] { FlatMapSingle(f, g, xs[..|xs| - 1]); }
  }

  // ---- picking elements ----

  /** Each element is kept or dropped. */
  ghost predicate Picks<T(!new)>(f: T -> seq<T>) { forall x :: f(x) == [] || f(x) == [x] }

  lemma PickIs<T(!new)>(f: T -> seq<T>, x: T)
    requires Picks(f)
    ensures f(x) == [] || f(x) == [x]
  {}

  /** Nothing is picked exactly when no position is. */
  lemma {:induction false} NothingPicked<T(!new)>(f: T -> seq<T>, xs: seq<T>)
    requires Picks(f)
    ensures FlatMap(f, xs) == [] <==> forall k :: 0 <= k < |xs| ==> f(xs[k]) == []
    decreases |xs|
  {
    hide FlatMap, Picks;
    if xs == [] {
      FlatMapNone(f);
    } else {
      var front, x := xs[..|xs| - 1], xs[|xs| - 1];
      assert xs == front + [x];
      NothingPicked(f, front);
      FlatMapLast(f, front, x);
    }
  }

  /** One position that is picked while no other is. */
  ghost predicate OnlyPick<T(!new)>(f: T -> seq<T>, xs: seq<T>, k: nat) {
    k < |xs| && f(xs[k]) != [] && forall j :: 0 <= j < |xs| && j != k ==> f(xs[j]) == []
  }

  lemma OnlyPickStep<T(!new)>(f: T -> seq<T>, front: seq<T>, x: T, k: nat)
    ensures f(x) == [] ==> (OnlyPick(f, front + [x], k) <==> OnlyPick(f, front, k))
    ensures f(x) != [] ==>
      (OnlyPick(f, front + [x], k) <==> k == |front| && forall j :: 0 <= j < |front| ==> f(front[j]) == [])
  {
    var xs, n := front + [x], |front|;
    assert xs[n] == x && forall j :: 0 <= j < n ==> xs[j] == front[j];
    if f(x) != [] && OnlyPick(f, xs, k) {
      assert k == n;
      forall j | 0 <= j < n ensures f(front[j]) == [] { assert f(xs[j]) == []; }
    }
    if f(x) == [] && OnlyPick(f, xs, k) {
      assert k < n;
      forall j | 0 <= j < n && j != k ensures f(front[j]) == [] { assert f(xs[j]) == []; }
    }
  }

  lemma {:induction false} OnePicked<T(!new)>(f: T -> seq<T>, xs: seq<T>)
    requires Picks(f)
    ensures |FlatMap(f, xs)| == 1 <==> exists k: nat :: OnlyPick(f, xs, k)
    ensures forall k: nat :: OnlyPick(f, xs, k) ==> FlatMap(f, xs) == [xs[k]]
    decreases |xs|
  {
    hide FlatMap, Picks, OnlyPick;
    if xs == [] {
      FlatMapNone(f);
      forall k: nat ensures !OnlyPick(f, xs, k) { OnlyPickInRange(f, xs, k); }
    } else {
      var front, x := xs[..|xs| - 1], xs[|xs| - 1];
      assert xs == front + [x];
      FlatMapLast(f, front, x);
      PickIs(f, x);
      if f(x) == [] {
        OnePicked(f, front);
        assert FlatMap(f, xs) == FlatMap(f, front);
        forall k: nat ensures OnlyPick(f, xs, k) <==> OnlyPick(f, front, k) { OnlyPickStep(f, front, x, k); }
        forall k: nat | OnlyPick(f, xs, k) ensures k < |xs| && FlatMap(f, xs) == [xs[k]] {
          OnlyPickInRange(f, front, k);
        }
      } else {
        NothingPicked(f, front);
        forall k: nat ensures OnlyPick(f, xs, k) <==> k == |front| && FlatMap(f, front) == [] {
          OnlyPickStep(f, front, x, k);
        }
        assert OnlyPick(f, xs, |front|) <==> FlatMap(f, front) == [];
      }
    }
  }

  lemma OnlyPickInRange<T(!new)>(f: T -> seq<T>, xs: seq<T>, k: nat)
    ensures OnlyPick(f, xs, k) ==> k < |xs|
  {}
}
