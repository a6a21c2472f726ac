/** The host's stable sort, and when its result depends only on the contents of its input. */
module Sorting {

  /** `le(a, b)` stands for `compare(a, b) <= 0`; a consistent comparator makes it a total preorder. */
  ghost predicate Preorder<T(!new)>(le: (T, T) -> bool) {
    && (forall a, b :: le(a, b) || le(b, a))
    && (forall a, b, c :: le(a, b) && le(b, c) ==> le(a, c))
  }

  function Insert<T>(x: T, xs: seq<T>, le: (T, T) -> bool): seq<T> {
    if xs == [] then [x]
    else
      var n := |xs| - 1;
      if le(xs[n], x) then xs + [x] else Insert(x, xs[..n], le) + [xs[n]]
  }

  function Sort<T>(xs: seq<T>, le: (T, T) -> bool): seq<T> {
    if xs == [] then [] else Insert(xs[|xs| - 1], Sort(xs[..|xs| - 1], le), le)
  }

  ghost predicate Sorted<T>(xs: seq<T>, le: (T, T) -> bool) {
    forall i, j :: 0 <= i < j < |xs| ==> le(xs[i], xs[j])
  }

  /** Elements that compare equal are equal. */
  ghost predicate Antisymmetric<T>(xs: seq<T>, le: (T, T) -> bool) {
    forall i, j :: 0 <= i < |xs| && 0 <= j < |xs| && le(xs[i], xs[j]) && le(xs[j], xs[i]) ==> xs[i] == xs[j]
  }

  lemma {:induction false} InsertPermutes<T>(x: T, xs: seq<T>, le: (T, T) -> bool)
    ensures multiset(Insert(x, xs, le)) == multiset(xs) + multiset{x}
    decreases |xs|
  {
    if xs != [] {
      var n := |xs| - 1;
      assert xs == xs[..n] + [xs[n]];
      if !le(xs[n], x) { InsertPermutes(x, xs[..n], le); }
    }
  }

  /** Whatever the comparator does, sorting rearranges. */
  lemma {:induction false} SortPermutes<T>(xs: seq<T>, le: (T, T) -> bool)
    ensures multiset(Sort(xs, le)) == multiset(xs) && |Sort(xs, le)| == |xs|
    decreases |xs|
  {
    if xs != [] {
      var n := |xs| - 1;
      SortPermutes(xs[..n], le);
      InsertPermutes(xs[n], Sort(xs[..n], le), le);
      assert xs == xs[..n] + [xs[n]];
    }
    assert |multiset(Sort(xs, le))| == |multiset(xs)|;
  }

  lemma {:induction false} InsertIntoSorted<T(!new)>(x: T, xs: seq<T>, le: (T, T) -> bool)
    requires Preorder(le) && Sorted(xs, le)
    ensures Sorted(Insert(x, xs, le), le)
    decreases |xs|
  {
    if xs != [] {
      var n := |xs| - 1;
      if le(xs[n], x) {
        forall i | 0 <= i < |xs| ensures le(xs[i], x) {}
      } else {
        InsertIntoSorted(x, xs[..n], le);
        InsertPermutes(x, xs[..n], le);
        var front := Insert(x, xs[..n], le);
        forall i | 0 <= i < |front| ensures le(front[i], xs[n]) {
          assert front[i] in multiset(front);
          assert front[i] == x || front[i] in xs[..n];
        }
      }
    }
  }

  lemma {:induction false} SortSorts<T(!new)>(xs: seq<T>, le: (T, T) -> bool)
    requires Preorder(le)
    ensures Sorted(Sort(xs, le), le) && multiset(Sort(xs, le)) == multiset(xs)
    decreases |xs|
  {
    hide Insert;
    SortPermutes(xs, le);
    if xs != [] {
      SortSorts(xs[..|xs| - 1], le);
      InsertIntoSorted(xs[|xs| - 1], Sort(xs[..|xs| - 1], le), le);
    }
  }

  lemma MembersByMultiset<T>(a: seq<T>, b: seq<T>)
    requires multiset(a) == multiset(b)
    ensures |a| == |b| && forall x :: x in a <==> x in b
  {
    assert |multiset(a)| == |multiset(b)|;
    forall x ensures x in a <==> x in b {
      assert x in a <==> x in multiset(a);
      assert x in b <==> x in multiset(b);
    }
  }

  lemma BelowLast<T(!new)>(x: T, xs: seq<T>, le: (T, T) -> bool)
    requires Preorder(le) && Sorted(xs, le) && x in xs
    ensures le(x, xs[|xs| - 1])
  {
    var i :| 0 <= i < |xs| && xs[i] == x;
    assert le(x, x);
  }

  lemma DropLast<T>(a: seq<T>, b: seq<T>)
    requires |a| == |b| > 0 && multiset(a) == multiset(b) && a[|a| - 1] == b[|b| - 1]
    ensures multiset(a[..|a| - 1]) == multiset(b[..|b| - 1])
  {
    var n := |a| - 1;
    assert a == a[..n] + [a[n]] && b == b[..n] + [b[n]];
    assert multiset(a[..n]) == multiset(a) - multiset{a[n]};
    assert multiset(b[..n]) == multiset(b) - multiset{b[n]};
  }

  lemma {:induction false} SortedIsUnique<T(!new)>(a: seq<T>, b: seq<T>, le: (T, T) -> bool)
    requires Preorder(le) && Sorted(a, le) && Sorted(b, le) && multiset(a) == multiset(b) && Antisymmetric(a, le)
    ensures a == b
    decreases |a|
  {
    hide Preorder;
    MembersByMultiset(a, b);
    if a != [] {
      var n := |a| - 1;
      assert a[n] in a && b[n] in b;
      BelowLast(a[n], b, le);
      BelowLast(b[n], a, le);
      var j :| 0 <= j < |a| && a[j] == b[n];
      assert a[j] == a[n];
      DropLast(a, b);
      SortedIsUnique(a[..n], b[..n], le);
      assert a == a[..n] + [a[n]] && b == b[..n] + [b[n]];
    }
  }

  /** Two arrangements of the same elements sort alike when no two different elements compare equal. */
  lemma SortForgetsOrder<T(!new)>(a: seq<T>, b: seq<T>, le: (T, T) -> bool)
    requires Preorder(le) && multiset(a) == multiset(b) && Antisymmetric(a, le)
    ensures Sort(a, le) == Sort(b, le)
  {
    SortSorts(a, le);
    SortSorts(b, le);
    var s := Sort(a, le);
    MembersByMultiset(s, a);
    forall i, j | 0 <= i < |s| && 0 <= j < |s| && le(s[i], s[j]) && le(s[j], s[i]) ensures s[i] == s[j] {
      assert s[i] in a && s[j] in a;
    }
    SortedIsUnique(s, Sort(b, le), le);
  }

  // ---- sequences without repetition ----

  ghost predicate Distinct<T>(xs: seq<T>) { forall i, j :: 0 <= i < j < |xs| ==> xs[i] != xs[j] }

  lemma {:induction false} DistinctCounts<T>(xs: seq<T>)
    ensures Distinct(xs) <==> forall x :: multiset(xs)[x] <= 1
    decreases |xs|
  {
    if xs != [] {
      var n := |xs| - 1;
      var front, last := xs[..n], xs[n];
      DistinctCounts(front);
      assert xs == front + [last];
      assert multiset(xs) == multiset(front) + multiset{last};
      assert Distinct(xs) <==> Distinct(front) && last !in front;
      assert last in front <==> last in multiset(front);
      if forall x :: multiset(xs)[x] <= 1 {
        forall x ensures multiset(front)[x] <= 1 { assert multiset(xs)[x] <= 1; }
        assert multiset(xs)[last] <= 1;
      }
    }
  }

  lemma DistinctPermutes<T>(a: seq<T>, b: seq<T>)
    requires multiset(a) == multiset(b)
    ensures Distinct(a) <==> Distinct(b)
  {
    DistinctCounts(a);
    DistinctCounts(b);
  }

  ghost function ToSet<T>(xs: seq<T>): set<T> { set x | x in xs }

  lemma {:induction false} DistinctSize<T>(xs: seq<T>)
    requires Distinct(xs)
    ensures |ToSet(xs)| == |xs|
    decreases |xs|
  {
    if xs != [] {
      var n := |xs| - 1;
      DistinctSize(xs[..n]);
      assert xs == xs[..n] + [xs[n]];
      assert ToSet(xs) == ToSet(xs[..n]) + {xs[n]};
    }
  }

  lemma SubsetOfSameSize<T>(a: set<T>, b: set<T>)
    requires a <= b && |a| == |b|
    ensures a == b
  {
    assert |b - a| == 0;
  }

  /** Equally long repetition-free sequences, one within the other, are rearrangements. */
  lemma Rearranged<T>(a: seq<T>, b: seq<T>)
    requires Distinct(a) && Distinct(b) && |a| == |b| && forall i :: 0 <= i < |a| ==> a[i] in b
    ensures multiset(a) == multiset(b)
  {
    DistinctSize(a);
    DistinctSize(b);
    SubsetOfSameSize(ToSet(a), ToSet(b));
    DistinctCounts(a);
    DistinctCounts(b);
    forall x ensures multiset(a)[x] == multiset(b)[x] {
      assert x in a <==> x in ToSet(a);
      assert x in b <==> x in ToSet(b);
      assert x in multiset(a) <==> x in a;
      assert x in multiset(b) <==> x in b;
      assert multiset(a)[x] <= 1 && multiset(b)[x] <= 1;
    }
  }
}
