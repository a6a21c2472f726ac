/** The host's default order of strings, by code units, and lists kept without repetitions. */
module TextOrder {
  import opened Units
  import opened Sorting

  predicate TextLe(a: Text, b: Text) {
    a == [] || (b != [] && (a[0] < b[0] || (a[0] == b[0] && TextLe(a[1..], b[1..]))))
  }

  function ByText(): (Text, Text) -> bool { (a, b) => TextLe(a, b) }

  lemma {:induction false} TextTotal(a: Text, b: Text)
    ensures TextLe(a, b) || TextLe(b, a)
    decreases |a|
  {
    if a != [] && b != [] { TextTotal(a[1..], b[1..]); }
  }

  lemma {:induction false} TextTransitive(a: Text, b: Text, c: Text)
    requires TextLe(a, b) && TextLe(b, c)
    ensures TextLe(a, c)
    decreases |a|
  {
    if a != [] && a[0] == b[0] && b[0] == c[0] { TextTransitive(a[1..], b[1..], c[1..]); }
  }

  lemma TextsOrdered()
    ensures Preorder(ByText())
  {
    forall a, b ensures ByText()(a, b) || ByText()(b, a) { TextTotal(a, b); }
    forall a, b, c | ByText()(a, b) && ByText()(b, c) ensures ByText()(a, c) { TextTransitive(a, b, c); }
  }

  // ---- insertion-ordered sets ----

  function AddNew<T(==)>(xs: seq<T>, x: T): seq<T> { if x in xs then xs else xs + [x] }

  /** The first occurrence of each element, in order. */
  function Dedup<T(==)>(xs: seq<T>): seq<T> {
    if xs == [] then [] else AddNew(Dedup(xs[..|xs| - 1]), xs[|xs| - 1])
  }

  lemma DedupStep<T>(xs: seq<T>, x: T)
    ensures Dedup(xs + [x]) == AddNew(Dedup(xs), x)
  {
    assert (xs + [x])[..|xs|] == xs;
  }

  lemma {:induction false} DedupMembers<T>(xs: seq<T>)
    ensures Distinct(Dedup(xs)) && forall x :: x in Dedup(xs) <==> x in xs
    decreases |xs|
  {
    if xs != [] {
      var n := |xs| - 1;
      DedupMembers(xs[..n]);
      assert xs == xs[..n] + [xs[n]];
    }
  }

  lemma DedupEmpty<T>(xs: seq<T>)
    ensures Dedup(xs) == [] <==> xs == []
  {
    DedupMembers(xs);
    if xs != [] { assert xs[0] in Dedup(xs); }
  }

  // ---- sorting what is sorted ----

  lemma {:induction false} InsertAfter<T>(x: T, a: seq<T>, b: seq<T>, le: (T, T) -> bool)
    requires forall i :: 0 <= i < |a| ==> le(a[i], x)
    ensures Insert(x, a + b, le) == a + Insert(x, b, le)
    decreases |b|
  {
    if b == [] {
      assert a + b == a;
      assert a != [] ==> le(a[|a| - 1], x);
    } else {
      var n := |b| - 1;
      assert (a + b)[..|a| + n] == a + b[..n] && (a + b)[|a| + n] == b[n];
      InsertAfter(x, a, b[..n], le);
    }
  }

  lemma InsertFirst<T>(x: T, le: (T, T) -> bool)
    ensures Insert(x, [], le) == [x]
  {}

  lemma {:induction false} SortSorted<T>(xs: seq<T>, le: (T, T) -> bool)
    requires Sorted(xs, le)
    ensures Sort(xs, le) == xs
    decreases |xs|
  {
    hide Insert;
    if xs != [] {
      var n := |xs| - 1;
      SortSorted(xs[..n], le);
      InsertAfter(xs[n], xs[..n], [], le);
      InsertFirst(xs[n], le);
      assert xs[..n] + [] == xs[..n];
    }
  }

  /** What only adds larger elements sorts to the same front. */
  lemma {:induction false} SortAppend<T(!new)>(a: seq<T>, b: seq<T>, le: (T, T) -> bool)
    requires forall x, y :: x in a && y in b ==> le(x, y)
    ensures Sort(a + b, le) == Sort(a, le) + Sort(b, le)
    decreases |b|
  {
    hide Insert;
    if b == [] {
      assert a + b == a;
    } else {
      var n := |b| - 1;
      assert (a + b)[..|a| + n] == a + b[..n] && (a + b)[|a| + n] == b[n];
      SortAppend(a, b[..n], le);
      SortPermutes(a, le);
      MembersByMultiset(Sort(a, le), a);
      assert b[n] in b;
      InsertAfter(b[n], Sort(a, le), Sort(b[..n], le), le);
    }
  }
}
