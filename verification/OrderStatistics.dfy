/** Quartiles, medians and rounding, stated by counting over a list in any order. */
module OrderStatistics {
  import opened Units
  import opened Seqs
  import opened Sorting

  function Keep(p: real -> bool): real -> seq<real> { (x: real) => if p(x) then [x] else [] }

  /** How many elements satisfy `p`. */
  function Count(xs: seq<real>, p: real -> bool): nat { |FlatMap(Keep(p), xs)| }

  function AtMost(v: real): real -> bool { (x: real) => x <= v }

  function AtLeast(v: real): real -> bool { (x: real) => x >= v }

  // ---- what is claimed ----

  /** The least value that at least `quarters` quarters of the elements do not exceed. */
  ghost predicate IsQuartile(v: real, xs: seq<real>, quarters: nat) {
    && v in xs && 4 * Count(xs, AtMost(v)) >= quarters * |xs|
    && forall w :: 4 * Count(xs, AtMost(w)) >= quarters * |xs| ==> v <= w
  }

  /** The least value that at least half of the elements do not exceed. */
  ghost predicate IsLowerMedian(v: real, xs: seq<real>) { IsQuartile(v, xs, 2) }

  /** The greatest value that at least half of the elements reach. */
  ghost predicate IsUpperMedian(v: real, xs: seq<real>) {
    && v in xs && 2 * Count(xs, AtLeast(v)) >= |xs|
    && forall w :: 2 * Count(xs, AtLeast(w)) >= |xs| ==> w <= v
  }

  ghost predicate IsMedian(v: real, xs: seq<real>) {
    exists low, high :: IsLowerMedian(low, xs) && IsUpperMedian(high, xs) && 2.0 * v == low + high
  }

  /** The nearest tenth, the greater one of two. */
  ghost predicate IsRounded(r: real, x: real) {
    (10.0 * r).Floor as real == 10.0 * r && -0.05 < r - x <= 0.05
  }

  /** The value has a rounded one. */
  lemma RoundedIsUnique(r: real, s: real, x: real)
    requires IsRounded(r, x) && IsRounded(s, x)
    ensures r == s
  {
    var a, b := (10.0 * r).Floor, (10.0 * s).Floor;
    assert -1.0 < a as real - b as real < 1.0;
    assert a == b;
  }

  lemma QuartileIsUnique(v: real, w: real, xs: seq<real>, quarters: nat)
    requires IsQuartile(v, xs, quarters) && IsQuartile(w, xs, quarters)
    ensures v == w
  {
    hide Count;
  }

  lemma MedianIsUnique(v: real, w: real, xs: seq<real>)
    requires IsMedian(v, xs) && IsMedian(w, xs)
    ensures v == w
  {
    hide Count, IsLowerMedian, IsUpperMedian;
    var a, b :| IsLowerMedian(a, xs) && IsUpperMedian(b, xs) && 2.0 * v == a + b;
    var c, d :| IsLowerMedian(c, xs) && IsUpperMedian(d, xs) && 2.0 * w == c + d;
    LowerIs(a, xs);
    LowerIs(c, xs);
    QuartileIsUnique(a, c, xs, 2);
    UpperIsUnique(b, d, xs);
  }

  lemma LowerIs(v: real, xs: seq<real>)
    ensures IsLowerMedian(v, xs) <==> IsQuartile(v, xs, 2)
  {}

  lemma UpperIsUnique(v: real, w: real, xs: seq<real>)
    requires IsUpperMedian(v, xs) && IsUpperMedian(w, xs)
    ensures v == w
  {
    hide Count;
  }

  // ---- counting ----

  lemma CountNone(p: real -> bool)
    ensures Count([], p) == 0
  {}

  lemma CountLast(front: seq<real>, x: real, p: real -> bool)
    ensures Count(front + [x], p) == Count(front, p) + if p(x) then 1 else 0
  {
    FlatMapLast(Keep(p), front, x);
  }

  lemma CountAppend(a: seq<real>, b: seq<real>, p: real -> bool)
    ensures Count(a + b, p) == Count(a, p) + Count(b, p)
  {
    FlatMapAppend(Keep(p), a, b);
  }

  lemma {:induction false} CountBounds(xs: seq<real>, p: real -> bool)
    ensures Count(xs, p) <= |xs|
    ensures (forall k :: 0 <= k < |xs| ==> p(xs[k])) ==> Count(xs, p) == |xs|
    ensures (forall k :: 0 <= k < |xs| ==> !p(xs[k])) ==> Count(xs, p) == 0
    decreases |xs|
  {
    hide Count;
    if xs == [] {
      CountNone(p);
    } else {
      var front, x := xs[..|xs| - 1], xs[|xs| - 1];
      assert xs == front + [x];
      CountLast(front, x, p);
      CountBounds(front, p);
    }
  }

  ghost function Positions(xs: seq<real>, p: real -> bool): set<int> { set k | 0 <= k < |xs| && p(xs[k]) }

  /** The count is the number of positions. */
  lemma {:induction false} CountIsPositions(xs: seq<real>, p: real -> bool)
    ensures Count(xs, p) == |Positions(xs, p)|
    decreases |xs|
  {
    hide Count;
    if xs == [] {
      CountNone(p);
      assert Positions(xs, p) == {};
    } else {
      var n := |xs| - 1;
      assert xs == xs[..n] + [xs[n]];
      CountLast(xs[..n], xs[n], p);
      CountIsPositions(xs[..n], p);
      assert Positions(xs, p) == Positions(xs[..n], p) + if p(xs[n]) then {n} else {};
    }
  }

  /** The order of the elements does not count. */
  lemma CountPermutes(a: seq<real>, b: seq<real>, p: real -> bool)
    requires multiset(a) == multiset(b)
    ensures Count(a, p) == Count(b, p)
  {
    hide FlatMap;
    FlatMapPermutes(Keep(p), a, b);
    MembersByMultiset(FlatMap(Keep(p), a), FlatMap(Keep(p), b));
  }

  // ---- in a sorted list ----

  ghost predicate Rising(s: seq<real>) { forall i, j :: 0 <= i <= j < |s| ==> s[i] <= s[j] }

  lemma CountCut(s: seq<real>, cut: nat, p: real -> bool)
    requires cut <= |s|
    ensures (forall k :: 0 <= k < cut ==> p(s[k])) ==> Count(s, p) >= cut
    ensures (forall k :: 0 <= k < cut ==> !p(s[k])) ==> Count(s, p) <= |s| - cut
    ensures (forall k :: cut <= k < |s| ==> p(s[k])) ==> Count(s, p) >= |s| - cut
    ensures (forall k :: cut <= k < |s| ==> !p(s[k])) ==> Count(s, p) <= cut
  {
    hide Count;
    var front, back := s[..cut], s[cut..];
    assert s == front + back;
    CountAppend(front, back, p);
    CountBounds(front, p);
    CountBounds(back, p);
    assert (forall k :: cut <= k < |s| ==> p(s[k])) ==> forall k :: 0 <= k < |back| ==> p(back[k]);
    assert (forall k :: cut <= k < |s| ==> !p(s[k])) ==> forall k :: 0 <= k < |back| ==> !p(back[k]);
  }

  lemma CountUpTo(s: seq<real>, i: nat, v: real)
    requires Rising(s) && i < |s|
    ensures s[i] <= v ==> Count(s, AtMost(v)) >= i + 1
    ensures v < s[i] ==> Count(s, AtMost(v)) <= i
  {
    hide Count;
    CountCut(s, if s[i] <= v then i + 1 else i, AtMost(v));
  }

  lemma CountFrom(s: seq<real>, i: nat, v: real)
    requires Rising(s) && i < |s|
    ensures s[i] >= v ==> Count(s, AtLeast(v)) >= |s| - i
    ensures v > s[i] ==> Count(s, AtLeast(v)) <= |s| - i - 1
  {
    hide Count;
    CountCut(s, if s[i] >= v then i else i + 1, AtLeast(v));
  }

  /** In a sorted list the quartile stands at its rank. */
  lemma QuartileAt(s: seq<real>, quarters: nat, i: nat)
    requires Rising(s) && i < |s| && 4 * i < quarters * |s| <= 4 * (i + 1)
    ensures IsQuartile(s[i], s, quarters)
  {
    hide Count;
    CountUpTo(s, i, s[i]);
    forall w | 4 * Count(s, AtMost(w)) >= quarters * |s| ensures s[i] <= w { CountUpTo(s, i, w); }
  }

  lemma UpperMedianAt(s: seq<real>, i: nat)
    requires Rising(s) && i < |s| && i == |s| / 2
    ensures IsUpperMedian(s[i], s)
  {
    hide Count;
    CountFrom(s, i, s[i]);
    forall w | 2 * Count(s, AtLeast(w)) >= |s| ensures w <= s[i] { CountFrom(s, i, w); }
  }

  /** The middle element, or the mean of the two middle ones. */
  lemma MedianAt(s: seq<real>, i: nat, j: nat, v: real)
    requires Rising(s) && s != [] && i == (|s| - 1) / 2 && j == |s| / 2 && 2.0 * v == s[i] + s[j]
    ensures IsMedian(v, s)
  {
    hide IsQuartile, IsUpperMedian;
    QuartileAt(s, 2, i);
    LowerIs(s[i], s);
    UpperMedianAt(s, j);
  }

  // ---- in any order ----

  lemma QuartilePermutes(v: real, a: seq<real>, b: seq<real>, quarters: nat)
    requires multiset(a) == multiset(b) && IsQuartile(v, a, quarters)
    ensures IsQuartile(v, b, quarters)
  {
    hide Count;
    MembersByMultiset(a, b);
    forall w: real ensures Count(a, AtMost(w)) == Count(b, AtMost(w)) { CountPermutes(a, b, AtMost(w)); }
  }

  lemma UpperMedianPermutes(v: real, a: seq<real>, b: seq<real>)
    requires multiset(a) == multiset(b) && IsUpperMedian(v, a)
    ensures IsUpperMedian(v, b)
  {
    hide Count;
    MembersByMultiset(a, b);
    forall w: real ensures Count(a, AtLeast(w)) == Count(b, AtLeast(w)) { CountPermutes(a, b, AtLeast(w)); }
  }

  lemma MedianPermutes(v: real, a: seq<real>, b: seq<real>)
    requires multiset(a) == multiset(b) && IsMedian(v, a)
    ensures IsMedian(v, b)
  {
    hide IsQuartile, IsUpperMedian, IsLowerMedian;
    var low, high :| IsLowerMedian(low, a) && IsUpperMedian(high, a) && 2.0 * v == low + high;
    LowerIs(low, a);
    LowerIs(low, b);
    QuartilePermutes(low, a, b, 2);
    UpperMedianPermutes(high, a, b);
  }
}
