/** Cache-read statistics from a histogram, equal to those of the list it stands for. */
module CacheHistogram {
  import opened Units
  import opened Decimal
  import opened Seqs
  import opened Sorting
  import opened OrderStatistics
  import opened CacheMetrics

  /** A share that is not finite is absent here. */
  datatype RawBucket = RawBucket(share: Option<real>, responses: Num)

  datatype Histogram = Histogram(total: Num, read: Num, unavailable: Num, buckets: seq<RawBucket>)

  datatype Bucket = Bucket(share: real, responses: nat)

  predicate Usable(b: RawBucket) {
    b.share.Some? && 0.0 <= b.share.value <= 100.0 && ValidCount(b.responses) && b.responses.n > 0
  }

  function KeepUsable(): RawBucket -> seq<Bucket> {
    (b: RawBucket) => if Usable(b) then [Bucket(b.share.value, b.responses.n)] else []
  }

  function UsableBuckets(bs: seq<RawBucket>): seq<Bucket> { FlatMap(KeepUsable(), bs) }

  function ByShare(): (Bucket, Bucket) -> bool { (a: Bucket, b: Bucket) => a.share <= b.share }

  function SortBuckets(bs: seq<Bucket>): seq<Bucket> { Sort(bs, ByShare()) }

  function Spread(): Bucket -> seq<real> { (b: Bucket) => seq(b.responses, _ => b.share) }

  /** One value per response, bucket after bucket. */
  function Expand(bs: seq<Bucket>): seq<real> { FlatMap(Spread(), bs) }

  predicate Trusted(h: Histogram) {
    && ValidCount(h.total) && ValidCount(h.read) && h.read.n <= h.total.n && ValidCount(h.unavailable)
  }

  function Claimed(bs: seq<RawBucket>): nat {
    if bs == [] then 0
    else Claimed(bs[..|bs| - 1]) + if ValidCount(bs[|bs| - 1].responses) then bs[|bs| - 1].responses.n else 0
  }

  /** What a histogram whose totals contradict each other is summarised to. */
  function Untrusted(h: Histogram): Summary {
    var claimed := Claimed(h.buckets);
    SummaryFromParts(0, 0, if claimed <= MAX_SAFE_INTEGER then claimed else 0, 0, None, None, None, 0, 0)
  }

  /** The values a histogram stands for. */
  function Measured(h: Histogram): seq<real> { Expand(UsableBuckets(h.buckets)) }

  // ---- the expanded list ----

  lemma EmptyExpand()
    ensures Expand([]) == [] && CountPositive([]) == 0
  {}

  lemma ExpandStep(bs: seq<Bucket>, k: nat)
    requires k < |bs|
    ensures Expand(bs[..k + 1]) == Expand(bs[..k]) + Spread()(bs[k])
  {
    assert bs[..k + 1][..k] == bs[..k];
  }

  lemma ExpandPrefix(bs: seq<Bucket>, k: nat)
    requires k <= |bs|
    ensures Expand(bs[..k]) <= Expand(bs)
  {
    FlatMapAppend(Spread(), bs[..k], bs[k..]);
    assert bs[..k] + bs[k..] == bs;
  }

  lemma {:induction false} CountSame(x: real, n: nat)
    ensures CountPositive(seq(n, _ => x)) == if x > 0.0 then n else 0
  {
    if n > 0 {
      CountSame(x, n - 1);
      assert seq(n, _ => x) == seq(n - 1, _ => x) + [x];
      CountStep(seq(n - 1, _ => x), x);
    }
  }

  lemma CountExpandStep(bs: seq<Bucket>, k: nat)
    requires k < |bs|
    ensures CountPositive(Expand(bs[..k + 1])) ==
      CountPositive(Expand(bs[..k])) + if bs[k].share > 0.0 then bs[k].responses else 0
  {
    ExpandStep(bs, k);
    CountSame(bs[k].share, bs[k].responses);
    CountAppend(Expand(bs[..k]), Spread()(bs[k]), Positive());
  }

  lemma {:induction false} ExpandSorted(bs: seq<Bucket>)
    requires Sorted(bs, ByShare())
    ensures Sorted(Expand(bs), ByValue()) && forall i :: 0 <= i < |Expand(bs)| ==> Expand(bs)[i] <= bs[|bs| - 1].share
    decreases |bs|
  {
    hide FlatMap;
    if bs == [] {
      EmptyExpand();
    } else {
      var n := |bs| - 1;
      var front, last := Expand(bs[..n]), bs[n].share;
      ExpandSorted(bs[..n]);
      ExpandStep(bs, n);
      assert bs[..n + 1] == bs;
      EmptyExpand();
      assert n > 0 ==> ByShare()(bs[n - 1], bs[n]);
      assert forall i :: 0 <= i < |front| ==> front[i] <= last;
      forall i, j | 0 <= i < j < |Expand(bs)| ensures ByValue()(Expand(bs)[i], Expand(bs)[j]) {
        if j < |front| { assert ByValue()(front[i], front[j]); }
      }
    }
  }

  /** Sorting the buckets is sorting the values. */
  lemma SortedExpansion(bs: seq<Bucket>)
    ensures Expand(SortBuckets(bs)) == SortShares(Expand(bs))
      && CountPositive(Expand(SortBuckets(bs))) == CountPositive(Expand(bs))
  {
    hide FlatMap, Sort;
    SortSorts(bs, ByShare());
    FlatMapPermutes(Spread(), SortBuckets(bs), bs);
    ExpandSorted(SortBuckets(bs));
    CountPermutes(Expand(SortBuckets(bs)), Expand(bs), Positive());
    ValuesOrder();
    SortSorts(Expand(bs), ByValue());
    SortedIsUnique(Expand(SortBuckets(bs)), SortShares(Expand(bs)), ByValue());
  }

  // ---- the walk ----

  /** Walking the buckets finds the value at a rank of the expanded list. */
  method HistogramValueAtRank(bs: seq<Bucket>, rank: nat) returns (r: Option<real>)
    ensures r == if rank < |Expand(bs)| then Some(Expand(bs)[rank]) else None
  {
    hide Expand;
    var observed := 0;
    assert bs[..0] == [] && Expand([]) == [] by { EmptyExpand(); }
    for k := 0 to |bs|
      invariant observed == |Expand(bs[..k])| <= rank
    {
      ExpandStep(bs, k);
      ExpandPrefix(bs, k + 1);
      observed := observed + bs[k].responses;
      if rank < observed {
        assert Expand(bs)[rank] == Expand(bs[..k + 1])[rank];
        return Some(bs[k].share);
      }
    }
    assert bs[..|bs|] == bs;
    return None;
  }

  method CountResponses(bs: seq<Bucket>) returns (measured: nat, positive: nat, zero: nat)
    ensures measured == |Expand(bs)| && positive == CountPositive(Expand(bs)) && zero == measured - positive
  {
    hide Expand, CountPositive;
    measured, positive, zero := 0, 0, 0;
    assert bs[..0] == [] && Expand([]) == [] && CountPositive([]) == 0 by { EmptyExpand(); }
    for k := 0 to |bs|
      invariant measured == |Expand(bs[..k])| && positive == CountPositive(Expand(bs[..k]))
        && zero == measured - positive
    {
      ExpandStep(bs, k);
      CountExpandStep(bs, k);
      measured := measured + bs[k].responses;
      if bs[k].share > 0.0 { positive := positive + bs[k].responses; } else { zero := zero + bs[k].responses; }
    }
    assert bs[..|bs|] == bs;
  }

  lemma SortedRises(bs: seq<Bucket>)
    requires Sorted(bs, ByShare())
    ensures Rising(Expand(bs))
  {
    hide Expand;
    ExpandSorted(bs);
    var s := Expand(bs);
    forall i, j | 0 <= i <= j < |s| ensures s[i] <= s[j] {
      if i < j { assert ByValue()(s[i], s[j]); }
    }
  }

  /** The median of sorted buckets, without expanding them. */
  method HistogramMedian(bs: seq<Bucket>, measured: nat) returns (r: Option<real>)
    requires measured == |Expand(bs)|
    ensures r == Median(Expand(bs))
    ensures Sorted(bs, ByShare()) ==>
      if measured == 0 then r.None? else r.Some? && IsMedian(r.value, Expand(bs))
  {
    hide Expand, IsMedian;
    if measured % 2 == 0 {
      if measured == 0 { return None; }
      var lower := HistogramValueAtRank(bs, measured / 2 - 1);
      var upper := HistogramValueAtRank(bs, measured / 2);
      r := if lower.None? || upper.None? then None else Some((lower.value + upper.value) / 2.0);
    } else {
      r := HistogramValueAtRank(bs, measured / 2);
    }
    if Sorted(bs, ByShare()) {
      SortedRises(bs);
      MedianAt(Expand(bs), (measured - 1) / 2, measured / 2, r.value);
    }
  }

  /** A quartile of sorted buckets, without expanding them. */
  method HistogramPercentile(bs: seq<Bucket>, measured: nat, quarters: nat) returns (r: Option<real>)
    requires measured == |Expand(bs)| && quarters in {1, 3}
    ensures r == Percentile(Expand(bs), quarters)
    ensures Sorted(bs, ByShare()) ==>
      if measured == 0 then r.None? else r.Some? && IsQuartile(r.value, Expand(bs), quarters)
  {
    hide Expand, IsQuartile;
    if measured == 0 { return None; }
    RanksInOrder(measured);
    r := HistogramValueAtRank(bs, Max(0, CeilQuarters(quarters, measured) - 1));
    if Sorted(bs, ByShare()) {
      SortedRises(bs);
      QuartileAt(Expand(bs), quarters, CeilQuarters(quarters, measured) - 1);
    }
  }

  method CountClaimed(bs: seq<RawBucket>) returns (claimed: nat)
    ensures claimed == Claimed(bs)
  {
    claimed := 0;
    for k := 0 to |bs|
      invariant claimed == Claimed(bs[..k])
    {
      assert bs[..k + 1][..k] == bs[..k];
      if ValidCount(bs[k].responses) { claimed := claimed + bs[k].responses.n; }
    }
    assert bs[..|bs|] == bs;
  }

  /** A trusted histogram is summarised as the sorted list of the values it stands for would be. */
  method SummarizeHistogram(h: Histogram) returns (s: Summary)
    ensures s == if Trusted(h) then SummaryOfShares(h.total.n, h.read.n, h.unavailable.n, Measured(h)) else Untrusted(h)
    ensures Trusted(h) ==> Summarizes(s, h.total.n, h.read.n, h.unavailable.n, Measured(h))
  {
    hide Summarizes, IsMedian, IsQuartile, Sorted;
    hide Expand, SortShares, Median, Percentile, CountPositive, SummaryFromParts, Claimed, SortBuckets, UsableBuckets;
    if !Trusted(h) {
      var claimed := CountClaimed(h.buckets);
      return SummaryFromParts(0, 0, if claimed <= MAX_SAFE_INTEGER then claimed else 0, 0, None, None, None, 0, 0);
    }
    var usable := UsableBuckets(h.buckets);
    var buckets := SortBuckets(usable);
    SortedExpansion(usable);
    SortedShares(Expand(usable));
    var measured, positive, zero := CountResponses(buckets);
    var median := HistogramMedian(buckets, measured);
    var p25 := HistogramPercentile(buckets, measured, 1);
    var p75 := HistogramPercentile(buckets, measured, 3);
    s := SummaryFromParts(h.total.n, h.read.n, h.unavailable.n, measured, median, p25, p75, positive, zero);
    SummaryMeans(h.total.n, h.read.n, h.unavailable.n, Measured(h));
  }

  /** A histogram whose totals contradict each other reports no measurement. */
  lemma UntrustedMeans(h: Histogram)
    ensures var s, claimed := Untrusted(h), Claimed(h.buckets);
      && Summarizes(s, 0, 0, if claimed <= MAX_SAFE_INTEGER then claimed else 0, [])
  {
    hide Claimed;
    var claimed := Claimed(h.buckets);
    SummaryMeans(0, 0, if claimed <= MAX_SAFE_INTEGER then claimed else 0, []);
    assert SortShares([]) == [];
  }

  // ---- the values a histogram stands for ----

  /** The responses that the buckets with this share count; a share outside 0 to 100 counts none. */
  function Weight(bs: seq<RawBucket>, v: real): nat {
    if bs == [] then 0 else
    var n := |bs| - 1;
    Weight(bs[..n], v) + WeightOne(bs[n], v)
  }

  function WeightOne(b: RawBucket, v: real): nat {
    if b.share == Some(v) && 0.0 <= v <= 100.0 && IsSafe(b.responses) && b.responses.n > 0 then b.responses.n else 0
  }

  lemma {:induction false} SpreadCounts(n: nat, x: real, v: real)
    ensures multiset(seq(n, _ => x))[v] == if x == v then n else 0
  {
    if n > 0 {
      SpreadCounts(n - 1, x, v);
      assert seq(n, _ => x) == seq(n - 1, _ => x) + [x];
    }
  }

  /** A share occurs as often as the usable buckets say. */
  lemma {:induction false} MeasuredCounts(bs: seq<RawBucket>, v: real)
    ensures multiset(Expand(UsableBuckets(bs)))[v] == Weight(bs, v)
    decreases |bs|
  {
    hide FlatMap;
    if bs == [] {
      FlatMapNone(KeepUsable());
      EmptyExpand();
    } else {
      var front, b := bs[..|bs| - 1], bs[|bs| - 1];
      assert bs == front + [b];
      MeasuredCounts(front, v);
      FlatMapLast(KeepUsable(), front, b);
      if Usable(b) {
        var c := Bucket(b.share.value, b.responses.n);
        FlatMapLast(Spread(), UsableBuckets(front), c);
        SpreadCounts(c.responses, c.share, v);
        assert multiset(Expand(UsableBuckets(bs))) == multiset(Expand(UsableBuckets(front))) + multiset(Spread()(c));
      } else {
        assert UsableBuckets(bs) == UsableBuckets(front);
      }
    }
  }

  // ---- the two forms ----

  /** A summary depends on the shares only up to their order. */
  lemma OrderIsForgotten(total: nat, read: nat, unavailable: nat, a: seq<real>, b: seq<real>)
    requires multiset(a) == multiset(b)
    ensures SummaryOfShares(total, read, unavailable, a) == SummaryOfShares(total, read, unavailable, b)
  {
    hide Sort, Count, SummaryFromParts, Median, Percentile;
    MembersByMultiset(a, b);
    ValuesOrder();
    SortForgetsOrder(a, b, ByValue());
    CountPermutes(a, b, Positive());
  }

  /** Observations and a histogram that counts the same shares have the same summary. */
  lemma FormsAgree(os: seq<Observation>, h: Histogram)
    requires Trusted(h) && multiset(Measured(h)) == multiset(TallyAll(os).shares)
    requires h.total.n == TallyAll(os).total && h.read.n == TallyAll(os).read
      && h.unavailable.n == TallyAll(os).unavailable
    ensures var t := TallyAll(os);
      SummaryOfShares(h.total.n, h.read.n, h.unavailable.n, Measured(h)) ==
        SummaryOfShares(t.total, t.read, t.unavailable, t.shares)
  {
    hide TallyAll, SummaryOfShares, Measured;
    var t := TallyAll(os);
    OrderIsForgotten(t.total, t.read, t.unavailable, Measured(h), t.shares);
  }

  /** The values of any histogram are percentages. */
  lemma MeasuredArePercents(h: Histogram)
    ensures forall k :: 0 <= k < |Measured(h)| ==> 0.0 <= Measured(h)[k] <= 100.0
  {
    hide FlatMap;
    var bs := UsableBuckets(h.buckets);
    forall k | 0 <= k < |Measured(h)| ensures 0.0 <= Measured(h)[k] <= 100.0 {
      var x := Measured(h)[k];
      FlatMapMember(Spread(), bs, x);
      var j :| 0 <= j < |bs| && x in Spread()(bs[j]);
      FlatMapMember(KeepUsable(), h.buckets, bs[j]);
      var i :| 0 <= i < |h.buckets| && bs[j] in KeepUsable()(h.buckets[i]);
    }
  }
}
