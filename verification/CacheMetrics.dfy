/** Cache-read statistics from single responses and from a histogram of their shares. */
module CacheMetrics {
  import opened Units
  import opened Decimal
  import opened Seqs
  import opened Sorting
  import opened OrderStatistics

  // ---- one response ----

  /** Token counts as a provider reports them: three additive parts, or a total that includes the cached part. */
  datatype Observation =
    | Additive(uncached: Num, read: Num, written: Num)
    | Inclusive(total: Num, read: Num)

  predicate ValidCount(x: Num) { IsSafe(x) && x.n >= 0 }

  /** The sum, unless a part is no count or the sum leaves the safe integers. */
  function SafeSum(a: Num, b: Num): Option<nat> {
    if ValidCount(a) && ValidCount(b) && a.n + b.n <= MAX_SAFE_INTEGER then Some(a.n + b.n) else None
  }

  datatype Usage = Usage(total: nat, read: nat)

  function TotalOf(o: Observation): Option<nat> {
    match o
    case Inclusive(total, _) => if ValidCount(total) then Some(total.n) else None
    case Additive(uncached, read, written) =>
      var two := SafeSum(uncached, read);
      if two.None? then None else SafeSum(Int(two.value), written)
  }

  function Normalize(o: Observation): Option<Usage> {
    if !ValidCount(o.read) then None else
    var total := TotalOf(o);
    if total.None? || o.read.n > total.value then None else Some(Usage(total.value, o.read.n))
  }

  /** The counts are safe integers that do not contradict each other: this much input, this much of it cached. */
  ghost predicate Reports(o: Observation, total: nat, read: nat) {
    && read <= total <= MAX_SAFE_INTEGER
    && match o
       case Inclusive(t, r) => t == Int(total) && r == Int(read)
       case Additive(u, r, w) => r == Int(read) && u.Int? && w.Int? && u.n >= 0 && w.n >= 0 && u.n + read + w.n == total
  }

  /** What is normalised is exactly what is reported. */
  lemma NormalizeMeans(o: Observation, total: nat, read: nat)
    ensures Normalize(o) == Some(Usage(total, read)) <==> Reports(o, total, read)
  {}

  function Share(u: Usage): real {
    if u.total == 0 then 0.0 else (u.read as real) * 100.0 / (u.total as real)
  }

  // ---- order statistics ----

  function CeilQuarters(quarters: nat, n: nat): nat { (quarters * n + 3) / 4 }

  /** The value at the given number of quarters of a sorted list. */
  function Percentile(xs: seq<real>, quarters: nat): Option<real> {
    if xs == [] then None
    else Some(xs[Max(0, Min(|xs| - 1, CeilQuarters(quarters, |xs|) - 1))])
  }

  function Median(xs: seq<real>): Option<real> {
    if xs == [] then None
    else if |xs| % 2 == 0 then Some((xs[|xs| / 2 - 1] + xs[|xs| / 2]) / 2.0)
    else Some(xs[|xs| / 2])
  }

  /** Rounded to one decimal place, halves up. */
  function RoundPercent(x: Option<real>): Option<real> {
    if x.None? then None else Some((x.value * 10.0 + 0.5).Floor as real / 10.0)
  }

  // ---- the summary ----

  datatype Summary = Summary(
    measured: nat, unavailable: nat, total: nat, read: nat, weighted: Option<real>, median: Option<real>,
    p25: Option<real>, p75: Option<real>, positive: nat, positiveRate: Option<real>, zero: nat, zeroRate: Option<real>)

  function PercentOf(part: nat, whole: nat): Option<real> {
    if whole > 0 then RoundPercent(Some((part as real) * 100.0 / (whole as real))) else None
  }

  function SummaryFromParts(total: nat, read: nat, unavailable: nat, measured: nat, median: Option<real>,
                            p25: Option<real>, p75: Option<real>, positive: nat, zero: nat): Summary {
    Summary(measured, unavailable, total, read,
            if total > 0 then PercentOf(read, total) else if measured > 0 then Some(0.0) else None,
            RoundPercent(median), RoundPercent(p25), RoundPercent(p75),
            positive, PercentOf(positive, measured), zero, PercentOf(zero, measured))
  }

  function ByValue(): (real, real) -> bool { (a: real, b: real) => a <= b }

  function SortShares(xs: seq<real>): seq<real> { Sort(xs, ByValue()) }

  function Positive(): real -> bool { (x: real) => x > 0.0 }

  function CountPositive(xs: seq<real>): nat { Count(xs, Positive()) }

  lemma CountBound(xs: seq<real>)
    ensures CountPositive(xs) <= |xs|
  {
    CountBounds(xs, Positive());
  }

  /** The summary of a plain list of shares, with the totals beside it. */
  function SummaryOfShares(total: nat, read: nat, unavailable: nat, shares: seq<real>): Summary {
    var sorted := SortShares(shares);
    CountBound(shares);
    SummaryFromParts(total, read, unavailable, |shares|, Median(sorted), Percentile(sorted, 1), Percentile(sorted, 3),
                     CountPositive(shares), |shares| - CountPositive(shares))
  }

  // ---- from single responses ----

  /** The running totals of the loop over the observations. */
  datatype Tally = Tally(total: nat, read: nat, unavailable: nat, shares: seq<real>)

  function TallyOne(t: Tally, o: Observation): Tally {
    var u := Normalize(o);
    if u.None? then t.(unavailable := t.unavailable + 1) else
    var total, read := SafeSum(Int(t.total), Int(u.value.total)), SafeSum(Int(t.read), Int(u.value.read));
    if total.None? || read.None? then t.(unavailable := t.unavailable + 1)
    else Tally(total.value, read.value, t.unavailable, t.shares + [Share(u.value)])
  }

  function TallyAll(os: seq<Observation>): Tally {
    if os == [] then Tally(0, 0, 0, []) else TallyOne(TallyAll(os[..|os| - 1]), os[|os| - 1])
  }

  /** A share is positive exactly when something was read from the cache. */
  lemma ShareBounds(u: Usage)
    requires u.read <= u.total
    ensures 0.0 <= Share(u) <= 100.0 && (Share(u) > 0.0 <==> u.read > 0)
    ensures u.total > 0 ==> Share(u) * (u.total as real) == 100.0 * (u.read as real)
  {
    if u.total > 0 {
      var r, t, s := u.read as real, u.total as real, Share(u);
      assert s * t == r * 100.0;
      assert s < 0.0 ==> s * t < 0.0;
      assert s > 100.0 ==> s * t > 100.0 * t;
      assert s > 0.0 ==> s * t > 0.0;
    }
  }

  lemma NormalizedBounds(o: Observation)
    ensures Normalize(o).Some? ==> Normalize(o).value.read <= Normalize(o).value.total
  {}

  lemma TallyStep(os: seq<Observation>, k: nat)
    requires k < |os|
    ensures TallyAll(os[..k + 1]) == TallyOne(TallyAll(os[..k]), os[k])
  {
    assert os[..k + 1][..k] == os[..k];
  }

  lemma CountStep(xs: seq<real>, x: real)
    ensures CountPositive(xs + [x]) == CountPositive(xs) + if x > 0.0 then 1 else 0
  {
    CountLast(xs, x, Positive());
  }

  /** The loop over the observations: its counters are the tally of the observations so far. */
  method TallyObservations(os: seq<Observation>)
    returns (total: nat, read: nat, unavailable: nat, shares: seq<real>, positive: nat, zero: nat)
    ensures Tally(total, read, unavailable, shares) == TallyAll(os)
    ensures positive == CountPositive(shares) && zero == |shares| - positive
  {
    hide Share, SafeSum, Normalize, TallyAll, CountPositive;
    total, read, unavailable, shares, positive, zero := 0, 0, 0, [], 0, 0;
    assert os[..0] == [] && TallyAll([]) == Tally(0, 0, 0, []) && CountPositive([]) == 0 by { EmptyTally(); }
    for k := 0 to |os|
      invariant Tally(total, read, unavailable, shares) == TallyAll(os[..k])
      invariant positive == CountPositive(shares) && zero == |shares| - positive
    {
      TallyStep(os, k);
      var normalized := Normalize(os[k]);
      if normalized.None? {
        unavailable := unavailable + 1;
        continue;
      }
      var usage := normalized.value;
      var nextTotal, nextRead := SafeSum(Int(total), Int(usage.total)), SafeSum(Int(read), Int(usage.read));
      if nextTotal.None? || nextRead.None? {
        unavailable := unavailable + 1;
        continue;
      }
      NormalizedBounds(os[k]);
      ShareBounds(usage);
      CountStep(shares, Share(usage));
      total, read, shares := nextTotal.value, nextRead.value, shares + [Share(usage)];
      if usage.read > 0 { positive := positive + 1; } else { zero := zero + 1; }
    }
    assert os[..|os|] == os;
  }

  lemma EmptyTally()
    ensures TallyAll([]) == Tally(0, 0, 0, []) && CountPositive([]) == 0
  {}

  method SummarizeObservations(os: seq<Observation>) returns (s: Summary)
    ensures var t := TallyAll(os); s == SummaryOfShares(t.total, t.read, t.unavailable, t.shares)
    ensures var t := TallyAll(os); Summarizes(s, t.total, t.read, t.unavailable, t.shares)
  {
    hide SortShares, SummaryFromParts, Median, Percentile, TallyAll, CountPositive, Summarizes;
    var total, read, unavailable, shares, positive, zero := TallyObservations(os);
    var sorted := SortShares(shares);
    s := SummaryFromParts(total, read, unavailable, |shares|, Median(sorted),
                          Percentile(sorted, 1), Percentile(sorted, 3), positive, zero);
    SummaryMeans(total, read, unavailable, shares);
  }

  // ---- what the tally holds ----

  function Totals(us: seq<Option<Usage>>): nat {
    if us == [] then 0 else
    var n := |us| - 1;
    Totals(us[..n]) + if us[n].Some? then us[n].value.total else 0
  }

  function Reads(us: seq<Option<Usage>>): nat {
    if us == [] then 0 else
    var n := |us| - 1;
    Reads(us[..n]) + if us[n].Some? then us[n].value.read else 0
  }

  function Missing(us: seq<Option<Usage>>): nat {
    if us == [] then 0 else
    var n := |us| - 1;
    Missing(us[..n]) + if us[n].Some? then 0 else 1
  }

  /** The shares of the input that came from the cache, of those measured. */
  function Shares(us: seq<Option<Usage>>): seq<real> {
    if us == [] then [] else
    var n := |us| - 1;
    Shares(us[..n]) + if us[n].Some? then [Share(us[n].value)] else []
  }

  /** Each observation is measured if it reports counts that keep the running total a safe integer. */
  ghost predicate Measures(os: seq<Observation>, us: seq<Option<Usage>>) {
    && |us| == |os|
    && forall k :: 0 <= k < |os| ==> MeasuredAs(os[k], us[k], Totals(us[..k]))
  }

  ghost predicate MeasuredAs(o: Observation, u: Option<Usage>, before: nat) {
    if u.Some? then Reports(o, u.value.total, u.value.read) && before + u.value.total <= MAX_SAFE_INTEGER
    else forall total: nat, read: nat :: Reports(o, total, read) ==> before + total > MAX_SAFE_INTEGER
  }

  lemma StepMeasures(t: Tally, o: Observation) returns (u: Option<Usage>)
    requires t.read <= t.total
    ensures MeasuredAs(o, u, t.total)
    ensures TallyOne(t, o) == if u.None? then t.(unavailable := t.unavailable + 1)
      else Tally(t.total + u.value.total, t.read + u.value.read, t.unavailable, t.shares + [Share(u.value)])
    ensures u.Some? ==> u.value.read <= u.value.total
  {
    hide Share, Reports;
    forall total: nat, read: nat ensures Normalize(o) == Some(Usage(total, read)) <==> Reports(o, total, read) {
      NormalizeMeans(o, total, read);
    }
    NormalizedBounds(o);
    u := Normalize(o);
    if u.Some? {
      assert Usage(u.value.total, u.value.read) == u.value;
      if t.total + u.value.total > MAX_SAFE_INTEGER { u := None; }
    }
  }

  lemma MeasuresMore(os: seq<Observation>, us: seq<Option<Usage>>, o: Observation, u: Option<Usage>)
    requires Measures(os, us) && MeasuredAs(o, u, Totals(us))
    ensures Measures(os + [o], us + [u])
  {
    hide Totals, MeasuredAs;
    var more := us + [u];
    forall k | 0 <= k < |os| + 1 ensures MeasuredAs((os + [o])[k], more[k], Totals(more[..k])) {
      if k < |us| { assert more[..k] == us[..k]; } else { assert more[..k] == us; }
    }
  }

  lemma UsagesLast(us: seq<Option<Usage>>, u: Option<Usage>)
    ensures Totals(us + [u]) == Totals(us) + if u.Some? then u.value.total else 0
    ensures Reads(us + [u]) == Reads(us) + if u.Some? then u.value.read else 0
    ensures Missing(us + [u]) == Missing(us) + if u.Some? then 0 else 1
    ensures Shares(us + [u]) == Shares(us) + if u.Some? then [Share(u.value)] else []
  {
    hide Share;
    assert (us + [u])[..|us|] == us;
  }

  /** The tally is the sums, the count and the shares of what is measured. */
  lemma {:induction false} TallyMeans(os: seq<Observation>) returns (us: seq<Option<Usage>>)
    ensures Measures(os, us) && TallyAll(os) == Tally(Totals(us), Reads(us), Missing(us), Shares(us))
    ensures Reads(us) <= Totals(us)
    decreases |os|
  {
    hide Share, TallyOne, Measures, MeasuredAs, Totals, Reads, Missing, Shares;
    if os == [] {
      us := [];
      NothingTallied();
    } else {
      var n := |os| - 1;
      var front := TallyMeans(os[..n]);
      var u := StepMeasures(TallyAll(os[..n]), os[n]);
      us := front + [u];
      UsagesLast(front, u);
      MeasuresMore(os[..n], front, os[n], u);
      assert os == os[..n] + [os[n]];
    }
  }

  lemma NothingTallied()
    ensures Measures([], []) && Totals([]) == 0 && Reads([]) == 0 && Missing([]) == 0 && Shares([]) == []
  {}

  /** Every observation is either measured or unavailable, and what is measured is consistent. */
  lemma {:induction false} TallyAccounts(os: seq<Observation>)
    ensures var t := TallyAll(os);
      && |t.shares| + t.unavailable == |os| && t.read <= t.total <= MAX_SAFE_INTEGER
      && forall k :: 0 <= k < |t.shares| ==> 0.0 <= t.shares[k] <= 100.0
    decreases |os|
  {
    hide Share;
    if os != [] {
      var n := |os| - 1;
      TallyAccounts(os[..n]);
      NormalizedBounds(os[n]);
      if Normalize(os[n]).Some? { ShareBounds(Normalize(os[n]).value); }
    }
  }

  // ---- what every summary keeps ----

  lemma ValuesOrder()
    ensures Preorder(ByValue())
  {}

  lemma SortedShares(xs: seq<real>)
    ensures var s := SortShares(xs);
      && |s| == |xs| && multiset(s) == multiset(xs)
      && forall i, j :: 0 <= i <= j < |s| ==> s[i] <= s[j]
  {
    ValuesOrder();
    SortSorts(xs, ByValue());
    SortPermutes(xs, ByValue());
    var s := SortShares(xs);
    forall i, j | 0 <= i <= j < |s| ensures s[i] <= s[j] {
      if i < j { assert ByValue()(s[i], s[j]); }
    }
  }

  lemma RoundKeeps(x: real, y: real)
    requires 0.0 <= x <= y <= 100.0
    ensures 0.0 <= RoundPercent(Some(x)).value <= RoundPercent(Some(y)).value <= 100.0
  {
    var a, b := (x * 10.0 + 0.5).Floor, (y * 10.0 + 0.5).Floor;
    assert 0 <= a <= b <= 1000;
    assert 0.0 <= a as real <= b as real <= 1000.0;
  }

  predicate Percents(low: Option<real>, mid: Option<real>, high: Option<real>) {
    && low.Some? && mid.Some? && high.Some?
    && 0.0 <= low.value <= mid.value <= high.value <= 100.0
  }

  /** Of any list of percentages that is not empty, the quartiles are in order. */
  lemma QuartilesInOrder(shares: seq<real>)
    requires shares != [] && forall k :: 0 <= k < |shares| ==> 0.0 <= shares[k] <= 100.0
    ensures var s := SortShares(shares); Percents(Percentile(s, 1), Median(s), Percentile(s, 3))
  {
    hide SortShares;
    var s, n := SortShares(shares), |shares|;
    SortedShares(shares);
    MembersByMultiset(s, shares);
    forall k | 0 <= k < n ensures 0.0 <= s[k] <= 100.0 { assert s[k] in shares; }
    RanksInOrder(n);
  }

  lemma RanksInOrder(n: nat)
    requires n > 0
    ensures 1 <= CeilQuarters(1, n) <= (n + 1) / 2 <= n / 2 + 1 <= n + n % 2
    ensures n / 2 + 1 <= CeilQuarters(3, n) <= n
  {}

  lemma SharePercents(part: nat, whole: nat)
    requires part <= whole && whole > 0
    ensures 0.0 <= (part as real) * 100.0 / (whole as real) <= 100.0
  {
    ShareBounds(Usage(whole, part));
  }

  /**
   A summary with measurements reports ordered quartiles and rates, all of them percentages; one without reports none.
   */
  lemma SummariesAreSound(total: nat, read: nat, unavailable: nat, shares: seq<real>)
    requires read <= total && forall k :: 0 <= k < |shares| ==> 0.0 <= shares[k] <= 100.0
    ensures var s := SummaryOfShares(total, read, unavailable, shares);
      && s.measured == |shares| == s.positive + s.zero
      && (shares != [] ==> Percents(s.p25, s.median, s.p75))
      && (shares != [] ==>
        Percents(Some(0.0), s.positiveRate, Some(100.0)) && Percents(Some(0.0), s.zeroRate, Some(100.0)))
      && (shares == [] ==> s.p25.None? && s.median.None? && s.p75.None? && s.positiveRate.None? && s.zeroRate.None?)
      && (s.weighted.Some? ==> Percents(Some(0.0), s.weighted, Some(100.0)))
      && (s.weighted.Some? <==> total > 0 || shares != [])
  {
    hide SortShares, RoundPercent, Median, Percentile, CountPositive;
    SortedShares(shares);
    CountBound(shares);
    if total > 0 { RatesAreSound(read, total); }
    if shares != [] {
      var s := SortShares(shares);
      QuartilesInOrder(shares);
      RoundKeeps(Percentile(s, 1).value, Median(s).value);
      RoundKeeps(Median(s).value, Percentile(s, 3).value);
      RoundedIsSome(Percentile(s, 1).value, Median(s).value, Percentile(s, 3).value);
      RatesAreSound(CountPositive(shares), |shares|);
      RatesAreSound(|shares| - CountPositive(shares), |shares|);
    } else {
      NothingMeasured();
    }
  }

  lemma RoundedIsSome(x: real, y: real, z: real)
    ensures RoundPercent(Some(x)).Some? && RoundPercent(Some(y)).Some? && RoundPercent(Some(z)).Some?
  {}

  lemma NothingMeasured()
    ensures RoundPercent(Median([])).None? && RoundPercent(Percentile([], 1)).None?
      && RoundPercent(Percentile([], 3)).None?
  {}

  lemma RatesAreSound(part: nat, whole: nat)
    requires part <= whole && whole > 0
    ensures Percents(Some(0.0), PercentOf(part, whole), Some(100.0))
  {
    hide RoundPercent;
    SharePercents(part, whole);
    var x := (part as real) * 100.0 / (whole as real);
    RoundKeeps(x, x);
    RoundedIsSome(x, x, x);
  }

  // ---- what a summary says ----

  ghost predicate RoundedRatio(r: Option<real>, part: nat, whole: nat) {
    if whole == 0 then r.None? else r.Some? && IsRounded(r.value, (part as real) * 100.0 / (whole as real))
  }

  ghost predicate RoundedQuartile(r: Option<real>, xs: seq<real>, quarters: nat) {
    if xs == [] then r.None? else r.Some? && exists x :: IsQuartile(x, xs, quarters) && IsRounded(r.value, x)
  }

  ghost predicate RoundedMedian(r: Option<real>, xs: seq<real>) {
    if xs == [] then r.None? else r.Some? && exists x :: IsMedian(x, xs) && IsRounded(r.value, x)
  }

  /** Counts are exact and percentages are rounded to tenths; the shares may be in any order. */
  ghost predicate Summarizes(s: Summary, total: nat, read: nat, unavailable: nat, shares: seq<real>) {
    && s.total == total && s.read == read && s.unavailable == unavailable && s.measured == |shares|
    && s.positive == Count(shares, Positive()) && s.positive + s.zero == s.measured
    && (if total == 0 && shares != [] then s.weighted == Some(0.0) else RoundedRatio(s.weighted, read, total))
    && RoundedRatio(s.positiveRate, s.positive, s.measured) && RoundedRatio(s.zeroRate, s.zero, s.measured)
    && RoundedQuartile(s.p25, shares, 1) && RoundedMedian(s.median, shares) && RoundedQuartile(s.p75, shares, 3)
  }

  lemma RoundsToTenths(x: real)
    ensures RoundPercent(Some(x)).Some? && IsRounded(RoundPercent(Some(x)).value, x)
  {
    var tenths := (x * 10.0 + 0.5).Floor;
    var r := RoundPercent(Some(x)).value;
    assert 10.0 * r == tenths as real;
  }

  lemma RatioRounds(part: nat, whole: nat)
    ensures RoundedRatio(PercentOf(part, whole), part, whole)
  {
    hide RoundPercent, IsRounded;
    if whole > 0 { RoundsToTenths((part as real) * 100.0 / (whole as real)); }
  }

  lemma QuartileRounds(xs: seq<real>, quarters: nat)
    requires quarters in {1, 3}
    ensures RoundedQuartile(RoundPercent(Percentile(SortShares(xs), quarters)), xs, quarters)
  {
    hide SortShares, IsQuartile, IsRounded;
    var s, n := SortShares(xs), |xs|;
    SortedShares(xs);
    if n == 0 {
      assert RoundPercent(None) == None;
    } else {
      RanksInOrder(n);
      var i := CeilQuarters(quarters, n) - 1;
      QuartileAt(s, quarters, i);
      QuartilePermutes(s[i], s, xs, quarters);
      RoundsToTenths(s[i]);
    }
  }

  lemma MedianRounds(xs: seq<real>)
    ensures RoundedMedian(RoundPercent(Median(SortShares(xs))), xs)
  {
    hide SortShares, IsMedian, IsRounded;
    var s, n := SortShares(xs), |xs|;
    SortedShares(xs);
    if n == 0 {
      assert RoundPercent(None) == None;
    } else {
      var v := Median(s).value;
      MedianAt(s, (n - 1) / 2, n / 2, v);
      MedianPermutes(v, s, xs);
      RoundsToTenths(v);
    }
  }

  /** The summary of a list of shares says of the list what it seems to say. */
  lemma SummaryMeans(total: nat, read: nat, unavailable: nat, shares: seq<real>)
    ensures Summarizes(SummaryOfShares(total, read, unavailable, shares), total, read, unavailable, shares)
  {
    hide SortShares, RoundPercent, Median, Percentile, RoundedRatio, RoundedQuartile, RoundedMedian, PercentOf, Count;
    CountBound(shares);
    SortedShares(shares);
    RatioRounds(read, total);
    RatioRounds(CountPositive(shares), |shares|);
    RatioRounds(|shares| - CountPositive(shares), |shares|);
    QuartileRounds(shares, 1);
    QuartileRounds(shares, 3);
    MedianRounds(shares);
    NoRatio(read);
  }

  lemma NoRatio(part: nat)
    ensures RoundedRatio(None, part, 0)
  {}
}
