/** The cohort report: nothing is lost or counted twice, and a safe subset holds only comparable observations. */
module CohortReport {
  import opened Units
  import opened Seqs
  import opened Sorting
  import opened TextOrder
  import opened FlightTimeline
  import opened CohortSeal
  import opened CohortAnalysis
  import opened CohortSelection

  datatype Subset = Subset(cohortId: Text, ids: SafeIds, count: nat, counts: Counts, contributors: seq<Contributor>)

  datatype UnsealedSummary = UnsealedSummary(count: nat, counts: Counts, contributors: seq<Contributor>)

  datatype Report = Report(
    cohorts: seq<Summary>, subsets: seq<Subset>, unsealed: UnsealedSummary, totals: Totals, blockers: seq<Scoped>)

  // ---- one cohort ----

  function SealOf(): Observation -> seq<Seal> { (o: Observation) => if o.seal.None? then [] else [o.seal.value] }

  function SealsOf(os: seq<Observation>): seq<Seal> { FlatMap(SealOf(), os) }

  ghost function BlockersOf(os: seq<Observation>): seq<Blocker> {
    Dedup(Dedup(FlatMap(MissingBlockers(), SealsOf(os))) + ChangedBlockers(SealsOf(os)) +
      Dedup(FlatMap(TurnBlockersOf(), os)))
  }

  ghost function SummaryOf(host: Host, g: Group): Summary {
    var os := Arrange(host, g.observations);
    var seals := SealsOf(os);
    Summary(
      CohortId(g.seal),
      SafeIds(g.seal.epoch.id,
          if ChangedBlocker(Occurrence) in ChangedBlockers(seals) then None else g.seal.epoch.occurrence,
          g.seal.partition.id),
      if os == [] then [] else os[0].timestamp, if os == [] then [] else os[|os| - 1].timestamp,
      VisibleDimensions(seals), |os|, CountsOf(os), SealsComplete(seals), GradeAll(os),
      SealsComplete(seals) && BlockersOf(os) == [], BlockersOf(os), Contributors(os))
  }

  function KeepEligible(): Observation -> seq<Observation> { (o: Observation) => if TurnEligible(o) then [o] else [] }

  /** The eligible observations of a cohort, in order. */
  function Safe(host: Host, os: seq<Observation>): seq<Observation> { Arrange(host, FlatMap(KeepEligible(), os)) }

  predicate SomethingChanged(blockers: seq<Blocker>) {
    exists k :: 0 <= k < |blockers| && blockers[k].kind == ValueChanged
  }

  ghost function SubsetOf(host: Host, s: Summary, os: seq<Observation>): Option<Subset> {
    if !s.sealsComplete || SomethingChanged(s.blockers) || Safe(host, os) == [] then None
    else Some(Subset(s.cohortId, s.ids, |Safe(host, os)|, CountsOf(Safe(host, os)), Contributors(Safe(host, os))))
  }

  ghost function SafeSubset(host: Host, g: Group): Option<Subset> { SubsetOf(host, SummaryOf(host, g), g.observations) }

  // ---- the whole report ----

  function KeepRetained(): Observation -> seq<Observation> { (o: Observation) => if o.retained then [o] else [] }

  function Retained(host: Host, os: seq<Observation>): seq<Observation> { Arrange(host, FlatMap(KeepRetained(), os)) }

  /** By the first observation of each group, then by name. */
  predicate GroupNotAfter(host: Host, a: Group, b: Group) {
    if a.observations == [] || b.observations == [] then a.observations == []
    else if !NotAfter(host, a.observations[0], b.observations[0]) then false
    else if !NotAfter(host, b.observations[0], a.observations[0]) then true
    else host.rank(CohortId(a.seal)) <= host.rank(CohortId(b.seal))
  }

  function ByFirst(host: Host): (Group, Group) -> bool { (a, b) => GroupNotAfter(host, a, b) }

  function Cohorts(host: Host, os: seq<Observation>): seq<Group> { Sort(GroupsOf(Retained(host, os)), ByFirst(host)) }

  ghost function SummaryIn(host: Host): Group -> seq<Summary> { g => [SummaryOf(host, g)] }

  ghost function SubsetIn(host: Host): Group -> seq<Subset> {
    g => if SafeSubset(host, g).None? then [] else [SafeSubset(host, g).value]
  }

  ghost function UnsealedOf(host: Host, os: seq<Observation>): UnsealedSummary {
    var ordered := Arrange(host, Unsealed(os));
    UnsealedSummary(|ordered|, CountsOf(ordered), Contributors(ordered))
  }

  ghost predicate Reports(host: Host, os: seq<Observation>, r: Report) {
    var retained := Retained(host, os);
    && r.cohorts == FlatMap(SummaryIn(host), Cohorts(host, os))
    && r.subsets == FlatMap(SubsetIn(host), Cohorts(host, os))
    && r.unsealed == UnsealedOf(host, retained)
    && r.totals.observations == |retained| == r.totals.sealed + |Unsealed(retained)|
    && r.totals.unsealed == |Unsealed(retained)| && r.totals.counts == CountsOf(retained)
    && Selects(r.blockers, r.cohorts, r.unsealed.count)
  }

  // ---- computing it ----

  method AllSealsComplete(seals: seq<Seal>, changed: seq<Blocker>) returns (r: bool)
    requires changed == ChangedBlockers(seals)
    ensures r == SealsComplete(seals)
  {
    hide ChangedBlockers, MissingFrom, SaysComplete;
    if |changed| > 0 { return false; }
    for k := 0 to |seals|
      invariant forall j :: 0 <= j < k ==> SaysComplete(seals[j]) && MissingFrom(seals[j]) == {}
    {
      var unavailable := UnavailableDimensions(seals[k]);
      if !SaysComplete(seals[k]) || unavailable != {} { return false; }
    }
    return true;
  }

  method VisibleDimension(seals: seq<Seal>, changed: seq<Blocker>, d: SealDimension) returns (r: Visible)
    requires changed == ChangedBlockers(seals)
    ensures r == VisibleAt(seals, d)
  {
    hide ChangedBlockers, MissingFrom, Snapshot;
    if seals == [] || ChangedBlocker(d) in changed { return Visible(d, None); }
    for k := 0 to |seals|
      invariant forall j :: 0 <= j < k ==> d !in MissingFrom(seals[j])
    {
      var unavailable := UnavailableDimensions(seals[k]);
      if d in unavailable { return Visible(d, None); }
    }
    return Visible(d, Snapshot(seals[0], d));
  }

  method VisibleSealDimensions(seals: seq<Seal>, changed: seq<Blocker>) returns (r: seq<Visible>)
    requires changed == ChangedBlockers(seals)
    ensures r == VisibleDimensions(seals)
  {
    hide ChangedBlockers, VisibleAt;
    r := [];
    for k := 0 to |SEAL_DIMENSIONS|
      invariant |r| == k && forall j :: 0 <= j < k ==> r[j] == VisibleAt(seals, SEAL_DIMENSIONS[j])
    {
      var visible := VisibleDimension(seals, changed, SEAL_DIMENSIONS[k]);
      r := r + [visible];
    }
  }

  method SummarizeCohort(host: Host, g: Group) returns (r: Summary)
    ensures r == SummaryOf(host, g)
  {
    hide Arrange, FlatMap, Dedup, ChangedBlockers, SealsComplete, VisibleDimensions, CountsOf, GradeAll, CohortId;
    var observations := Arrange(host, g.observations);
    var seals := SealsOf(observations);
    var changed := ChangedSealBlockers(seals);
    var sealsComplete := AllSealsComplete(seals, changed);
    var ofSeals := SealBlockers(seals);
    var ofTurns := TurnBlockers(observations);
    var blockers := Dedup(ofSeals + changed + ofTurns);
    var visible := VisibleSealDimensions(seals, changed);
    var counts := CountOutcomes(observations);
    var completeness := CompletenessOf(observations);
    var occurrence := if ChangedBlocker(Occurrence) in changed then None else g.seal.epoch.occurrence;
    var n := |observations|;
    r := Summary(CohortId(g.seal), SafeIds(g.seal.epoch.id, occurrence, g.seal.partition.id),
                 if n == 0 then [] else observations[0].timestamp, if n == 0 then [] else observations[n - 1].timestamp,
                 visible, n, counts, sealsComplete, completeness, sealsComplete && |blockers| == 0, blockers,
                 Contributors(observations));
  }

  method SafeSubsetForSummary(host: Host, s: Summary, os: seq<Observation>) returns (r: Option<Subset>)
    ensures r == SubsetOf(host, s, os)
  {
    hide Safe, CountsOf, Contributors;
    var safe := Safe(host, os);
    if !s.sealsComplete || SomethingChanged(s.blockers) || |safe| == 0 { return None; }
    var counts := CountOutcomes(safe);
    r := Some(Subset(s.cohortId, s.ids, |safe|, counts, Contributors(safe)));
  }

  /** Retained observations grouped, summarised and narrowed to what may be compared. */
  method AnalyzeCohorts(host: Host, os: seq<Observation>) returns (r: Report)
    ensures Reports(host, os, r)
  {
    hide Arrange, FlatMap, SummaryOf, SubsetOf, GroupsOf, Unsealed, CountsOf, Sort, Contributors, Selects;
    var retained := Retained(host, os);
    var groups, unsealed, totals := GroupObservations(retained);
    var entries := Sort(groups, ByFirst(host));
    var cohorts: seq<Summary>, subsets: seq<Subset> := [], [];
    assert entries[..0] == [];
    FlatMapNone(SummaryIn(host));
    FlatMapNone(SubsetIn(host));
    for k := 0 to |entries|
      invariant cohorts == FlatMap(SummaryIn(host), entries[..k]) && subsets == FlatMap(SubsetIn(host), entries[..k])
    {
      FlatMapStep(SummaryIn(host), entries, k);
      FlatMapStep(SubsetIn(host), entries, k);
      var summary := SummarizeCohort(host, entries[k]);
      var subset := SafeSubsetForSummary(host, summary, entries[k].observations);
      cohorts := cohorts + [summary];
      if subset.Some? { subsets := subsets + [subset.value]; }
    }
    assert entries[..|entries|] == entries;
    var ordered := Arrange(host, unsealed);
    var counts := CountOutcomes(ordered);
    var blockers := SelectionBlockers(cohorts, |ordered|);
    r := Report(cohorts, subsets, UnsealedSummary(|ordered|, counts, Contributors(ordered)), totals, blockers);
  }
}
