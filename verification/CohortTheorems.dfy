/** What the cohort report promises about every observation. */
module CohortTheorems {
  import opened Units
  import opened Seqs
  import opened Sorting
  import opened TextOrder
  import opened FlightTimeline
  import opened CohortSeal
  import opened CohortAnalysis
  import opened CohortSelection
  import opened CohortReport

  // ---- the partition ----

  function ObservationsOf(): Group -> seq<Observation> { (g: Group) => g.observations }

  function Flatten(groups: seq<Group>): seq<Observation> { FlatMap(ObservationsOf(), groups) }

  lemma FlattenAppend(groups: seq<Group>, g: Group)
    ensures Flatten(groups + [g]) == Flatten(groups) + g.observations
  {
    FlatMapAppend(ObservationsOf(), groups, [g]);
    FlatMapOne(ObservationsOf(), g);
  }

  lemma FlattenUpdate(groups: seq<Group>, j: nat, o: Observation)
    requires j < |groups|
    ensures multiset(Flatten(groups[j := Joined(groups[j], o)])) ==
      multiset(Flatten(groups)) + multiset{o}
  {
    hide FlatMap;
    var g, h := groups[j], Joined(groups[j], o);
    var left, right := groups[..j], groups[j + 1..];
    assert groups == left + ([g] + right) && groups[j := h] == left + ([h] + right);
    FlatMapAppend(ObservationsOf(), left, [g] + right);
    FlatMapAppend(ObservationsOf(), left, [h] + right);
    FlatMapAppend(ObservationsOf(), [g], right);
    FlatMapAppend(ObservationsOf(), [h], right);
    FlatMapOne(ObservationsOf(), g);
    FlatMapOne(ObservationsOf(), h);
  }

  /** Every observation is in exactly one group or among the unsealed ones. */
  lemma {:induction false} GroupsPartition(os: seq<Observation>)
    ensures multiset(Flatten(GroupsOf(os)) + Unsealed(os)) == multiset(os)
    decreases |os|
  {
    hide GroupsOf, Unsealed, Flatten, CohortId;
    if os == [] {
      NoGroups();
      EmptyFlatten();
    } else {
      var front, o := os[..|os| - 1], os[|os| - 1];
      GroupsPartition(front);
      assert os == front + [o];
      if o.seal.None? {
        UnsealedStep(front, o);
      } else if j :| 0 <= j < |GroupsOf(front)| && CohortId(GroupsOf(front)[j].seal) == CohortId(o.seal.value) {
        SealedOldStep(front, o, j);
        FlattenUpdate(GroupsOf(front), j, o);
      } else {
        SealedNewStep(front, o);
        FlattenAppend(GroupsOf(front), Group(o.seal.value, [o]));
      }
    }
  }

  lemma EmptyFlatten()
    ensures Flatten([]) == []
  {}

  lemma Arranged(host: Host, os: seq<Observation>)
    ensures multiset(Arrange(host, os)) == multiset(os) && |Arrange(host, os)| == |os|
  {
    SortPermutes(os, ByTime(host));
  }

  /** The groups of a report and its unsealed observations together are what was retained. */
  lemma CohortsPartition(host: Host, os: seq<Observation>)
    ensures multiset(Flatten(Cohorts(host, os)) + Unsealed(Retained(host, os))) == multiset(Retained(host, os))
    ensures multiset(Retained(host, os)) == multiset(FlatMap(KeepRetained(), os))
  {
    hide FlatMap, GroupsOf, Sort, Arrange;
    var retained := Retained(host, os);
    Arranged(host, FlatMap(KeepRetained(), os));
    GroupsPartition(retained);
    SortPermutes(GroupsOf(retained), ByFirst(host));
    FlatMapPermutes(ObservationsOf(), Cohorts(host, os), GroupsOf(retained));
  }

  /** A group of the report holds exactly the retained observations with its name, and no two groups share a name. */
  lemma CohortsByName(host: Host, os: seq<Observation>)
    ensures forall g :: g in Cohorts(host, os) ==>
      g.observations == Cohort(Retained(host, os), CohortId(g.seal)) != [] && g.observations[0].seal == Some(g.seal)
    ensures Distinct(Cohorts(host, os))
    ensures forall g, h | g in Cohorts(host, os) && h in Cohorts(host, os) && CohortId(g.seal) == CohortId(h.seal) ::
      g == h
  {
    hide Retained, Sort, CohortId, Cohort, Ids;
    var retained := Retained(host, os);
    var groups := GroupsOf(retained);
    SortPermutes(groups, ByFirst(host));
    MembersByMultiset(Cohorts(host, os), groups);
    forall k | 0 <= k < |groups| ensures NamedGroup(retained, groups[k], k) { NamedGroups(retained, k); }
    DistinctIds(retained);
    DistinctPermutes(Cohorts(host, os), groups);
    forall g | g in Cohorts(host, os) ensures exists k ::
      0 <= k < |groups| && groups[k] == g && NamedGroup(retained, g, k) {
      var k :| 0 <= k < |groups| && groups[k] == g;
      assert NamedGroup(retained, g, k);
    }
  }

  ghost predicate NamedGroup(retained: seq<Observation>, g: Group, k: nat) {
    && k < |Ids(retained)| && CohortId(g.seal) == Ids(retained)[k]
    && g.observations == Cohort(retained, CohortId(g.seal)) != [] && g.observations[0].seal == Some(g.seal)
  }

  lemma NamedGroups(retained: seq<Observation>, k: nat)
    requires k < |GroupsOf(retained)|
    ensures NamedGroup(retained, GroupsOf(retained)[k], k)
  {
    hide CohortId, Cohort, Ids;
    var id := Ids(retained)[k];
    GroupId(retained, k);
    CohortsAreInhabited(retained, id);
    CohortMember(retained, id, Cohort(retained, id)[0]);
  }

  // ---- totals ----

  function ContributorsIn(): Summary -> seq<Contributor> { (s: Summary) => s.contributors }

  function SumCounts(ss: seq<Summary>): Counts {
    if ss == [] then Counts(0, 0, 0) else Plus(SumCounts(ss[..|ss| - 1]), ss[|ss| - 1].counts)
  }

  function SumSizes(ss: seq<Summary>): nat {
    if ss == [] then 0 else SumSizes(ss[..|ss| - 1]) + ss[|ss| - 1].count
  }

  lemma SumStep(ss: seq<Summary>, s: Summary)
    ensures SumCounts(ss + [s]) == Plus(SumCounts(ss), s.counts) && SumSizes(ss + [s]) == SumSizes(ss) + s.count
  {
    assert (ss + [s])[..|ss|] == ss;
  }

  /** What a cohort reports of its size, outcomes and contributors is that of its observations. */
  lemma SummaryCounts(host: Host, g: Group)
    ensures var s := SummaryOf(host, g);
      && s.count == |g.observations| && s.counts == CountsOf(g.observations)
      && multiset(s.contributors) == multiset(Contributors(g.observations))
  {
    hide Arrange, CountsOf, FlatMap, BlockersOf, SealsComplete, VisibleDimensions, GradeAll;
    Arranged(host, g.observations);
    CountsPermute(Arrange(host, g.observations), g.observations);
    FlatMapPermutes(Contribute(), Arrange(host, g.observations), g.observations);
  }

  lemma EmptySummaries(host: Host)
    ensures FlatMap(SummaryIn(host), []) == [] && FlatMap(ContributorsIn(), []) == [] && Contributors([]) == []
  {}

  lemma {:induction false} SummariesCount(host: Host, groups: seq<Group>)
    ensures var ss := FlatMap(SummaryIn(host), groups);
      && SumSizes(ss) == |Flatten(groups)| && SumCounts(ss) == CountsOf(Flatten(groups))
      && multiset(FlatMap(ContributorsIn(), ss)) == multiset(Contributors(Flatten(groups)))
    decreases |groups|
  {
    hide SummaryOf, CountsOf, FlatMap, Flatten, Contributors;
    if groups == [] {
      EmptySummaries(host);
      EmptyFlatten();
      EmptyCounts();
    } else {
      var n := |groups| - 1;
      var front, g := groups[..n], groups[n];
      var ss, s := FlatMap(SummaryIn(host), front), SummaryOf(host, g);
      SummariesCount(host, front);
      assert groups == front + [g];
      FlatMapAppend(SummaryIn(host), front, [g]);
      FlatMapOne(SummaryIn(host), g);
      SumStep(ss, s);
      SummaryCounts(host, g);
      FlattenAppend(front, g);
      CountsAppend(Flatten(front), g.observations);
      FlatMapAppend(ContributorsIn(), ss, [s]);
      FlatMapOne(ContributorsIn(), s);
      ContributorsAppend(Flatten(front), g.observations);
    }
  }

  lemma ContributorsAppend(a: seq<Observation>, b: seq<Observation>)
    ensures Contributors(a + b) == Contributors(a) + Contributors(b)
  {
    FlatMapAppend(Contribute(), a, b);
  }

  lemma ContributorsPermute(a: seq<Observation>, b: seq<Observation>)
    requires multiset(a) == multiset(b)
    ensures multiset(Contributors(a)) == multiset(Contributors(b))
  {
    FlatMapPermutes(Contribute(), a, b);
  }

  /**
   Nothing retained is lost or counted twice: sizes, outcomes and contributors of the cohorts and the unsealed group
   add up.
   */
  lemma ReportAddsUp(host: Host, os: seq<Observation>, r: Report)
    requires Reports(host, os, r)
    ensures SumSizes(r.cohorts) + r.unsealed.count == r.totals.observations == |FlatMap(KeepRetained(), os)|
    ensures SumSizes(r.cohorts) == r.totals.sealed && r.unsealed.count == r.totals.unsealed
    ensures Plus(SumCounts(r.cohorts), r.unsealed.counts) == r.totals.counts == CountsOf(FlatMap(KeepRetained(), os))
    ensures multiset(FlatMap(ContributorsIn(), r.cohorts) + r.unsealed.contributors) ==
      multiset(Contributors(FlatMap(KeepRetained(), os)))
  {
    hide FlatMap, CountsOf, Flatten, Contributors, Unsealed, Arrange, Cohorts, SumSizes, SumCounts;
    var retained, entries := Retained(host, os), Cohorts(host, os);
    var kept, flat, loose := FlatMap(KeepRetained(), os), Flatten(entries), Unsealed(retained);
    CohortsPartition(host, os);
    SummariesCount(host, entries);
    Arranged(host, loose);
    Arranged(host, kept);
    MembersByMultiset(flat + loose, retained);
    CountsPermute(Arrange(host, loose), loose);
    CountsPermute(flat + loose, retained);
    CountsPermute(retained, kept);
    CountsAppend(flat, loose);
    ContributorsPermute(Arrange(host, loose), loose);
    ContributorsPermute(flat + loose, kept);
    ContributorsAppend(flat, loose);
  }

  // ---- safe subsets ----

  lemma SealMember(os: seq<Observation>, s: Seal)
    ensures s in SealsOf(os) <==> exists k :: 0 <= k < |os| && os[k].seal == Some(s)
  {
    FlatMapMember(SealOf(), os, s);
    if s in SealsOf(os) {
      var k :| 0 <= k < |os| && s in SealOf()(os[k]);
      assert os[k].seal == Some(s);
    }
    if k :| 0 <= k < |os| && os[k].seal == Some(s) { assert s in SealOf()(os[k]); }
  }

  /** Both observations carry a fully known seal, and the seals agree on all ten selection dimensions. */
  ghost predicate Comparable(a: Observation, b: Observation) {
    && a.seal.Some? && b.seal.Some? && MissingFrom(a.seal.value) == {} && MissingFrom(b.seal.value) == {}
      && Agree(a.seal.value, b.seal.value)
  }

  ghost predicate AllComparable(os: seq<Observation>) {
    forall i, j :: 0 <= i < |os| && 0 <= j < |os| ==> Comparable(os[i], os[j])
  }

  /** A cohort of sealed observations has complete seals exactly when any two of its observations are comparable. */
  lemma CompleteIffComparable(host: Host, os: seq<Observation>)
    requires forall k :: 0 <= k < |os| ==> os[k].seal.Some?
    ensures SealsComplete(SealsOf(Arrange(host, os))) <==> AllComparable(os)
  {
    hide SealsOf, Arrange, SealsComplete, MissingFrom, Agree;
    var sorted := Arrange(host, os);
    var seals := SealsOf(sorted);
    Arranged(host, os);
    MembersByMultiset(sorted, os);
    CompleteIffAgreeing(seals);
    forall s ensures s in seals <==> exists k :: 0 <= k < |os| && os[k].seal == Some(s) {
      SealMember(sorted, s);
      if k :| 0 <= k < |sorted| && sorted[k].seal == Some(s) {
        assert sorted[k] in os;
        var j :| 0 <= j < |os| && os[j] == sorted[k];
        assert os[j].seal == Some(s);
      }
      if j :| 0 <= j < |os| && os[j].seal == Some(s) {
        assert os[j] in sorted;
        var k :| 0 <= k < |sorted| && sorted[k] == os[j];
        assert sorted[k].seal == Some(s);
      }
    }
    if SealsComplete(seals) {
      forall i, j | 0 <= i < |os| && 0 <= j < |os| ensures Comparable(os[i], os[j]) {
        assert os[i].seal == Some(os[i].seal.value) && os[j].seal == Some(os[j].seal.value);
        assert os[i].seal.value in seals && os[j].seal.value in seals;
        var a :| 0 <= a < |seals| && seals[a] == os[i].seal.value;
        var b :| 0 <= b < |seals| && seals[b] == os[j].seal.value;
        assert Agree(seals[a], seals[b]);
      }
    }
    if AllComparable(os) {
      forall a, b | 0 <= a < |seals| && 0 <= b < |seals|
        ensures MissingFrom(seals[a]) == {} && Agree(seals[a], seals[b]) {
        assert seals[a] in seals && seals[b] in seals;
        var i :| 0 <= i < |os| && os[i].seal == Some(seals[a]);
        var j :| 0 <= j < |os| && os[j].seal == Some(seals[b]);
        assert Comparable(os[i], os[j]);
      }
    }
  }

  lemma {:induction false} EligibleMembers(os: seq<Observation>)
    ensures |FlatMap(KeepEligible(), os)| <= |os|
    ensures |FlatMap(KeepEligible(), os)| == |os| <==> AllEligible(os)
    ensures AllEligible(os) ==> FlatMap(KeepEligible(), os) == os
    decreases |os|
  {
    hide TurnEligible;
    if os != [] {
      var n := |os| - 1;
      EligibleMembers(os[..n]);
      assert os == os[..n] + [os[n]];
    }
  }

  lemma AllEligiblePermutes(a: seq<Observation>, b: seq<Observation>)
    requires multiset(a) == multiset(b)
    ensures AllEligible(a) <==> AllEligible(b)
  {
    hide TurnEligible;
    MembersByMultiset(a, b);
    if AllEligible(a) {
      forall k | 0 <= k < |b| ensures TurnEligible(b[k]) { assert b[k] in a; }
    }
    if AllEligible(b) {
      forall k | 0 <= k < |a| ensures TurnEligible(a[k]) { assert a[k] in b; }
    }
  }

  lemma NoBlockers(os: seq<Observation>)
    ensures BlockersOf(os) == [] <==>
      FlatMap(MissingBlockers(), SealsOf(os)) == [] && ChangedBlockers(SealsOf(os)) == []
        && FlatMap(TurnBlockersOf(), os) == []
  {
    hide FlatMap, SealsOf, ChangedBlockers, Dedup;
    var a, b, c := FlatMap(MissingBlockers(), SealsOf(os)), ChangedBlockers(SealsOf(os)), FlatMap(TurnBlockersOf(), os);
    DedupEmpty(a);
    DedupEmpty(c);
    DedupEmpty(Dedup(a) + b + Dedup(c));
  }

  /** A cohort is eligible exactly when its seals are complete and every turn is eligible. */
  lemma EligibleMeans(host: Host, g: Group)
    ensures SummaryOf(host, g).eligible <==>
      SealsComplete(SealsOf(Arrange(host, g.observations))) && AllEligible(g.observations)
  {
    hide FlatMap, ChangedBlockers, MissingFrom, BlockersOf, Arrange, CountsOf, VisibleDimensions, GradeAll;
    hide SaysComplete;
    var os := Arrange(host, g.observations);
    NoBlockers(os);
    NoTurnBlockers(os);
    NoSealBlockers(SealsOf(os));
    Arranged(host, g.observations);
    AllEligiblePermutes(os, g.observations);
  }

  ghost predicate NoneChanged(bs: seq<Blocker>) { forall b :: b in bs ==> b.kind == ValueUnknown }

  lemma {:induction false} MissingAreUnknown(seals: seq<Seal>)
    ensures NoneChanged(FlatMap(MissingBlockers(), seals))
    decreases |seals|
  {
    hide MissingFrom, Pick;
    if seals != [] {
      var n := |seals| - 1;
      MissingAreUnknown(seals[..n]);
      PickMembers(SEAL_DIMENSIONS, d => d in MissingFrom(seals[n]), d => UnknownBlocker(d));
    }
  }

  lemma {:induction false} TurnsAreUnknown(os: seq<Observation>)
    ensures NoneChanged(FlatMap(TurnBlockersOf(), os))
    decreases |os|
  {
    if os != [] {
      TurnsAreUnknown(os[..|os| - 1]);
    }
  }

  /** Complete seals leave no blocker that speaks of a change. */
  lemma CompleteHasNoChange(os: seq<Observation>)
    requires SealsComplete(SealsOf(os))
    ensures !SomethingChanged(BlockersOf(os))
  {
    hide FlatMap, Dedup, SealsOf, ChangedBlockers, MissingFrom;
    var a, c := FlatMap(MissingBlockers(), SealsOf(os)), FlatMap(TurnBlockersOf(), os);
    MissingAreUnknown(SealsOf(os));
    TurnsAreUnknown(os);
    DedupMembers(a);
    DedupMembers(c);
    DedupMembers(Dedup(a) + ChangedBlockers(SealsOf(os)) + Dedup(c));
    assert NoneChanged(BlockersOf(os));
  }

  /**
   A safe subset exists exactly when the seals are complete and some turn is eligible; it reports the eligible turns.
   */
  lemma SubsetMeans(host: Host, g: Group)
    ensures SafeSubset(host, g).Some? <==>
      SealsComplete(SealsOf(Arrange(host, g.observations))) && FlatMap(KeepEligible(), g.observations) != []
    ensures SafeSubset(host, g).Some? ==>
      SafeSubset(host, g).value.contributors == Contributors(Arrange(host, FlatMap(KeepEligible(), g.observations)))
  {
    hide FlatMap, SealsOf, Arrange, CountsOf, VisibleDimensions, GradeAll, BlockersOf, SealsComplete;
    var os := Arrange(host, g.observations);
    Arranged(host, FlatMap(KeepEligible(), g.observations));
    if SealsComplete(SealsOf(os)) { CompleteHasNoChange(os); }
  }

  /** A cohort of the report is eligible exactly when its safe subset is the whole cohort. */
  lemma EligibleIffWhole(host: Host, os: seq<Observation>, g: Group)
    requires g in Cohorts(host, os)
    ensures var s, safe := SummaryOf(host, g), SafeSubset(host, g);
      s.eligible <==> safe.Some? && safe.value.contributors == s.contributors
  {
    hide FlatMap, SealsOf, Arrange, CountsOf, VisibleDimensions, GradeAll, BlockersOf, SealsComplete, Cohorts;
    hide Cohort, CohortId, SafeSubset, SummaryOf;
    CohortsByName(host, os);
    EligibleMeans(host, g);
    SubsetMeans(host, g);
    EligibleMembers(g.observations);
    SummaryContributors(host, g);
    Arranged(host, g.observations);
    Arranged(host, FlatMap(KeepEligible(), g.observations));
    ContributorsLength(Arrange(host, g.observations));
    ContributorsLength(Arrange(host, FlatMap(KeepEligible(), g.observations)));
  }

  lemma SummaryContributors(host: Host, g: Group)
    ensures SummaryOf(host, g).contributors == Contributors(Arrange(host, g.observations))
  {}

  lemma {:induction false} ContributorsLength(os: seq<Observation>)
    ensures |Contributors(os)| == |os|
    decreases |os|
  {
    if os != [] { ContributorsLength(os[..|os| - 1]); }
  }

  /** A cohort has a safe subset only if any two of its observations are comparable. */
  lemma SafeSubsetsAreComparable(host: Host, os: seq<Observation>, g: Group)
    requires g in Cohorts(host, os) && SafeSubset(host, g).Some?
    ensures AllComparable(g.observations)
  {
    hide FlatMap, SealsOf, Arrange, SealsComplete, Cohorts, Cohort, SafeSubset, AllComparable, CohortId;
    CohortsByName(host, os);
    SubsetMeans(host, g);
    forall k | 0 <= k < |g.observations| ensures g.observations[k].seal.Some? {
      CohortMember(Retained(host, os), CohortId(g.seal), g.observations[k]);
    }
    CompleteIffComparable(host, g.observations);
  }

  /**
   Every safe subset of a report is the eligible part of one of its cohorts, all of whose observations are comparable.
   */
  lemma ReportedSubsetsAreSafe(host: Host, os: seq<Observation>, r: Report, s: Subset)
    requires Reports(host, os, r) && s in r.subsets
    ensures exists g ::
      && g in Cohorts(host, os) && AllComparable(g.observations) && s.cohortId == CohortId(g.seal)
      && s.contributors == Contributors(Arrange(host, FlatMap(KeepEligible(), g.observations)))
  {
    hide FlatMap, SummaryOf, Arrange, Cohorts, AllComparable, Contributors, CohortId;
    var entries := Cohorts(host, os);
    FlatMapMember(SubsetIn(host), entries, s);
    var k :| 0 <= k < |entries| && s in SubsetIn(host)(entries[k]);
    var g := entries[k];
    SafeSubsetsAreComparable(host, os, g);
    SubsetMeans(host, g);
    SummaryName(host, g);
  }

  lemma SummaryName(host: Host, g: Group)
    ensures SummaryOf(host, g).cohortId == CohortId(g.seal)
  {}
}
