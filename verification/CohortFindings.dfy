/** What a cohort's grade, its blockers and the agreement of its seals mean, read off the observations. */
module CohortFindings {
  import opened Units
  import opened Seqs
  import opened Sorting
  import opened TextOrder
  import opened FlightTimeline
  import opened CohortSeal
  import opened CohortAnalysis
  import opened CohortSelection
  import opened CohortReport
  import opened CohortTheorems

  // ---- seals ----

  predicate Filled(x: Option<Text>) { x.Some? && x.value != [] }

  /** Every field that decides about comparison is there. */
  predicate EveryField(s: Seal) {
    && s.epoch.contractVersion.Some? && Filled(s.epoch.revision) && Filled(s.epoch.instance)
    && Filled(s.epoch.startedAt) && s.epoch.nativeCache.Some? && s.epoch.recorder.Some? && s.epoch.policy.Some?
    && Filled(s.epoch.occurrence) && Filled(s.partition.accountScope) && Filled(s.partition.routeModel)
  }

  /** A seal misses nothing exactly when it says so, belongs to its epoch and every field is there. */
  lemma KnownMeans(s: Seal)
    ensures MissingFrom(s) == {} <==>
      && s.complete && s.epoch.complete && s.partition.complete && s.partition.epochId == s.epoch.id
      && s.unavailable == {} && s.epoch.unavailable == {} && s.partition.unavailable == {} && EveryField(s)
  {
    FullyKnown(s);
    assert Declared(s) == {} <==> s.unavailable == {} && s.epoch.unavailable == {} && s.partition.unavailable == {};
    if forall d :: Snapshot(s, d).Some? {
      EveryValue(s);
    }
  }

  lemma EveryValue(s: Seal)
    requires forall d :: Snapshot(s, d).Some?
    ensures EveryField(s)
  {
    assert Snapshot(s, ContractVersion).Some? && Snapshot(s, Revision).Some? && Snapshot(s, ServiceInstance).Some?;
    assert Snapshot(s, ProcessStart).Some? && Snapshot(s, NativeCache).Some? && Snapshot(s, Recorder).Some?;
    assert Snapshot(s, Keepalive).Some? && Snapshot(s, Occurrence).Some? && Snapshot(s, AccountScope).Some?;
    assert Snapshot(s, RouteModel).Some?;
  }

  /** The ten fields are the same. */
  predicate SameFields(a: Seal, b: Seal) {
    && a.epoch.contractVersion == b.epoch.contractVersion && a.epoch.revision == b.epoch.revision
    && a.epoch.instance == b.epoch.instance && a.epoch.startedAt == b.epoch.startedAt
    && a.epoch.nativeCache == b.epoch.nativeCache && a.epoch.recorder == b.epoch.recorder
    && a.epoch.policy == b.epoch.policy && a.epoch.occurrence == b.epoch.occurrence
    && a.partition.accountScope == b.partition.accountScope && a.partition.routeModel == b.partition.routeModel
  }

  lemma AgreeAt(a: Seal, b: Seal, d: SealDimension)
    requires d != Receipt
    ensures Agree(a, b) ==> Snapshot(a, d) == Snapshot(b, d)
  {
    hide Snapshot;
    EveryDimensionListed(d);
  }

  lemma SameAt(a: Seal, b: Seal, d: SealDimension)
    requires SameFields(a, b) && d != Receipt
    ensures Snapshot(a, d) == Snapshot(b, d)
  {}

  /** Fully known seals agree exactly when these fields are the same. */
  lemma AgreeMeans(a: Seal, b: Seal)
    requires EveryField(a) && EveryField(b)
    ensures Agree(a, b) <==> SameFields(a, b)
  {
    hide Agree;
    AgreeAt(a, b, ContractVersion);
    AgreeAt(a, b, Revision);
    AgreeAt(a, b, ServiceInstance);
    AgreeAt(a, b, ProcessStart);
    AgreeAt(a, b, NativeCache);
    AgreeAt(a, b, Recorder);
    AgreeAt(a, b, Keepalive);
    AgreeAt(a, b, Occurrence);
    AgreeAt(a, b, AccountScope);
    AgreeAt(a, b, RouteModel);
    if SameFields(a, b) { SameAgree(a, b); }
  }

  lemma SameAgree(a: Seal, b: Seal)
    requires SameFields(a, b)
    ensures Agree(a, b)
  {
    hide Snapshot, SameFields;
    assert Receipt !in SELECTION_DIMENSIONS;
    forall d | d in SELECTION_DIMENSIONS ensures Snapshot(a, d) == Snapshot(b, d) { SameAt(a, b, d); }
  }

  /** A changed field changes the value of its own dimension and of no other. */
  lemma FieldDecides(s: Seal, t: Text, d: SealDimension)
    requires t != []
    ensures Snapshot(s.(epoch := s.epoch.(revision := Some(t))), d) ==
      if d == Revision then Some(Label(t)) else Snapshot(s, d)
    ensures Snapshot(s.(epoch := s.epoch.(instance := Some(t))), d) ==
      if d == ServiceInstance then Some(Label(t)) else Snapshot(s, d)
    ensures Snapshot(s.(epoch := s.epoch.(startedAt := Some(t))), d) ==
      if d == ProcessStart then Some(Label(t)) else Snapshot(s, d)
    ensures Snapshot(s.(epoch := s.epoch.(occurrence := Some(t))), d) ==
      if d == Occurrence then Some(Label(t)) else Snapshot(s, d)
    ensures Snapshot(s.(partition := s.partition.(accountScope := Some(t))), d) ==
      if d == AccountScope then Some(Label(t)) else Snapshot(s, d)
    ensures Snapshot(s.(partition := s.partition.(routeModel := Some(t))), d) ==
      if d == RouteModel then Some(Label(t)) else Snapshot(s, d)
  {}

  // ---- the grade ----

  lemma {:induction false} GradeAtLeast(os: seq<Observation>, c: Completeness)
    ensures Rank(GradeAll(os)) >= Rank(c) <==> c == Complete || exists k :: 0 <= k < |os| && Lowers(os[k], c)
    decreases |os|
  {
    hide Lowers;
    if os != [] {
      var n := |os| - 1;
      GradeAtLeast(os[..n], c);
      GradeOne(GradeAll(os[..n]), os[n], c);
      if k :| 0 <= k < |os| && Lowers(os[k], c) {
        if k < n { assert Lowers(os[..n][k], c); }
      }
      if k :| 0 <= k < n && Lowers(os[..n][k], c) { assert Lowers(os[k], c); }
    }
  }

  /** The turn alone brings a grade down to `c` or below. */
  predicate Lowers(o: Observation, c: Completeness) {
    || Rank(o.completeness) >= Rank(c)
    || ((o.unavailable != [] || o.outcome == Outcome.Unknown) && Rank(c) <= Rank(Partial))
    || (o.gapBefore && Rank(c) <= Rank(Incomplete))
  }

  lemma GradeOne(before: Completeness, o: Observation, c: Completeness)
    ensures Rank(GradeOnto(before, o)) >= Rank(c) <==> Rank(before) >= Rank(c) || Lowers(o, c)
  {}

  /** The grade of a cohort is that of its worst turn. */
  lemma GradeMeans(os: seq<Observation>)
    ensures GradeAll(os) == Contradictory <==> exists k :: 0 <= k < |os| && os[k].completeness == Contradictory
    ensures GradeAll(os) == Incomplete <==>
      && (forall k :: 0 <= k < |os| ==> os[k].completeness != Contradictory)
      && (exists k :: 0 <= k < |os| && (os[k].completeness == Incomplete || os[k].gapBefore))
    ensures GradeAll(os) == Complete <==> AllEligible(os)
  {
    hide GradeAll;
    GradeAtLeast(os, Contradictory);
    GradeAtLeast(os, Incomplete);
    NoTurnBlockers(os);
    forall k | 0 <= k < |os| ensures Lowers(os[k], Contradictory) <==> os[k].completeness == Contradictory {}
    forall k | 0 <= k < |os| && os[k].completeness != Contradictory
      ensures Lowers(os[k], Incomplete) <==> os[k].completeness == Incomplete || os[k].gapBefore {}
  }

  // ---- blockers ----

  ghost predicate SomeSealMisses(os: seq<Observation>, d: SealDimension) {
    exists k :: 0 <= k < |os| && os[k].seal.Some? && d in MissingFrom(os[k].seal.value)
  }

  /** Two observations whose seals both know the dimension know different values of it. */
  ghost predicate SealsDiffer(os: seq<Observation>, d: SealDimension) {
    exists i, j :: 0 <= i < |os| && 0 <= j < |os| && Tells(os[i], os[j], d)
  }

  ghost predicate Tells(a: Observation, b: Observation, d: SealDimension) {
    && a.seal.Some? && b.seal.Some? && d !in MissingFrom(a.seal.value) && d !in MissingFrom(b.seal.value)
    && Snapshot(a.seal.value, d) != Snapshot(b.seal.value, d)
  }

  ghost predicate SomeTurn(os: seq<Observation>, b: Blocker) { exists k :: 0 <= k < |os| && TurnRaises(os[k], b) }

  ghost predicate TurnRaises(o: Observation, b: Blocker) {
    || (o.completeness != Complete && b == Blocker(TurnCompleteness, ValueUnknown, Graded(o.completeness)))
    || (o.unavailable != [] && b == Blocker(TurnUnavailable, ValueUnknown, DimensionsPresent))
    || (o.outcome == Outcome.Unknown && b == Blocker(TurnUnavailable, ValueUnknown, OutcomeUnknown))
    || (o.gapBefore && b == Blocker(TurnGap, ValueUnknown, GapsPresent))
  }

  /** What stands in the way of a cohort. */
  ghost predicate IsBlocker(os: seq<Observation>, b: Blocker) {
    || (b.subject.OfSeal? && b == UnknownBlocker(b.subject.dimension) && SomeSealMisses(os, b.subject.dimension))
    || (&& b.subject.OfSeal? && b == ChangedBlocker(b.subject.dimension) && b.subject.dimension != Receipt
        && SealsDiffer(os, b.subject.dimension))
    || SomeTurn(os, b)
  }

  lemma MissingBlockerMeans(seals: seq<Seal>, b: Blocker)
    ensures b in FlatMap(MissingBlockers(), seals) <==>
      && b.subject.OfSeal? && b == UnknownBlocker(b.subject.dimension)
      && exists k :: 0 <= k < |seals| && b.subject.dimension in MissingFrom(seals[k])
  {
    hide FlatMap, Pick, MissingFrom;
    FlatMapMember(MissingBlockers(), seals, b);
    forall k | 0 <= k < |seals| ensures b in MissingBlockers()(seals[k]) <==>
      b.subject.OfSeal? && b == UnknownBlocker(b.subject.dimension) && b.subject.dimension in MissingFrom(seals[k])
    {
      var p, f := d => d in MissingFrom(seals[k]), d => UnknownBlocker(d);
      PickMembers(SEAL_DIMENSIONS, p, f);
      if b.subject.OfSeal? && b == UnknownBlocker(b.subject.dimension) && b.subject.dimension in MissingFrom(seals[k]) {
        EveryDimensionListed(b.subject.dimension);
        var i :| 0 <= i < |SEAL_DIMENSIONS| && SEAL_DIMENSIONS[i] == b.subject.dimension;
        assert p(SEAL_DIMENSIONS[i]) && b == f(SEAL_DIMENSIONS[i]);
      }
    }
  }

  lemma ChangedBlockerMeans(seals: seq<Seal>, b: Blocker)
    ensures b in ChangedBlockers(seals) <==>
      && b.subject.OfSeal? && b == ChangedBlocker(b.subject.dimension) && b.subject.dimension != Receipt
      && Differ(seals, b.subject.dimension)
  {
    hide Pick, Differ;
    var p, f := d => Differ(seals, d), d => ChangedBlocker(d);
    PickMembers(SELECTION_DIMENSIONS, p, f);
    assert Receipt !in SELECTION_DIMENSIONS;
    if b.subject.OfSeal? && b == ChangedBlocker(b.subject.dimension) && b.subject.dimension != Receipt
      && Differ(seals, b.subject.dimension)
    {
      EveryDimensionListed(b.subject.dimension);
      var i :| 0 <= i < |SELECTION_DIMENSIONS| && SELECTION_DIMENSIONS[i] == b.subject.dimension;
      assert p(SELECTION_DIMENSIONS[i]) && b == f(SELECTION_DIMENSIONS[i]);
    }
  }

  lemma TurnBlockerMeans(os: seq<Observation>, b: Blocker)
    ensures b in FlatMap(TurnBlockersOf(), os) <==> SomeTurn(os, b)
  {
    hide FlatMap;
    FlatMapMember(TurnBlockersOf(), os, b);
    forall k | 0 <= k < |os| ensures b in TurnBlockersOf()(os[k]) <==> TurnRaises(os[k], b) {
      TurnRaised(os[k], b);
    }
  }

  lemma TurnRaised(o: Observation, b: Blocker)
    ensures b in TurnBlockersOf()(o) <==> TurnRaises(o, b)
  {}

  lemma MissesMeans(os: seq<Observation>, d: SealDimension)
    ensures (exists k :: 0 <= k < |SealsOf(os)| && d in MissingFrom(SealsOf(os)[k])) <==> SomeSealMisses(os, d)
  {
    hide MissingFrom, SealsOf;
    var seals := SealsOf(os);
    if k :| 0 <= k < |seals| && d in MissingFrom(seals[k]) {
      SealMember(os, seals[k]);
      var j :| 0 <= j < |os| && os[j].seal == Some(seals[k]);
      assert d in MissingFrom(os[j].seal.value);
    }
    if SomeSealMisses(os, d) {
      var k :| 0 <= k < |os| && os[k].seal.Some? && d in MissingFrom(os[k].seal.value);
      SealMember(os, os[k].seal.value);
      var j :| 0 <= j < |seals| && seals[j] == os[k].seal.value;
    }
  }

  lemma DifferMeans(os: seq<Observation>, d: SealDimension)
    ensures Differ(SealsOf(os), d) <==> SealsDiffer(os, d)
  {
    hide MissingFrom, SealsOf, Snapshot;
    var seals := SealsOf(os);
    if Differ(seals, d) {
      var i, j :| 0 <= i < j < |seals| && d !in MissingFrom(seals[i]) && d !in MissingFrom(seals[j])
        && Snapshot(seals[i], d) != Snapshot(seals[j], d);
      SealMember(os, seals[i]);
      SealMember(os, seals[j]);
      var a :| 0 <= a < |os| && os[a].seal == Some(seals[i]);
      var b :| 0 <= b < |os| && os[b].seal == Some(seals[j]);
      assert Tells(os[a], os[b], d);
    }
    if SealsDiffer(os, d) {
      var a, b :| 0 <= a < |os| && 0 <= b < |os| && Tells(os[a], os[b], d);
      SealMember(os, os[a].seal.value);
      SealMember(os, os[b].seal.value);
      var i :| 0 <= i < |seals| && seals[i] == os[a].seal.value;
      var j :| 0 <= j < |seals| && seals[j] == os[b].seal.value;
      DifferAt(seals, d, i, j);
    }
  }

  /** The blockers of a cohort, each once, are what stands in its way. */
  lemma BlockersMean(os: seq<Observation>, b: Blocker)
    ensures b in BlockersOf(os) <==> IsBlocker(os, b)
    ensures Distinct(BlockersOf(os))
  {
    hide Dedup, FlatMap, ChangedBlockers, SealsDiffer, SomeSealMisses, SomeTurn, MissingFrom, Differ, SealsOf;
    var seals := SealsOf(os);
    var missing, turns := FlatMap(MissingBlockers(), seals), FlatMap(TurnBlockersOf(), os);
    DedupMembers(missing);
    DedupMembers(turns);
    DedupMembers(Dedup(missing) + ChangedBlockers(seals) + Dedup(turns));
    MissingBlockerMeans(seals, b);
    ChangedBlockerMeans(seals, b);
    TurnBlockerMeans(os, b);
    if b.subject.OfSeal? {
      MissesMeans(os, b.subject.dimension);
      DifferMeans(os, b.subject.dimension);
    }
  }

  // ---- the summary of a cohort ----

  lemma DiffersPermute(a: seq<Observation>, b: seq<Observation>, d: SealDimension)
    requires multiset(a) == multiset(b) && SealsDiffer(a, d)
    ensures SealsDiffer(b, d)
  {
    hide Tells;
    MembersByMultiset(a, b);
    var i, j :| 0 <= i < |a| && 0 <= j < |a| && Tells(a[i], a[j], d);
    assert a[i] in b && a[j] in b;
    var k :| 0 <= k < |b| && b[k] == a[i];
    var m :| 0 <= m < |b| && b[m] == a[j];
    assert Tells(b[k], b[m], d);
  }

  lemma BlockerPermutes(a: seq<Observation>, b: seq<Observation>, x: Blocker)
    requires multiset(a) == multiset(b) && IsBlocker(a, x)
    ensures IsBlocker(b, x)
  {
    hide Tells, TurnRaises, MissingFrom;
    MembersByMultiset(a, b);
    if SomeTurn(a, x) {
      var i :| 0 <= i < |a| && TurnRaises(a[i], x);
      assert a[i] in b;
      var k :| 0 <= k < |b| && b[k] == a[i];
      assert SomeTurn(b, x);
    } else if x.subject.OfSeal? && SomeSealMisses(a, x.subject.dimension) && x.kind == ValueUnknown {
      var i :| 0 <= i < |a| && a[i].seal.Some? && x.subject.dimension in MissingFrom(a[i].seal.value);
      assert a[i] in b;
      var k :| 0 <= k < |b| && b[k] == a[i];
      assert SomeSealMisses(b, x.subject.dimension);
    } else {
      DiffersPermute(a, b, x.subject.dimension);
    }
  }

  /** A cohort names its epoch and partition, its occurrence unless that differs, and exactly what stands in its way. */
  lemma SummaryTells(host: Host, g: Group, x: Blocker)
    ensures var s := SummaryOf(host, g);
      && s.cohortId == g.seal.epoch.id + [':' as int] + g.seal.partition.id
      && s.ids.epoch == g.seal.epoch.id && s.ids.partition == g.seal.partition.id
      && s.ids.occurrence == (if SealsDiffer(g.observations, Occurrence) then None else g.seal.epoch.occurrence)
      && (x in s.blockers <==> IsBlocker(g.observations, x))
  {
    hide Arrange, CountsOf, BlockersOf, SealsComplete, VisibleDimensions, GradeAll, SealsDiffer, IsBlocker, Differ;
    hide ChangedBlockers, SealsOf;
    var os := Arrange(host, g.observations);
    Arranged(host, g.observations);
    BlockersMean(os, x);
    ChangedBlockerMeans(SealsOf(os), ChangedBlocker(Occurrence));
    DifferMeans(os, Occurrence);
    if SealsDiffer(os, Occurrence) { DiffersPermute(os, g.observations, Occurrence); }
    if SealsDiffer(g.observations, Occurrence) { DiffersPermute(g.observations, os, Occurrence); }
    if IsBlocker(os, x) { BlockerPermutes(os, g.observations, x); }
    if IsBlocker(g.observations, x) { BlockerPermutes(g.observations, os, x); }
  }

  // ---- what is retained ----

  lemma {:induction false} KeptCounts(os: seq<Observation>, o: Observation)
    ensures multiset(FlatMap(KeepRetained(), os))[o] == if o.retained then multiset(os)[o] else 0
    decreases |os|
  {
    hide FlatMap;
    if os == [] {
      FlatMapNone(KeepRetained());
    } else {
      var front, last := os[..|os| - 1], os[|os| - 1];
      assert os == front + [last];
      KeptCounts(front, o);
      FlatMapLast(KeepRetained(), front, last);
    }
  }

  /** A report is about exactly the retained observations, as often as they occur. */
  lemma RetainedMeans(host: Host, os: seq<Observation>, o: Observation)
    ensures multiset(Retained(host, os))[o] == if o.retained then multiset(os)[o] else 0
  {
    hide FlatMap, Arrange;
    KeptCounts(os, o);
    Arranged(host, FlatMap(KeepRetained(), os));
  }

  // ---- safe subsets ----

  /** A report lists the safe subset of every cohort that has one, with the size and outcomes of its eligible turns. */
  lemma SubsetsListed(host: Host, os: seq<Observation>, r: Report, x: Subset)
    requires Reports(host, os, r)
    ensures x in r.subsets <==> exists g :: g in Cohorts(host, os) && SafeSubset(host, g) == Some(x)
  {
    hide FlatMap, SafeSubset, Cohorts;
    var gs := Cohorts(host, os);
    FlatMapMember(SubsetIn(host), gs, x);
    if x in r.subsets {
      var k :| 0 <= k < |gs| && x in SubsetIn(host)(gs[k]);
      assert gs[k] in gs && SafeSubset(host, gs[k]) == Some(x);
    }
    if g :| g in gs && SafeSubset(host, g) == Some(x) {
      var k :| 0 <= k < |gs| && gs[k] == g;
      assert x in SubsetIn(host)(gs[k]);
    }
  }

  lemma SubsetCounts(host: Host, g: Group)
    requires SafeSubset(host, g).Some?
    ensures var x, eligible := SafeSubset(host, g).value, FlatMap(KeepEligible(), g.observations);
      && x.cohortId == CohortId(g.seal) && x.count == |eligible| && x.counts == CountsOf(eligible)
      && multiset(x.contributors) == multiset(Contributors(eligible))
  {
    hide FlatMap, CountsOf, Arrange, BlockersOf, SealsComplete, VisibleDimensions, GradeAll, CohortId;
    var eligible := FlatMap(KeepEligible(), g.observations);
    Arranged(host, eligible);
    CountsPermute(Arrange(host, eligible), eligible);
    ContributorsPermute(Arrange(host, eligible), eligible);
  }
}
