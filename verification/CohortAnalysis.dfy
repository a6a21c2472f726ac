/** Retained cache observations split into cohorts by their seals, and the part of each cohort that may be compared. */
module CohortAnalysis {
  import opened Units
  import opened Seqs
  import opened Sorting
  import opened TextOrder
  import opened FlightTimeline
  import opened CohortSeal

  datatype Observation = Observation(
    conversation: Text, sequence: int, timestamp: Text, outcome: Outcome, completeness: Completeness,
    unavailable: seq<Text>, gapBefore: bool, seal: Option<Seal>, retained: bool)

  datatype Contributor = Contributor(conversation: Text, sequence: int)

  /** The host's date parsing and its comparison of names. */
  datatype Host = Host(parse: Text -> Option<real>, rank: Text -> real)

  // ---- order ----

  predicate NotAfter(host: Host, a: Observation, b: Observation) {
    var x, y := host.parse(a.timestamp), host.parse(b.timestamp);
    if x.Some? && y.Some? && x != y then x.value < y.value
    else if host.rank(a.timestamp) != host.rank(b.timestamp) then host.rank(a.timestamp) < host.rank(b.timestamp)
    else if host.rank(a.conversation) != host.rank(b.conversation) then
      host.rank(a.conversation) < host.rank(b.conversation)
    else a.sequence <= b.sequence
  }

  function ByTime(host: Host): (Observation, Observation) -> bool { (a, b) => NotAfter(host, a, b) }

  function Arrange(host: Host, os: seq<Observation>): seq<Observation> { Sort(os, ByTime(host)) }

  function ContributorOf(o: Observation): Contributor { Contributor(o.conversation, o.sequence) }

  function Contribute(): Observation -> seq<Contributor> { (o: Observation) => [ContributorOf(o)] }

  function Contributors(os: seq<Observation>): seq<Contributor> { FlatMap(Contribute(), os) }

  // ---- outcome counts ----

  datatype Counts = Counts(hit: nat, miss: nat, unknown: nat)

  function Plus(a: Counts, b: Counts): Counts { Counts(a.hit + b.hit, a.miss + b.miss, a.unknown + b.unknown) }

  function CountOne(c: Counts, o: Outcome): Counts {
    match o
    case Hit => c.(hit := c.hit + 1)
    case Miss => c.(miss := c.miss + 1)
    case Unknown => c.(unknown := c.unknown + 1)
  }

  function OutcomeOf(): Observation -> seq<Outcome> { (o: Observation) => [o.outcome] }

  ghost function Tally(outcomes: multiset<Outcome>): Counts {
    Counts(outcomes[Hit], outcomes[Miss], outcomes[Outcome.Unknown])
  }

  /** How often each outcome occurs. */
  ghost function CountsOf(os: seq<Observation>): Counts { Tally(multiset(FlatMap(OutcomeOf(), os))) }

  lemma TallyPlus(a: seq<Outcome>, b: seq<Outcome>)
    ensures Tally(multiset(a + b)) == Plus(Tally(multiset(a)), Tally(multiset(b)))
  {
    assert multiset(a + b) == multiset(a) + multiset(b);
  }

  lemma TallyOne(o: Outcome, c: Counts)
    ensures Plus(c, Tally(multiset([o]))) == CountOne(c, o)
  {}

  lemma CountsAppend(a: seq<Observation>, b: seq<Observation>)
    ensures CountsOf(a + b) == Plus(CountsOf(a), CountsOf(b))
  {
    hide FlatMap, Tally;
    FlatMapAppend(OutcomeOf(), a, b);
    TallyPlus(FlatMap(OutcomeOf(), a), FlatMap(OutcomeOf(), b));
  }

  lemma CountsStep(os: seq<Observation>, o: Observation)
    ensures CountsOf(os + [o]) == CountOne(CountsOf(os), o.outcome)
  {
    hide FlatMap, Tally;
    CountsAppend(os, [o]);
    FlatMapOne(OutcomeOf(), o);
    TallyOne(o.outcome, CountsOf(os));
  }

  lemma CountsPermute(a: seq<Observation>, b: seq<Observation>)
    requires multiset(a) == multiset(b)
    ensures CountsOf(a) == CountsOf(b)
  {
    FlatMapPermutes(OutcomeOf(), a, b);
  }

  lemma EmptyCounts()
    ensures CountsOf([]) == Counts(0, 0, 0)
  {}

  method CountOutcomes(os: seq<Observation>) returns (r: Counts)
    ensures r == CountsOf(os)
  {
    hide CountsOf;
    r := Counts(0, 0, 0);
    assert os[..0] == [];
    EmptyCounts();
    for k := 0 to |os|
      invariant r == CountsOf(os[..k])
    {
      CountsStep(os[..k], os[k]);
      assert os[..k + 1] == os[..k] + [os[k]];
      r := CountOne(r, os[k].outcome);
    }
    assert os[..|os|] == os;
  }

  // ---- turns ----

  predicate TurnEligible(o: Observation) {
    o.completeness == Complete && o.unavailable == [] && !o.gapBefore && o.outcome != Outcome.Unknown
  }

  function GradeOnto(c: Completeness, o: Observation): Completeness {
    var c1 := LessComplete(c, o.completeness);
    var c2 := if o.unavailable != [] then LessComplete(c1, Partial) else c1;
    var c3 := if o.outcome == Outcome.Unknown then LessComplete(c2, Partial) else c2;
    if o.gapBefore then LessComplete(c3, Incomplete) else c3
  }

  function GradeAll(os: seq<Observation>): Completeness {
    if os == [] then Complete else GradeOnto(GradeAll(os[..|os| - 1]), os[|os| - 1])
  }

  method CompletenessOf(os: seq<Observation>) returns (r: Completeness)
    ensures r == GradeAll(os)
  {
    r := Complete;
    for k := 0 to |os|
      invariant r == GradeAll(os[..k])
    {
      assert os[..k + 1][..k] == os[..k];
      r := LessComplete(r, os[k].completeness);
      if |os[k].unavailable| > 0 { r := LessComplete(r, Partial); }
      if os[k].outcome == Outcome.Unknown { r := LessComplete(r, Partial); }
      if os[k].gapBefore { r := LessComplete(r, Incomplete); }
    }
    assert os[..|os|] == os;
  }

  function TurnBlockersOf(): Observation -> seq<Blocker> {
    (o: Observation) =>
      (if o.completeness != Complete then [Blocker(TurnCompleteness, ValueUnknown, Graded(o.completeness))] else []) +
      (if o.unavailable != [] then [Blocker(TurnUnavailable, ValueUnknown, DimensionsPresent)] else []) +
      (if o.outcome == Outcome.Unknown then [Blocker(TurnUnavailable, ValueUnknown, OutcomeUnknown)] else []) +
      (if o.gapBefore then [Blocker(TurnGap, ValueUnknown, GapsPresent)] else [])
  }

  method TurnBlockers(os: seq<Observation>) returns (r: seq<Blocker>)
    ensures r == Dedup(FlatMap(TurnBlockersOf(), os))
  {
    hide Dedup, FlatMap;
    var blockers: seq<Blocker> := [];
    assert os[..0] == [];
    FlatMapNone(TurnBlockersOf());
    for k := 0 to |os|
      invariant blockers == FlatMap(TurnBlockersOf(), os[..k])
    {
      FlatMapStep(TurnBlockersOf(), os, k);
      ghost var before := blockers;
      if os[k].completeness != Complete {
        blockers := blockers + [Blocker(TurnCompleteness, ValueUnknown, Graded(os[k].completeness))];
      }
      if |os[k].unavailable| > 0 { blockers := blockers + [Blocker(TurnUnavailable, ValueUnknown, DimensionsPresent)]; }
      if os[k].outcome == Outcome.Unknown {
        blockers := blockers + [Blocker(TurnUnavailable, ValueUnknown, OutcomeUnknown)];
      }
      if os[k].gapBefore { blockers := blockers + [Blocker(TurnGap, ValueUnknown, GapsPresent)]; }
      assert blockers == before + TurnBlockersOf()(os[k]);
    }
    assert os[..|os|] == os;
    r := Dedup(blockers);
  }

  ghost predicate AllEligible(os: seq<Observation>) { forall k :: 0 <= k < |os| ==> TurnEligible(os[k]) }

  /** No turn blocks a cohort exactly when every turn is eligible, and then its evidence is complete. */
  lemma {:induction false} NoTurnBlockers(os: seq<Observation>)
    ensures FlatMap(TurnBlockersOf(), os) == [] <==> AllEligible(os)
    ensures GradeAll(os) == Complete <==> AllEligible(os)
    decreases |os|
  {
    if os != [] {
      var n := |os| - 1;
      NoTurnBlockers(os[..n]);
      assert TurnBlockersOf()(os[n]) == [] <==> TurnEligible(os[n]);
    }
  }

  // ---- groups ----

  datatype Group = Group(seal: Seal, observations: seq<Observation>)

  function Joined(g: Group, o: Observation): Group { g.(observations := g.observations + [o]) }

  function CohortId(seal: Seal): Text { seal.epoch.id + [':' as int] + seal.partition.id }

  function IdOf(): Observation -> seq<Text> {
    (o: Observation) => if o.seal.None? then [] else [CohortId(o.seal.value)]
  }

  function Ids(os: seq<Observation>): seq<Text> { Dedup(FlatMap(IdOf(), os)) }

  predicate Belongs(o: Observation, id: Text) { o.seal.Some? && CohortId(o.seal.value) == id }

  function KeepCohort(id: Text): Observation -> seq<Observation> {
    (o: Observation) => if Belongs(o, id) then [o] else []
  }

  /** The observations of one cohort, in order. */
  function Cohort(os: seq<Observation>, id: Text): seq<Observation> { FlatMap(KeepCohort(id), os) }

  function KeepUnsealed(): Observation -> seq<Observation> { (o: Observation) => if o.seal.None? then [o] else [] }

  function Unsealed(os: seq<Observation>): seq<Observation> { FlatMap(KeepUnsealed(), os) }

  lemma CohortMember(os: seq<Observation>, id: Text, o: Observation)
    ensures o in Cohort(os, id) <==> o in os && Belongs(o, id)
  {
    FlatMapMember(KeepCohort(id), os, o);
    if o in Cohort(os, id) {
      var k :| 0 <= k < |os| && o in KeepCohort(id)(os[k]);
      assert os[k] == o;
    }
    if o in os && Belongs(o, id) {
      var k :| 0 <= k < |os| && os[k] == o;
      assert o in KeepCohort(id)(os[k]);
    }
  }

  lemma CohortsAreInhabited(os: seq<Observation>, id: Text)
    ensures id in Ids(os) <==> Cohort(os, id) != []
  {
    hide FlatMap, CohortId;
    DedupMembers(FlatMap(IdOf(), os));
    FlatMapMember(IdOf(), os, id);
    if id in Ids(os) {
      var k :| 0 <= k < |os| && id in IdOf()(os[k]);
      assert Belongs(os[k], id);
      CohortMember(os, id, os[k]);
    }
    if Cohort(os, id) != [] {
      var o := Cohort(os, id)[0];
      CohortMember(os, id, o);
      var k :| 0 <= k < |os| && os[k] == o;
      assert id in IdOf()(os[k]);
    }
  }

  function GroupFor(os: seq<Observation>, id: Text): Group
    requires id in Ids(os)
  {
    CohortsAreInhabited(os, id);
    CohortMember(os, id, Cohort(os, id)[0]);
    Group(Cohort(os, id)[0].seal.value, Cohort(os, id))
  }

  function GroupsOf(os: seq<Observation>): seq<Group> {
    seq(|Ids(os)|, k requires 0 <= k < |Ids(os)| => GroupFor(os, Ids(os)[k]))
  }

  lemma UnsealedStep(os: seq<Observation>, o: Observation)
    requires o.seal.None?
    ensures GroupsOf(os + [o]) == GroupsOf(os) && Unsealed(os + [o]) == Unsealed(os) + [o]
  {
    hide Dedup;
    FlatMapAppend(IdOf(), os, [o]);
    FlatMapOne(IdOf(), o);
    FlatMapAppend(KeepUnsealed(), os, [o]);
    FlatMapOne(KeepUnsealed(), o);
    assert FlatMap(IdOf(), os) + [] == FlatMap(IdOf(), os);
    assert Ids(os + [o]) == Ids(os);
    forall id ensures Cohort(os + [o], id) == Cohort(os, id) {
      FlatMapAppend(KeepCohort(id), os, [o]);
      FlatMapOne(KeepCohort(id), o);
    }
  }

  lemma SealedCohorts(os: seq<Observation>, o: Observation, id: Text)
    requires o.seal.Some?
    ensures Ids(os + [o]) == AddNew(Ids(os), CohortId(o.seal.value)) && Unsealed(os + [o]) == Unsealed(os)
    ensures Cohort(os + [o], id) == Cohort(os, id) + if CohortId(o.seal.value) == id then [o] else []
  {
    hide Dedup;
    FlatMapAppend(IdOf(), os, [o]);
    FlatMapOne(IdOf(), o);
    DedupStep(FlatMap(IdOf(), os), CohortId(o.seal.value));
    FlatMapAppend(KeepUnsealed(), os, [o]);
    FlatMapOne(KeepUnsealed(), o);
    FlatMapAppend(KeepCohort(id), os, [o]);
    FlatMapOne(KeepCohort(id), o);
  }

  lemma GroupId(os: seq<Observation>, k: nat)
    requires k < |Ids(os)|
    ensures CohortId(GroupsOf(os)[k].seal) == Ids(os)[k] && GroupsOf(os)[k].observations == Cohort(os, Ids(os)[k])
  {
    hide Ids, Cohort, CohortId;
    var id := Ids(os)[k];
    CohortsAreInhabited(os, id);
    CohortMember(os, id, Cohort(os, id)[0]);
  }

  lemma SealedOldStep(os: seq<Observation>, o: Observation, j: nat)
    requires o.seal.Some? && j < |GroupsOf(os)| && CohortId(GroupsOf(os)[j].seal) == CohortId(o.seal.value)
    ensures GroupsOf(os + [o]) == GroupsOf(os)[j := Joined(GroupsOf(os)[j], o)]
    ensures Unsealed(os + [o]) == Unsealed(os)
  {
    hide Ids, Cohort, CohortId, Unsealed;
    var id := CohortId(o.seal.value);
    GroupId(os, j);
    SealedCohorts(os, o, id);
    assert Ids(os + [o]) == Ids(os);
    DistinctIds(os);
    forall k | 0 <= k < |Ids(os)|
      ensures GroupsOf(os + [o])[k] == if k == j then Joined(GroupsOf(os)[j], o) else GroupsOf(os)[k]
    {
      SealedCohorts(os, o, Ids(os)[k]);
      CohortsAreInhabited(os, Ids(os)[k]);
    }
  }

  lemma SealedNewStep(os: seq<Observation>, o: Observation)
    requires o.seal.Some? && forall j :: 0 <= j < |GroupsOf(os)| ==>
      CohortId(GroupsOf(os)[j].seal) != CohortId(o.seal.value)
    ensures GroupsOf(os + [o]) == GroupsOf(os) + [Group(o.seal.value, [o])]
    ensures Unsealed(os + [o]) == Unsealed(os)
  {
    hide Ids, Cohort, CohortId, Unsealed;
    var id := CohortId(o.seal.value);
    SealedCohorts(os, o, id);
    forall j | 0 <= j < |Ids(os)| ensures Ids(os)[j] != id {
      GroupId(os, j);
      assert CohortId(GroupsOf(os)[j].seal) != id;
    }
    assert Ids(os + [o]) == Ids(os) + [id];
    CohortsAreInhabited(os, id);
    assert Cohort(os + [o], id) == [o];
    assert GroupsOf(os + [o])[|Ids(os)|] == Group(o.seal.value, [o]);
    forall k | 0 <= k < |Ids(os)| ensures GroupsOf(os + [o])[k] == GroupsOf(os)[k] {
      SealedCohorts(os, o, Ids(os)[k]);
    }
  }

  lemma DistinctIds(os: seq<Observation>)
    ensures Distinct(Ids(os))
  {
    DedupMembers(FlatMap(IdOf(), os));
  }

  lemma NoGroups()
    ensures GroupsOf([]) == [] && Unsealed([]) == []
  {}

  datatype Totals = Totals(observations: nat, sealed: nat, unsealed: nat, counts: Counts)

  /** The grouping loop. */
  method GroupObservations(retained: seq<Observation>)
    returns (groups: seq<Group>, unsealed: seq<Observation>, totals: Totals)
    ensures groups == GroupsOf(retained) && unsealed == Unsealed(retained)
    ensures totals.observations == |retained| == totals.sealed + |unsealed| && totals.unsealed == |unsealed|
    ensures totals.counts == CountsOf(retained)
  {
    hide GroupsOf, Unsealed, CountsOf, CohortId;
    groups, unsealed, totals := [], [], Totals(0, 0, 0, Counts(0, 0, 0));
    assert retained[..0] == [];
    NoGroups();
    EmptyCounts();
    for k := 0 to |retained|
      invariant groups == GroupsOf(retained[..k]) && unsealed == Unsealed(retained[..k])
      invariant totals.counts == CountsOf(retained[..k])
      invariant totals.observations == k && totals.unsealed == |unsealed| && totals.sealed + totals.unsealed == k
    {
      var o := retained[k];
      assert retained[..k + 1] == retained[..k] + [o];
      CountsStep(retained[..k], o);
      totals := totals.(observations := totals.observations + 1, counts := CountOne(totals.counts, o.outcome));
      if o.seal.None? {
        UnsealedStep(retained[..k], o);
        totals := totals.(unsealed := totals.unsealed + 1);
        unsealed := unsealed + [o];
        continue;
      }
      totals := totals.(sealed := totals.sealed + 1);
      var id := CohortId(o.seal.value);
      if j :| 0 <= j < |groups| && CohortId(groups[j].seal) == id {
        SealedOldStep(retained[..k], o, j);
        groups := groups[j := Joined(groups[j], o)];
      } else {
        SealedNewStep(retained[..k], o);
        groups := groups + [Group(o.seal.value, [o])];
      }
    }
    assert retained[..|retained|] == retained;
  }
}
