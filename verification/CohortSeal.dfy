/** Seals on cache observations: which of their dimensions are known, and where several seals differ. */
module CohortSeal {
  import opened Units
  import opened Seqs
  import opened TextOrder
  import opened FlightTimeline

  datatype SealDimension =
    | ContractVersion | Revision | ServiceInstance | ProcessStart | NativeCache | Recorder | Keepalive | Occurrence
    | AccountScope | RouteModel | Receipt

  const SERVICE_DIMENSIONS: seq<SealDimension> :=
    [ContractVersion, Revision, ServiceInstance, ProcessStart, NativeCache, Recorder, Keepalive, Occurrence]

  const PARTITION_DIMENSIONS: seq<SealDimension> := [AccountScope, RouteModel]

  /** The dimensions that decide which observations may be compared. */
  const SELECTION_DIMENSIONS: seq<SealDimension> := SERVICE_DIMENSIONS + PARTITION_DIMENSIONS

  const SEAL_DIMENSIONS: seq<SealDimension> := SELECTION_DIMENSIONS + [Receipt]

  /** A time to live that is null or not finite is absent. */
  datatype Policy = Policy(globalTtl: Option<real>, xaiTtl: Option<real>, xaiEnabled: bool,
    xaiEffectiveTtl: Option<real>)

  datatype Epoch = Epoch(
    id: Text, occurrence: Option<Text>, contractVersion: Option<real>, revision: Option<Text>, instance: Option<Text>,
    startedAt: Option<Text>, nativeCache: Option<bool>, recorder: Option<bool>, policy: Option<Policy>,
    complete: bool, unavailable: set<SealDimension>)

  datatype Partition = Partition(
    id: Text, epochId: Text, accountScope: Option<Text>, routeModel: Option<Text>, complete: bool,
      unavailable: set<SealDimension>)

  datatype Seal = Seal(epoch: Epoch, partition: Partition, complete: bool, unavailable: set<SealDimension>)

  datatype SealValue =
    | Number(x: real) | Label(text: Text) | Switch(on: bool)
    | PolicyValue(policy: Policy) | ReceiptState(complete: bool)

  function KnownText(x: Option<Text>): Option<SealValue> {
    if x.None? || x.value == [] then None else Some(Label(x.value))
  }

  function KnownSwitch(x: Option<bool>): Option<SealValue> { if x.None? then None else Some(Switch(x.value)) }

  function Snapshot(seal: Seal, d: SealDimension): Option<SealValue> {
    match d
    case ContractVersion => if seal.epoch.contractVersion.None? then None
      else Some(Number(seal.epoch.contractVersion.value))
    case Revision => KnownText(seal.epoch.revision)
    case ServiceInstance => KnownText(seal.epoch.instance)
    case ProcessStart => KnownText(seal.epoch.startedAt)
    case NativeCache => KnownSwitch(seal.epoch.nativeCache)
    case Recorder => KnownSwitch(seal.epoch.recorder)
    case Keepalive => if seal.epoch.policy.None? then None else Some(PolicyValue(seal.epoch.policy.value))
    case Occurrence => KnownText(seal.epoch.occurrence)
    case AccountScope => KnownText(seal.partition.accountScope)
    case RouteModel => KnownText(seal.partition.routeModel)
    case Receipt => Some(ReceiptState(seal.complete))
  }

  // ---- what a seal does not know ----

  predicate SaysComplete(seal: Seal) { seal.complete && seal.epoch.complete && seal.partition.complete }

  function Declared(seal: Seal): set<SealDimension> {
    seal.unavailable + seal.epoch.unavailable + seal.partition.unavailable
  }

  /** Dimensions that the seal declares unavailable, has no value for, or contradicts itself about. */
  function RawMissing(seal: Seal): set<SealDimension> {
    Declared(seal) + (set d: SealDimension | Snapshot(seal, d).None?) +
      (if seal.partition.epochId != seal.epoch.id then {Receipt} else {})
  }

  function MissingFrom(seal: Seal): set<SealDimension> {
    if RawMissing(seal) == {} && !SaysComplete(seal) then {Receipt} else RawMissing(seal)
  }

  lemma EveryDimensionListed(d: SealDimension)
    ensures d in SEAL_DIMENSIONS && (d == Receipt || d in SELECTION_DIMENSIONS)
  {
    var s := SELECTION_DIMENSIONS;
    assert s[0] == ContractVersion && s[1] == Revision && s[2] == ServiceInstance && s[3] == ProcessStart
      && s[4] == NativeCache;
    assert s[5] == Recorder && s[6] == Keepalive && s[7] == Occurrence && s[8] == AccountScope && s[9] == RouteModel;
    assert SEAL_DIMENSIONS[10] == Receipt;
    assert forall k :: 0 <= k < 10 ==> s[k] in SEAL_DIMENSIONS;
  }

  method UnavailableDimensions(seal: Seal) returns (r: set<SealDimension>)
    ensures r == MissingFrom(seal)
  {
    hide Snapshot;
    r := Declared(seal);
    for k := 0 to |SEAL_DIMENSIONS|
      invariant r == Declared(seal) + set d | d in SEAL_DIMENSIONS[..k] && Snapshot(seal, d).None?
    {
      assert SEAL_DIMENSIONS[..k + 1] == SEAL_DIMENSIONS[..k] + [SEAL_DIMENSIONS[k]];
      if Snapshot(seal, SEAL_DIMENSIONS[k]).None? { r := r + {SEAL_DIMENSIONS[k]}; }
    }
    assert SEAL_DIMENSIONS[..|SEAL_DIMENSIONS|] == SEAL_DIMENSIONS;
    forall d ensures d in SEAL_DIMENSIONS { EveryDimensionListed(d); }
    if seal.partition.epochId != seal.epoch.id { r := r + {Receipt}; }
    if r == {} && (!seal.complete || !seal.epoch.complete || !seal.partition.complete) { r := r + {Receipt}; }
  }

  /** A seal misses nothing exactly when it says so, declares nothing, belongs to its epoch and has every value. */
  lemma FullyKnown(seal: Seal)
    ensures MissingFrom(seal) == {} <==>
      && SaysComplete(seal) && Declared(seal) == {} && seal.partition.epochId == seal.epoch.id
      && forall d :: Snapshot(seal, d).Some?
  {
    hide Snapshot;
    if RawMissing(seal) == {} {
      forall d ensures Snapshot(seal, d).Some? { assert d !in RawMissing(seal); }
    }
  }

  // ---- where seals differ ----

  ghost predicate Knows(seal: Seal, d: SealDimension, v: SealValue) {
    d !in MissingFrom(seal) && Snapshot(seal, d) == Some(v)
  }

  /** The known values of one dimension. */
  ghost function Values(seals: seq<Seal>, d: SealDimension): set<SealValue> {
    set k | 0 <= k < |seals| && d !in MissingFrom(seals[k]) && Snapshot(seals[k], d).Some?
      :: Snapshot(seals[k], d).value
  }

  method KnownValues(seals: seq<Seal>, d: SealDimension) returns (r: set<SealValue>)
    ensures r == Values(seals, d)
  {
    hide Snapshot, MissingFrom;
    r := {};
    for k := 0 to |seals|
      invariant r == Values(seals[..k], d)
    {
      ValuesStep(seals, k, d);
      var unavailable := UnavailableDimensions(seals[k]);
      if d in unavailable { continue; }
      var snapshot := Snapshot(seals[k], d);
      if snapshot.Some? { r := r + {snapshot.value}; }
    }
    assert seals[..|seals|] == seals;
  }

  lemma ValuesStep(seals: seq<Seal>, k: nat, d: SealDimension)
    requires k < |seals|
    ensures Values(seals[..k + 1], d) == Values(seals[..k], d) +
      if d !in MissingFrom(seals[k]) && Snapshot(seals[k], d).Some? then {Snapshot(seals[k], d).value} else {}
  {
    hide Snapshot, MissingFrom;
    var a, b := seals[..k], seals[..k + 1];
    assert forall j :: 0 <= j < k ==> a[j] == b[j];
    assert b[k] == seals[k];
    var extra := if d !in MissingFrom(seals[k]) && Snapshot(seals[k], d).Some? then {Snapshot(seals[k], d).value}
      else {};
    forall v | v in Values(b, d) ensures v in Values(a, d) + extra {
      var j :| 0 <= j < |b| && d !in MissingFrom(b[j]) && Snapshot(b[j], d).Some? && Snapshot(b[j], d).value == v;
      if j < k { assert d !in MissingFrom(a[j]) && Snapshot(a[j], d).value == v; }
    }
    forall v | v in Values(a, d) ensures v in Values(b, d) {
      var j :| 0 <= j < |a| && d !in MissingFrom(a[j]) && Snapshot(a[j], d).Some? && Snapshot(a[j], d).value == v;
      assert d !in MissingFrom(b[j]);
    }
  }

  lemma MoreThanOne<T>(s: set<T>)
    ensures |s| > 1 <==> exists x, y :: x in s && y in s && x != y
  {
    if s != {} {
      var x :| x in s;
      assert |s - {x}| == |s| - 1;
      if y :| y in s - {x} {
        assert x in s && y in s && x != y;
      } else {
        assert s == {x};
      }
    }
  }

  /** Two seals know different values of a dimension. */
  ghost predicate Differ(seals: seq<Seal>, d: SealDimension) {
    exists i, j :: 0 <= i < j < |seals| && d !in MissingFrom(seals[i]) && d !in MissingFrom(seals[j])
      && Snapshot(seals[i], d) != Snapshot(seals[j], d)
  }

  lemma UnavailableWithoutValue(seal: Seal, d: SealDimension)
    ensures d !in MissingFrom(seal) ==> Snapshot(seal, d).Some?
  {
    hide Snapshot;
  }

  lemma ValueAt(seals: seq<Seal>, d: SealDimension, v: SealValue)
    ensures v in Values(seals, d) <==> exists k :: 0 <= k < |seals| && Knows(seals[k], d, v)
  {
    hide Snapshot, MissingFrom;
    if v in Values(seals, d) {
      var k :| 0 <= k < |seals| && d !in MissingFrom(seals[k]) && Snapshot(seals[k], d).Some?
        && Snapshot(seals[k], d).value == v;
      assert Knows(seals[k], d, v);
    }
  }

  lemma SeveralValues(seals: seq<Seal>, d: SealDimension)
    ensures |Values(seals, d)| > 1 <==> Differ(seals, d)
  {
    hide Snapshot, MissingFrom, Values;
    var s := Values(seals, d);
    MoreThanOne(s);
    if x, y :| x in s && y in s && x != y {
      ValueAt(seals, d, x);
      ValueAt(seals, d, y);
      var i :| 0 <= i < |seals| && Knows(seals[i], d, x);
      var j :| 0 <= j < |seals| && Knows(seals[j], d, y);
      DifferAt(seals, d, i, j);
    }
    if Differ(seals, d) {
      var i, j :| 0 <= i < j < |seals| && d !in MissingFrom(seals[i]) && d !in MissingFrom(seals[j]) &&
        Snapshot(seals[i], d) != Snapshot(seals[j], d);
      UnavailableWithoutValue(seals[i], d);
      UnavailableWithoutValue(seals[j], d);
      ValueAt(seals, d, Snapshot(seals[i], d).value);
      ValueAt(seals, d, Snapshot(seals[j], d).value);
    }
  }

  lemma DifferAt(seals: seq<Seal>, d: SealDimension, i: nat, j: nat)
    requires i < |seals| && j < |seals| && i != j
    requires d !in MissingFrom(seals[i]) && d !in MissingFrom(seals[j])
      && Snapshot(seals[i], d) != Snapshot(seals[j], d)
    ensures Differ(seals, d)
  {
    hide Snapshot, MissingFrom;
  }

  // ---- blockers ----

  datatype Subject =
    | OfSeal(dimension: SealDimension) | TurnCompleteness | TurnUnavailable | TurnGap | HistoricalUnsealed

  datatype BlockerKind = ValueChanged | ValueUnknown | NotComparable

  datatype Reason =
    | Plain | Graded(completeness: Completeness) | DimensionsPresent | OutcomeUnknown | GapsPresent | NoSealReference

  datatype Blocker = Blocker(subject: Subject, kind: BlockerKind, reason: Reason)

  function UnknownBlocker(d: SealDimension): Blocker { Blocker(OfSeal(d), ValueUnknown, Plain) }
  function ChangedBlocker(d: SealDimension): Blocker { Blocker(OfSeal(d), ValueChanged, Plain) }

  /** The dimensions of a list that a predicate picks, as blockers. */
  ghost function Pick(dims: seq<SealDimension>, p: SealDimension -> bool, f: SealDimension -> Blocker): seq<Blocker> {
    if dims == [] then []
    else
      var n := |dims| - 1;
      Pick(dims[..n], p, f) + if p(dims[n]) then [f(dims[n])] else []
  }

  lemma PickStep(dims: seq<SealDimension>, k: nat, p: SealDimension -> bool, f: SealDimension -> Blocker)
    requires k < |dims|
    ensures Pick(dims[..k + 1], p, f) == Pick(dims[..k], p, f) + if p(dims[k]) then [f(dims[k])] else []
  {
    assert dims[..k + 1][..k] == dims[..k];
  }

  lemma {:induction false} PickMembers(dims: seq<SealDimension>, p: SealDimension -> bool, f: SealDimension -> Blocker)
    ensures forall b :: b in Pick(dims, p, f) <==> exists k :: 0 <= k < |dims| && p(dims[k]) && b == f(dims[k])
    decreases |dims|
  {
    if dims != [] {
      var n := |dims| - 1;
      PickMembers(dims[..n], p, f);
      forall b ensures b in Pick(dims, p, f) <==> exists k :: 0 <= k < |dims| && p(dims[k]) && b == f(dims[k]) {
        if b in Pick(dims[..n], p, f) {
          var k :| 0 <= k < n && p(dims[..n][k]) && b == f(dims[..n][k]);
          assert p(dims[k]) && b == f(dims[k]);
        }
        if k :| 0 <= k < |dims| && p(dims[k]) && b == f(dims[k]) {
          if k < n { assert p(dims[..n][k]) && b == f(dims[..n][k]); }
        }
      }
    }
  }

  ghost function ChangedBlockers(seals: seq<Seal>): seq<Blocker> {
    Pick(SELECTION_DIMENSIONS, d => Differ(seals, d), d => ChangedBlocker(d))
  }

  method ChangedSealBlockers(seals: seq<Seal>) returns (r: seq<Blocker>)
    ensures r == ChangedBlockers(seals)
  {
    hide Snapshot, MissingFrom, Pick;
    ghost var p, f := d => Differ(seals, d), d => ChangedBlocker(d);
    if |seals| < 2 {
      forall d ensures !p(d) {}
      NothingPicked(SELECTION_DIMENSIONS, p, f);
      return [];
    }
    r := [];
    assert SELECTION_DIMENSIONS[..0] == [];
    NothingPicked([], p, f);
    for k := 0 to |SELECTION_DIMENSIONS|
      invariant r == Pick(SELECTION_DIMENSIONS[..k], p, f)
    {
      PickStep(SELECTION_DIMENSIONS, k, p, f);
      var values := KnownValues(seals, SELECTION_DIMENSIONS[k]);
      SeveralValues(seals, SELECTION_DIMENSIONS[k]);
      if |values| > 1 { r := r + [ChangedBlocker(SELECTION_DIMENSIONS[k])]; }
    }
    assert SELECTION_DIMENSIONS[..|SELECTION_DIMENSIONS|] == SELECTION_DIMENSIONS;
  }

  lemma {:induction false} NothingPicked(dims: seq<SealDimension>, p: SealDimension -> bool,
    f: SealDimension -> Blocker)
    requires forall k :: 0 <= k < |dims| ==> !p(dims[k])
    ensures Pick(dims, p, f) == []
    decreases |dims|
  {
    if dims != [] { NothingPicked(dims[..|dims| - 1], p, f); }
  }

  ghost function MissingBlockers(): Seal -> seq<Blocker> {
    seal => Pick(SEAL_DIMENSIONS, d => d in MissingFrom(seal), d => UnknownBlocker(d))
  }

  method SealBlockers(seals: seq<Seal>) returns (r: seq<Blocker>)
    ensures r == Dedup(FlatMap(MissingBlockers(), seals))
  {
    hide Dedup, FlatMap, Pick, MissingFrom, Snapshot;
    var blockers: seq<Blocker> := [];
    assert seals[..0] == [];
    FlatMapNone(MissingBlockers());
    for i := 0 to |seals|
      invariant blockers == FlatMap(MissingBlockers(), seals[..i])
    {
      FlatMapStep(MissingBlockers(), seals, i);
      ghost var p, f := d => d in MissingFrom(seals[i]), d => UnknownBlocker(d);
      ghost var before := blockers;
      assert SEAL_DIMENSIONS[..0] == [];
      NothingPicked([], p, f);
      for k := 0 to |SEAL_DIMENSIONS|
        invariant blockers == before + Pick(SEAL_DIMENSIONS[..k], p, f)
      {
        PickStep(SEAL_DIMENSIONS, k, p, f);
        var unavailable := UnavailableDimensions(seals[i]);
        if SEAL_DIMENSIONS[k] in unavailable { blockers := blockers + [UnknownBlocker(SEAL_DIMENSIONS[k])]; }
      }
      assert SEAL_DIMENSIONS[..|SEAL_DIMENSIONS|] == SEAL_DIMENSIONS;
    }
    assert seals[..|seals|] == seals;
    r := Dedup(blockers);
  }

  /** No blocker about missing values exactly when every seal is fully known. */
  lemma {:induction false} NoSealBlockers(seals: seq<Seal>)
    ensures FlatMap(MissingBlockers(), seals) == [] <==> forall k :: 0 <= k < |seals| ==> MissingFrom(seals[k]) == {}
    decreases |seals|
  {
    hide Pick, MissingFrom;
    if seals != [] {
      var n := |seals| - 1;
      NoSealBlockers(seals[..n]);
      var p, f := d => d in MissingFrom(seals[n]), d => UnknownBlocker(d);
      PickMembers(SEAL_DIMENSIONS, p, f);
      if d :| d in MissingFrom(seals[n]) {
        EveryDimensionListed(d);
        var k :| 0 <= k < |SEAL_DIMENSIONS| && SEAL_DIMENSIONS[k] == d;
        assert p(SEAL_DIMENSIONS[k]);
        assert f(SEAL_DIMENSIONS[k]) in Pick(SEAL_DIMENSIONS, p, f);
      } else {
        NothingPicked(SEAL_DIMENSIONS, p, f);
      }
    }
  }

  // ---- complete seals ----

  /** The seals of a cohort count as complete. */
  ghost predicate SealsComplete(seals: seq<Seal>) {
    ChangedBlockers(seals) == [] && forall k :: 0 <= k < |seals| ==>
      SaysComplete(seals[k]) && MissingFrom(seals[k]) == {}
  }

  ghost predicate Agree(a: Seal, b: Seal) { forall d :: d in SELECTION_DIMENSIONS ==> Snapshot(a, d) == Snapshot(b, d) }

  lemma NoChanges(seals: seq<Seal>)
    ensures ChangedBlockers(seals) == [] <==> forall d :: d in SELECTION_DIMENSIONS ==> !Differ(seals, d)
  {
    hide Pick, Differ;
    var p, f := d => Differ(seals, d), d => ChangedBlocker(d);
    PickMembers(SELECTION_DIMENSIONS, p, f);
    if d :| d in SELECTION_DIMENSIONS && Differ(seals, d) {
      var k :| 0 <= k < |SELECTION_DIMENSIONS| && SELECTION_DIMENSIONS[k] == d;
      assert p(SELECTION_DIMENSIONS[k]);
      assert f(SELECTION_DIMENSIONS[k]) in Pick(SELECTION_DIMENSIONS, p, f);
    } else {
      NothingPicked(SELECTION_DIMENSIONS, p, f);
    }
  }

  /** Seals are complete exactly when each is fully known and any two agree on all ten selection dimensions. */
  lemma CompleteIffAgreeing(seals: seq<Seal>)
    ensures SealsComplete(seals) <==>
      && (forall k :: 0 <= k < |seals| ==> MissingFrom(seals[k]) == {})
      && (forall i, j :: 0 <= i < |seals| && 0 <= j < |seals| ==> Agree(seals[i], seals[j]))
  {
    hide Snapshot, MissingFrom, ChangedBlockers;
    NoChanges(seals);
    forall k | 0 <= k < |seals| && MissingFrom(seals[k]) == {} ensures SaysComplete(seals[k]) { FullyKnown(seals[k]); }
    if SealsComplete(seals) {
      forall i, j | 0 <= i < |seals| && 0 <= j < |seals| ensures Agree(seals[i], seals[j]) {
        forall d | d in SELECTION_DIMENSIONS ensures Snapshot(seals[i], d) == Snapshot(seals[j], d) {
          assert !Differ(seals, d);
          assert d !in MissingFrom(seals[i]) && d !in MissingFrom(seals[j]);
        }
      }
    }
    if forall i, j :: 0 <= i < |seals| && 0 <= j < |seals| ==> Agree(seals[i], seals[j]) {
      forall d | d in SELECTION_DIMENSIONS ensures !Differ(seals, d) {
        forall i, j | 0 <= i < j < |seals| ensures Snapshot(seals[i], d) == Snapshot(seals[j], d) {
          assert Agree(seals[i], seals[j]);
        }
      }
    }
  }

  // ---- visible values ----

  datatype Visible = Visible(dimension: SealDimension, value: Option<SealValue>)

  ghost function VisibleAt(seals: seq<Seal>, d: SealDimension): Visible {
    if seals == [] || ChangedBlocker(d) in ChangedBlockers(seals)
      || (exists k :: 0 <= k < |seals| && d in MissingFrom(seals[k]))
    then Visible(d, None)
    else Visible(d, Snapshot(seals[0], d))
  }

  ghost function VisibleDimensions(seals: seq<Seal>): seq<Visible> {
    seq(|SEAL_DIMENSIONS|, k requires 0 <= k < |SEAL_DIMENSIONS| => VisibleAt(seals, SEAL_DIMENSIONS[k]))
  }

  /**
   A value shown for a cohort is the value of every seal in it; it is shown whenever all seals know one and the same
   value.
   */
  lemma VisibleIsShared(seals: seq<Seal>, d: SealDimension, v: SealValue)
    requires d in SELECTION_DIMENSIONS && seals != []
    ensures VisibleAt(seals, d) == Visible(d, Some(v)) <==>
      forall k :: 0 <= k < |seals| ==> d !in MissingFrom(seals[k]) && Snapshot(seals[k], d) == Some(v)
  {
    hide Snapshot, MissingFrom, Pick;
    var p, f := d => Differ(seals, d), d => ChangedBlocker(d);
    PickMembers(SELECTION_DIMENSIONS, p, f);
    var k :| 0 <= k < |SELECTION_DIMENSIONS| && SELECTION_DIMENSIONS[k] == d;
    assert p(d) ==> f(SELECTION_DIMENSIONS[k]) in Pick(SELECTION_DIMENSIONS, p, f);
    assert ChangedBlocker(d) in ChangedBlockers(seals) <==> Differ(seals, d);
  }
}
