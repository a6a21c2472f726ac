/** Which turn lost the cache, and why. */
module FlightDiagnosis {
  import opened Units
  import opened Sorting
  import opened TextOrder
  import opened FlightTimeline

  datatype Cause = IdentityChanged | AccountChanged | PrefixChanged | UpstreamMiss | TelemetryUnknown

  datatype Timeline = Timeline(conversation: Text, turns: seq<Turn>)

  datatype Report = Report(
    conversation: Text, baseline: Option<int>, diagnosed: Option<int>, cause: Option<Cause>, completeness: Completeness,
    supporting: seq<Evidence>, continuity: seq<Evidence>, gaps: seq<Gap>, unavailable: seq<Text>)

  // ---- evidence of one transition ----

  function Relation(a: Option<Text>, b: Option<Text>): Kind {
    if a.None? || b.None? then Unavailable else if a == b then Stable else Changed
  }

  function NameOf(x: Option<Text>): Option<Value> { if x.None? then None else Some(Name(x.value)) }

  function Compare(d: Dimension, a: Turn, b: Turn, x: Option<Text>, y: Option<Text>): Evidence {
    Evidence(Relation(x, y), d, Some(a.sequence), b.sequence, NameOf(x), NameOf(y), OfDimension(d, Relation(x, y)))
  }

  function Transition(a: Turn, b: Turn): seq<Evidence> {
    [Compare(Identity, a, b, a.identity, b.identity), Compare(ServingAccount, a, b, a.account, b.account),
     Compare(CacheablePrefix, a, b, a.prefix, b.prefix)]
  }

  function OutcomeEvidence(t: Turn): Evidence {
    Evidence(if t.outcome == Unknown then Unavailable else Observed, CacheOutcome, None, t.sequence, None,
             Some(OutcomeValue(t.outcome)), OfOutcome(t.outcome))
  }

  function OfKind(evidence: seq<Evidence>, kind: Kind): seq<Evidence> {
    if evidence == [] then []
    else (if evidence[0].kind == kind then [evidence[0]] else []) + OfKind(evidence[1..], kind)
  }

  predicate Mentions(evidence: seq<Evidence>, d: Dimension) {
    exists k :: 0 <= k < |evidence| && evidence[k].dimension == d
  }

  function CauseOfEvidence(changed: seq<Evidence>): Cause {
    if Mentions(changed, Identity) then IdentityChanged
    else if Mentions(changed, ServingAccount) then AccountChanged
    else if Mentions(changed, CacheablePrefix) then PrefixChanged
    else UpstreamMiss
  }

  /** Idle seconds between two turns, when both times are known and in order. */
  function IdleSeconds(a: Turn, b: Turn): Option<real> {
    if a.millis.None? || b.millis.None? || b.millis.value < a.millis.value then None
    else Some((b.millis.value - a.millis.value) / 1000.0)
  }

  function IdleEvidence(a: Turn, b: Turn): seq<Evidence> {
    var idle := IdleSeconds(a, b);
    if idle.None? || idle.value < 90.0 then []
    else
      var seconds := (idle.value + 0.5).Floor;
      [Evidence(Observed, TimelineOrder, Some(a.sequence), b.sequence, Some(Seconds(seconds)), None,
        OfIdleGap(seconds))]
  }

  // ---- what a diagnosis is ----

  /** A turn that is no hit although some earlier turn was one. */
  predicate FollowsHit(turns: seq<Turn>, i: nat) {
    i < |turns| && turns[i].outcome != Hit && exists k :: 0 <= k < i && turns[k].outcome == Hit
  }

  ghost predicate FirstFall(turns: seq<Turn>, i: nat) {
    FollowsHit(turns, i) && forall j :: 0 <= j < i ==> !FollowsHit(turns, j)
  }

  /** The first turn that falls after a hit stands right behind a hit. */
  lemma FallFollowsHit(turns: seq<Turn>, i: nat)
    requires FirstFall(turns, i)
    ensures i > 0 && turns[i - 1].outcome == Hit
  {
    var k :| 0 <= k < i && turns[k].outcome == Hit;
    assert !FollowsHit(turns, i - 1);
  }

  lemma FallIsUnique(turns: seq<Turn>, i: nat, j: nat)
    requires FirstFall(turns, i) && FirstFall(turns, j)
    ensures i == j
  {}

  predicate LineageKnown(a: Turn, b: Turn) {
    && a.identity.Some? && b.identity.Some? && a.account.Some? && b.account.Some? && a.prefix.Some? && b.prefix.Some?
  }

  /** The cause by comparing the two turns, the first difference winning. */
  function NamedCause(a: Turn, b: Turn): Cause {
    if a.identity != b.identity then IdentityChanged
    else if a.account != b.account then AccountChanged
    else if a.prefix != b.prefix then PrefixChanged
    else UpstreamMiss
  }

  function UnknownReport(t: Timeline, baseline: int, diagnosed: int, integrity: Integrity,
    extra: seq<Evidence>): Report {
    Report(t.conversation, Some(baseline), Some(diagnosed), Some(TelemetryUnknown),
           if integrity.completeness == Complete then Partial else integrity.completeness,
           integrity.evidence + extra, [], integrity.gaps, integrity.unavailable)
  }

  /** The report about a turn `b` that directly follows the hit `a`. */
  function FallReport(t: Timeline, baseline: int, integrity: Integrity, a: Turn, b: Turn): Report {
    var evidence := Transition(a, b) + [OutcomeEvidence(b)];
    if b.outcome != Miss || integrity.completeness != Complete || !LineageKnown(a, b) then
      UnknownReport(t, baseline, b.sequence, integrity, evidence)
    else
      Report(t.conversation, Some(baseline), Some(b.sequence), Some(NamedCause(a, b)), Complete,
             evidence + (if NamedCause(a, b) == UpstreamMiss then IdleEvidence(a, b) else []),
             [], integrity.gaps, integrity.unavailable)
  }

  /** The report about turns that never fall: what stayed the same up to a final hit. */
  function QuietReport(t: Timeline, turns: seq<Turn>, integrity: Integrity): Report {
    var n := |turns|;
    Report(t.conversation, if n == 0 then None else Some(turns[0].sequence), None, None, integrity.completeness, [],
           if n >= 2 && turns[n - 1].outcome == Hit then OfKind(Transition(turns[n - 2], turns[n - 1]), Stable) else [],
           integrity.gaps, integrity.unavailable)
  }

  ghost predicate Diagnoses(t: Timeline, r: Report) {
    var turns := SortTurns(t.turns);
    var integrity := Inspection(turns);
    && (forall i: nat :: FirstFall(turns, i) && i > 0 ==>
      r == FallReport(t, turns[0].sequence, integrity, turns[i - 1], turns[i]))
    && ((forall i: nat :: !FirstFall(turns, i)) ==> r == QuietReport(t, turns, integrity))
  }

  // ---- the scan ----

  lemma KindsOfTransition(a: Turn, b: Turn)
    ensures var e := Transition(a, b);
      && (LineageKnown(a, b) <==> forall k :: 0 <= k < |e| ==> e[k].kind != Unavailable)
      && (LineageKnown(a, b) ==> CauseOfEvidence(OfKind(e, Changed)) == NamedCause(a, b))
  {
    var e := Transition(a, b);
    assert e[0].kind == Relation(a.identity, b.identity) && e[1].kind == Relation(a.account, b.account)
      && e[2].kind == Relation(a.prefix, b.prefix);
    if LineageKnown(a, b) { ChangesOfTransition(a, b); }
  }

  lemma ChangesOfTransition(a: Turn, b: Turn)
    ensures var e, c := Transition(a, b), OfKind(Transition(a, b), Changed);
      && (Mentions(c, Identity) <==> e[0].kind == Changed) && (Mentions(c, ServingAccount) <==> e[1].kind == Changed)
      && (Mentions(c, CacheablePrefix) <==> e[2].kind == Changed)
  {
    hide Compare;
    var e, c := Transition(a, b), OfKind(Transition(a, b), Changed);
    DimensionsOfTransition(a, b);
    OfThree(e[0], e[1], e[2], Changed);
    forall x | x in e && x.kind == Changed ensures Mentions(c, x.dimension) {
      var k :| 0 <= k < |c| && c[k] == x;
    }
  }

  lemma DimensionsOfTransition(a: Turn, b: Turn)
    ensures var e := Transition(a, b);
      e[0].dimension == Identity && e[1].dimension == ServingAccount && e[2].dimension == CacheablePrefix
  {}

  lemma OfCons(x: Evidence, rest: seq<Evidence>, kind: Kind)
    ensures OfKind([x] + rest, kind) == (if x.kind == kind then [x] else []) + OfKind(rest, kind)
  {
    assert ([x] + rest)[1..] == rest;
  }

  lemma OfThree(x: Evidence, y: Evidence, z: Evidence, kind: Kind)
    ensures var c := OfKind([x, y, z], kind);
      forall e :: e in c <==> e.kind == kind && (e == x || e == y || e == z)
  {
    assert [x, y, z] == [x] + ([y] + ([z] + []));
    OfCons(x, [y] + ([z] + []), kind);
    OfCons(y, [z] + [], kind);
    OfCons(z, [], kind);
    assert OfKind([], kind) == [];
  }

  predicate SomeUnavailable(evidence: seq<Evidence>) {
    exists k :: 0 <= k < |evidence| && evidence[k].kind == Unavailable
  }

  /** The report once the scan stands on a miss behind a hit, from the evidence it has collected. */
  method ReportMiss(t: Timeline, baseline: int, integrity: Integrity, lineage: seq<Evidence>, priorHit: Turn,
    current: Turn)
    returns (r: Report)
    requires current.outcome == Miss && lineage == Transition(priorHit, current)
    ensures r == FallReport(t, baseline, integrity, priorHit, current)
  {
    hide Compare, OfKind, CauseOfEvidence, NamedCause, IdleEvidence, OutcomeEvidence, LineageKnown;
    KindsOfTransition(priorHit, current);
    var missEvidence := OutcomeEvidence(current);
    if integrity.completeness != Complete || SomeUnavailable(lineage) {
      return UnknownReport(t, baseline, current.sequence, integrity, lineage + [missEvidence]);
    }
    var cause := CauseOfEvidence(OfKind(lineage, Changed));
    var idle := if cause == UpstreamMiss then IdleEvidence(priorHit, current) else [];
    r := Report(t.conversation, Some(baseline), Some(current.sequence), Some(cause), integrity.completeness,
                lineage + [missEvidence] + idle, [], integrity.gaps, integrity.unavailable);
  }

  lemma FallHere(t: Timeline, turns: seq<Turn>, i: nat, r: Report)
    requires turns == SortTurns(t.turns) && 0 < i < |turns| && FirstFall(turns, i)
    requires r == FallReport(t, turns[0].sequence, Inspection(turns), turns[i - 1], turns[i])
    ensures Diagnoses(t, r)
  {
    hide FollowsHit, FallReport, SortTurns, Inspection;
    forall j: nat | FirstFall(turns, j) ensures j == i { FallIsUnique(turns, i, j); }
  }

  method DiagnoseTimeline(t: Timeline) returns (r: Report)
    ensures Diagnoses(t, r)
  {
    hide SortTurns, Inspection, FallReport, Compare, OfKind, OutcomeEvidence;
    var turns := SortTurns(t.turns);
    var integrity := InspectIntegrity(turns);
    if |turns| <= 1 {
      return QuietReport(t, turns, integrity);
    }
    var baseline := turns[0];
    var priorHitIndex := if baseline.outcome == Hit then 0 else -1;
    var latestContinuity := [];
    for index := 1 to |turns|
      invariant -1 <= priorHitIndex < index
      invariant priorHitIndex == if turns[index - 1].outcome == Hit then index - 1 else -1
      invariant priorHitIndex == -1 ==> forall k :: 0 <= k < index ==> turns[k].outcome != Hit
      invariant forall j :: 0 <= j < index ==> !FollowsHit(turns, j)
      invariant latestContinuity ==
        if index >= 2 && turns[index - 1].outcome == Hit
        then OfKind(Transition(turns[index - 2], turns[index - 1]), Stable)
        else []
    {
      var current, previous := turns[index], turns[index - 1];
      var transition := Transition(previous, current);
      if current.outcome == Hit {
        priorHitIndex := index;
        latestContinuity := OfKind(transition, Stable);
        continue;
      }
      if priorHitIndex < 0 { continue; }
      assert FirstFall(turns, index) by { assert turns[priorHitIndex].outcome == Hit; }
      if current.outcome == Unknown {
        r := UnknownReport(t, baseline.sequence, current.sequence, integrity, transition + [OutcomeEvidence(current)]);
        UnknownFall(t, baseline.sequence, integrity, previous, current);
        FallHere(t, turns, index, r);
        return;
      }
      var lineageEvidence := [];
      for transitionIndex := priorHitIndex + 1 to index + 1
        invariant lineageEvidence == if transitionIndex == index then [] else transition
      {
        lineageEvidence := lineageEvidence + Transition(turns[transitionIndex - 1], turns[transitionIndex]);
      }
      r := ReportMiss(t, baseline.sequence, integrity, lineageEvidence, turns[priorHitIndex], current);
      FallHere(t, turns, index, r);
      return;
    }
    r := Report(t.conversation, Some(baseline.sequence), None, None, integrity.completeness, [], latestContinuity,
                integrity.gaps, integrity.unavailable);
  }

  lemma UnknownFall(t: Timeline, baseline: int, integrity: Integrity, a: Turn, b: Turn)
    requires b.outcome == Unknown
    ensures FallReport(t, baseline, integrity, a, b)
         == UnknownReport(t, baseline, b.sequence, integrity, Transition(a, b) + [OutcomeEvidence(b)])
  {}

  // ---- what a report says ----

  /** A turn is diagnosed exactly when some turn falls after a hit, and it is the first of them. */
  lemma DiagnosedIffFall(t: Timeline, r: Report)
    requires Diagnoses(t, r)
    ensures r.diagnosed.Some? <==> exists i: nat :: FollowsHit(SortTurns(t.turns), i)
    ensures forall i: nat :: FirstFall(SortTurns(t.turns), i) ==> r.diagnosed == Some(SortTurns(t.turns)[i].sequence)
  {
    hide SortTurns, Inspection;
    var turns := SortTurns(t.turns);
    forall i: nat | FirstFall(turns, i) ensures r.diagnosed == Some(turns[i].sequence) { FallFollowsHit(turns, i); }
    if i: nat :| FollowsHit(turns, i) {
      var first := FirstBelow(turns, i);
    }
  }

  lemma {:induction false} FirstBelow(turns: seq<Turn>, i: nat) returns (first: nat)
    requires FollowsHit(turns, i)
    ensures FirstFall(turns, first) && first <= i
  {
    if j :| 0 <= j < i && FollowsHit(turns, j) {
      first := FirstBelow(turns, j);
    } else {
      first := i;
    }
  }

  /**
   A named cause needs a miss right behind a hit, an unbroken clean record and known lineage; then it is the first
   difference.
   */
  lemma NamedIffProven(t: Timeline, r: Report, i: nat)
    requires Diagnoses(t, r) && FirstFall(SortTurns(t.turns), i)
    ensures var turns := SortTurns(t.turns);
      && i > 0 && turns[i - 1].outcome == Hit
      && r.cause.Some? && r.baseline == Some(turns[0].sequence)
      && (r.cause != Some(TelemetryUnknown) <==>
            turns[i].outcome == Miss && AllClean(turns) && Gapless(turns) && LineageKnown(turns[i - 1], turns[i]))
      && (r.cause != Some(TelemetryUnknown) ==> r.cause == Some(NamedCause(turns[i - 1], turns[i])))
  {
    hide SortTurns, Inspection, FollowsHit, LineageKnown, Transition, OutcomeEvidence, IdleEvidence, AllClean, Gapless;
    var turns := SortTurns(t.turns);
    FallFollowsHit(turns, i);
    TurnsAreSorted(t.turns);
    CompleteEvidence(turns);
  }

  lemma TurnsAreSorted(turns: seq<Turn>)
    ensures Sorted(SortTurns(turns), BySequence())
  {
    SequencesOrdered();
    SortSorts(turns, BySequence());
  }

  // ---- later turns ----

  /** Every turn of `more` is numbered above every turn of `turns`. */
  ghost predicate Later(turns: seq<Turn>, more: seq<Turn>) {
    forall a, b :: a in turns && b in more ==> a.sequence < b.sequence
  }

  lemma LaterTurnsSortBehind(turns: seq<Turn>, more: seq<Turn>)
    requires Later(turns, more)
    ensures SortTurns(turns + more) == SortTurns(turns) + SortTurns(more)
  {
    SortAppend(turns, more, BySequence());
  }

  lemma FallStays(turns: seq<Turn>, more: seq<Turn>, i: nat)
    requires FirstFall(turns, i)
    ensures FirstFall(turns + more, i)
  {
    forall j | 0 <= j <= i ensures FollowsHit(turns + more, j) == FollowsHit(turns, j) {
      assert forall k :: 0 <= k <= i ==> (turns + more)[k] == turns[k];
      if k :| 0 <= k < j && (turns + more)[k].outcome == Hit { assert turns[k].outcome == Hit; }
      if k :| 0 <= k < j && turns[k].outcome == Hit { assert (turns + more)[k].outcome == Hit; }
    }
  }

  lemma CompletePrefix(turns: seq<Turn>, more: seq<Turn>)
    requires AllClean(turns + more) && Gapless(turns + more)
    ensures AllClean(turns) && Gapless(turns)
  {
    forall k | 0 <= k < |turns| ensures Clean(turns[k]) { assert Clean((turns + more)[k]); }
    forall k | 0 <= k < |turns| ensures Follows(turns, k) { assert Follows(turns + more, k); }
  }

  /** Later turns never move a diagnosis: the report stays as it is, or its cause becomes unknown. */
  lemma LaterTurnsKeepDiagnosis(t: Timeline, more: seq<Turn>, r: Report, r': Report)
    requires Later(t.turns, more) && Diagnoses(t, r) && Diagnoses(t.(turns := t.turns + more), r') && r.diagnosed.Some?
    ensures r'.diagnosed == r.diagnosed && r'.baseline == r.baseline
    ensures r' == r || r'.cause == Some(TelemetryUnknown)
    ensures r.cause == Some(TelemetryUnknown) ==> r'.cause == Some(TelemetryUnknown)
    ensures r.cause != Some(TelemetryUnknown) ==>
      (r' == r <==> AllClean(SortTurns(t.turns + more)) && Gapless(SortTurns(t.turns + more)))
  {
    hide SortTurns, Inspection, FollowsHit, LineageKnown, Transition, OutcomeEvidence, IdleEvidence, AllClean;
    hide Gapless, NamedCause;
    var t' := t.(turns := t.turns + more);
    var turns, turns' := SortTurns(t.turns), SortTurns(t'.turns);
    LaterTurnsSortBehind(t.turns, more);
    DiagnosedIffFall(t, r);
    var i: nat :| FollowsHit(turns, i);
    var first := FirstBelow(turns, i);
    FallFollowsHit(turns, first);
    FallInRange(turns, first);
    FallStays(turns, SortTurns(more), first);
    TurnsAreSorted(t.turns);
    TurnsAreSorted(t'.turns);
    CompleteEvidence(turns);
    CompleteEvidence(turns');
    if AllClean(turns') && Gapless(turns') { CompletePrefix(turns, SortTurns(more)); }
    assert turns'[first] == turns[first] && turns'[first - 1] == turns[first - 1] && turns'[0] == turns[0];
  }

  lemma FallInRange(turns: seq<Turn>, i: nat)
    requires FirstFall(turns, i)
    ensures i < |turns|
  {}
}
