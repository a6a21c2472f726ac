/** Retained cache turns: token contradictions, gaps in the numbering, and how complete the evidence is. */
module FlightTimeline {
  import opened Units
  import opened Seqs
  import opened Sorting
  import opened TextOrder

  datatype Outcome = Hit | Miss | Unknown

  datatype Completeness = Complete | Partial | Incomplete | Contradictory

  /** A host number that is not an infinity or NaN, or one that is. */
  datatype Amount = Finite(x: real) | NotFinite

  datatype Turn = Turn(
    sequence: int, millis: Option<real>, identity: Option<Text>, account: Option<Text>, prefix: Option<Text>,
    outcome: Outcome, input: Option<Amount>, cached: Option<Amount>, completeness: Completeness,
    unavailable: seq<Text>, gapBefore: bool)

  // ---- tokens ----

  datatype Contradiction =
    | InputInvalid | CachedInvalid | CachedExceedsInput | HitWithoutCached | MissWithCached

  const EFFECTIVE_HIT_MIN_RATIO: real := 0.05

  predicate BadAmount(a: Option<Amount>) { a.Some? && (a.value.NotFinite? || a.value.x < 0.0) }

  /** A cached count so small beside the input that the turn still counts as a miss. */
  predicate NearMiss(input: Option<Amount>, cached: real) {
    input.Some? && input.value.Finite? && input.value.x > 0.0 && cached > 0.0
      && cached / input.value.x < EFFECTIVE_HIT_MIN_RATIO
  }

  function TokenContradiction(t: Turn): Option<Contradiction> {
    if BadAmount(t.input) then Some(InputInvalid)
    else if BadAmount(t.cached) then Some(CachedInvalid)
    else if t.input.Some? && t.cached.Some? && t.cached.value.x > t.input.value.x then Some(CachedExceedsInput)
    else if t.outcome == Hit && (t.cached.None? || t.cached.value.x <= 0.0) then Some(HitWithoutCached)
    else if t.outcome == Miss && t.cached.Some? && t.cached.value.x != 0.0 then
      if NearMiss(t.input, t.cached.value.x) then None else Some(MissWithCached)
    else None
  }

  /** Which counts tell a consistent story, said without the order of the tests. */
  lemma ConsistentTokens(t: Turn)
    ensures TokenContradiction(t).None? <==>
      && (t.input.Some? ==> t.input.value.Finite? && t.input.value.x >= 0.0)
      && (t.cached.Some? ==> t.cached.value.Finite? && t.cached.value.x >= 0.0)
      && (t.input.Some? && t.cached.Some? ==> t.cached.value.x <= t.input.value.x)
      && (t.outcome == Hit ==> t.cached.Some? && t.cached.value.x > 0.0)
      && (t.outcome == Miss && t.cached.Some? && t.cached.value.x > 0.0 ==>
            t.input.Some? && 20.0 * t.cached.value.x < t.input.value.x)
  {
    if t.input.Some? && t.cached.Some? && t.input.value.Finite? && t.cached.value.Finite? && t.input.value.x > 0.0 {
      RatioBelow(t.cached.value.x, t.input.value.x);
    }
  }

  lemma RatioBelow(c: real, i: real)
    requires i > 0.0
    ensures c / i < EFFECTIVE_HIT_MIN_RATIO <==> 20.0 * c < i
  {
    var q := c / i;
    assert q * i == c;
    if q < 0.05 { assert q * i < 0.05 * i; } else { assert q * i >= 0.05 * i; }
  }

  // ---- gaps ----

  datatype Gap = GapBefore(sequence: int) | Duplicate(sequence: int) | MissingTurns(first: int, last: int)

  function BySequence(): (Turn, Turn) -> bool { (a: Turn, b: Turn) => a.sequence <= b.sequence }

  function SortTurns(turns: seq<Turn>): seq<Turn> { Sort(turns, BySequence()) }

  lemma SequencesOrdered()
    ensures Preorder(BySequence())
  {}

  /** The gaps reported at one position of the ordered turns. */
  function GapsAt(ordered: seq<Turn>, k: nat): seq<Gap>
    requires k < |ordered|
  {
    var now := ordered[k].sequence;
    (if ordered[k].gapBefore then [GapBefore(now)] else []) +
    (if k == 0 then []
     else
       var before := ordered[k - 1].sequence;
       if now == before then [Duplicate(now)]
       else if now > before + 1 then [MissingTurns(before + 1, now - 1)]
       else [])
  }

  function GapsUpTo(ordered: seq<Turn>, k: nat): seq<Gap>
    requires k <= |ordered|
  {
    if k == 0 then [] else GapsUpTo(ordered, k - 1) + GapsAt(ordered, k - 1)
  }

  function Gaps(turns: seq<Turn>): seq<Gap> {
    var ordered := SortTurns(turns);
    Dedup(GapsUpTo(ordered, |ordered|))
  }

  method DetectTimelineGaps(turns: seq<Turn>) returns (r: seq<Gap>)
    ensures r == Gaps(turns)
  {
    hide Dedup, SortTurns;
    var ordered := SortTurns(turns);
    var gaps: seq<Gap> := [];
    for index := 0 to |ordered|
      invariant gaps == GapsUpTo(ordered, index)
    {
      var current := ordered[index];
      ghost var known := gaps;
      if current.gapBefore { gaps := gaps + [GapBefore(current.sequence)]; }
      if index == 0 {
        assert gaps == known + GapsAt(ordered, index);
        continue;
      }
      var previous := ordered[index - 1];
      if current.sequence == previous.sequence {
        gaps := gaps + [Duplicate(current.sequence)];
      } else if current.sequence > previous.sequence + 1 {
        gaps := gaps + [MissingTurns(previous.sequence + 1, current.sequence - 1)];
      }
      assert gaps == known + GapsAt(ordered, index);
    }
    r := Dedup(gaps);
  }

  /** The turn at `k` announces no gap and is numbered one above the turn before it. */
  predicate Follows(ordered: seq<Turn>, k: nat)
    requires k < |ordered|
  {
    !ordered[k].gapBefore && (k > 0 ==> ordered[k].sequence == ordered[k - 1].sequence + 1)
  }

  ghost predicate GaplessUpTo(ordered: seq<Turn>, n: nat)
    requires n <= |ordered|
  {
    forall k :: 0 <= k < n ==> Follows(ordered, k)
  }

  ghost predicate Gapless(ordered: seq<Turn>) { GaplessUpTo(ordered, |ordered|) }

  lemma NoGapsAt(ordered: seq<Turn>, k: nat)
    requires k < |ordered| && Sorted(ordered, BySequence())
    ensures GapsAt(ordered, k) == [] <==> Follows(ordered, k)
  {
    assert k > 0 ==> BySequence()(ordered[k - 1], ordered[k]);
  }

  lemma {:induction false} NoGapsUpTo(ordered: seq<Turn>, n: nat)
    requires n <= |ordered| && Sorted(ordered, BySequence())
    ensures GapsUpTo(ordered, n) == [] <==> GaplessUpTo(ordered, n)
  {
    hide GapsAt, Follows, Sorted;
    if n > 0 {
      NoGapsUpTo(ordered, n - 1);
      NoGapsAt(ordered, n - 1);
    }
  }

  /** No gap is reported exactly when the turns are numbered without a break. */
  lemma NoGaps(turns: seq<Turn>)
    ensures Gaps(turns) == [] <==> Gapless(SortTurns(turns))
  {
    var ordered := SortTurns(turns);
    SequencesOrdered();
    SortSorts(turns, BySequence());
    NoGapsUpTo(ordered, |ordered|);
    DedupEmpty(GapsUpTo(ordered, |ordered|));
  }

  // ---- evidence and integrity ----

  datatype Dimension = Identity | ServingAccount | CacheablePrefix | CacheOutcome | TokenAccounting | TimelineOrder

  datatype Kind = Changed | Stable | Observed | Unavailable | GapFound | Contradicted

  datatype Value = Name(text: Text) | OutcomeValue(outcome: Outcome) | Seconds(n: int)

  datatype Detail =
    | OfTokens(contradiction: Contradiction) | OfGap(gap: Gap) | OfDimension(dimension: Dimension, kind: Kind)
    | OfOutcome(outcome: Outcome) | OfIdleGap(seconds: int)

  datatype Evidence = Evidence(
    kind: Kind, dimension: Dimension, from: Option<int>, to: int, fromValue: Option<Value>, toValue: Option<Value>,
      detail: Detail)

  datatype Integrity = Integrity(completeness: Completeness, gaps: seq<Gap>, unavailable: seq<Text>,
    evidence: seq<Evidence>)

  function Rank(c: Completeness): nat {
    match c case Complete => 0 case Partial => 1 case Incomplete => 2 case Contradictory => 3
  }

  function LessComplete(a: Completeness, b: Completeness): Completeness { if Rank(a) >= Rank(b) then a else b }

  function Abs(n: int): nat { if n < 0 then -n else n }

  function GapEvidence(): Gap -> seq<Evidence> {
    (g: Gap) => [Evidence(if g.Duplicate? then Contradicted else GapFound, TimelineOrder, None,
                          Abs(if g.MissingTurns? then g.first else g.sequence), None, None, OfGap(g))]
  }

  function TokenEvidence(): Turn -> seq<Evidence> {
    (t: Turn) =>
      if TokenContradiction(t).None? then []
      else [Evidence(Contradicted, TokenAccounting, None, t.sequence, None, None,
        OfTokens(TokenContradiction(t).value))]
  }

  function DimensionsOf(): Turn -> seq<Text> { (t: Turn) => t.unavailable }

  function Grade(t: Turn): Completeness { if TokenContradiction(t).Some? then Contradictory else t.completeness }

  /** The worst grade of the turns, starting from the given one. */
  function WorstGrade(start: Completeness, turns: seq<Turn>): Completeness {
    if turns == [] then start else LessComplete(WorstGrade(start, turns[..|turns| - 1]), Grade(turns[|turns| - 1]))
  }

  function Inspection(turns: seq<Turn>): Integrity {
    var gaps := Gaps(turns);
    var dimensions := Dedup(FlatMap(DimensionsOf(), turns));
    var grade := WorstGrade(if gaps == [] then Complete else Incomplete, turns);
    Integrity(if dimensions == [] then grade else LessComplete(grade, Partial), gaps, Sort(dimensions, ByText()),
              FlatMap(TokenEvidence(), turns) + FlatMap(GapEvidence(), gaps))
  }

  lemma WorstStep(start: Completeness, turns: seq<Turn>, k: nat)
    requires k < |turns|
    ensures WorstGrade(start, turns[..k + 1]) == LessComplete(WorstGrade(start, turns[..k]), Grade(turns[k]))
  {
    assert turns[..k + 1][..k] == turns[..k];
  }

  /** `seen` with every name of `more` that it does not hold yet. */
  method AddAll(ghost known: seq<Text>, seen: seq<Text>, more: seq<Text>) returns (r: seq<Text>)
    requires seen == Dedup(known)
    ensures r == Dedup(known + more)
  {
    hide Dedup;
    r := seen;
    assert known + more[..0] == known;
    for j := 0 to |more|
      invariant r == Dedup(known + more[..j])
    {
      DedupStep(known + more[..j], more[j]);
      assert known + more[..j] + [more[j]] == known + more[..j + 1];
      if more[j] !in r { r := r + [more[j]]; }
    }
    assert more[..|more|] == more;
  }

  lemma EmptyInspection(start: Completeness)
    ensures WorstGrade(start, []) == start && Dedup<Text>([]) == []
    ensures FlatMap(DimensionsOf(), []) == [] && FlatMap(TokenEvidence(), []) == [] && FlatMap(GapEvidence(), []) == []
  {}

  method InspectIntegrity(turns: seq<Turn>) returns (r: Integrity)
    ensures r == Inspection(turns)
  {
    hide Dedup, FlatMap, Gaps, WorstGrade, TokenContradiction, Sort;
    var completeness, unavailable, evidence := Complete, [], [];
    var gaps := DetectTimelineGaps(turns);
    if |gaps| > 0 { completeness := Incomplete; }
    ghost var start := completeness;
    assert turns[..0] == [];
    EmptyInspection(start);
    for k := 0 to |turns|
      invariant completeness == WorstGrade(start, turns[..k])
      invariant unavailable == Dedup(FlatMap(DimensionsOf(), turns[..k]))
      invariant evidence == FlatMap(TokenEvidence(), turns[..k])
    {
      WorstStep(start, turns, k);
      FlatMapStep(DimensionsOf(), turns, k);
      FlatMapStep(TokenEvidence(), turns, k);
      completeness := LessComplete(completeness, turns[k].completeness);
      unavailable := AddAll(FlatMap(DimensionsOf(), turns[..k]), unavailable, turns[k].unavailable);
      var contradiction := TokenContradiction(turns[k]);
      if contradiction.Some? {
        completeness := Contradictory;
        evidence := evidence + [Evidence(Contradicted, TokenAccounting, None, turns[k].sequence, None, None,
          OfTokens(contradiction.value))];
      }
    }
    assert turns[..|turns|] == turns;
    ghost var ofTokens := evidence;
    assert gaps[..0] == [];
    for k := 0 to |gaps|
      invariant evidence == ofTokens + FlatMap(GapEvidence(), gaps[..k])
    {
      FlatMapStep(GapEvidence(), gaps, k);
      evidence := evidence + GapEvidence()(gaps[k]);
    }
    assert gaps[..|gaps|] == gaps;
    if |unavailable| > 0 { completeness := LessComplete(completeness, Partial); }
    r := Integrity(completeness, gaps, Sort(unavailable, ByText()), evidence);
  }

  /** The unavailable dimensions are those of the turns, each once, in the order of texts. */
  lemma DimensionsSorted(turns: seq<Turn>)
    ensures var ds := Inspection(turns).unavailable;
      && Sorted(ds, ByText()) && Distinct(ds)
      && forall d :: d in ds <==> exists k :: 0 <= k < |turns| && d in turns[k].unavailable
  {
    hide FlatMap, Sort, Gaps, WorstGrade, TextLe;
    var all := FlatMap(DimensionsOf(), turns);
    var ds := Inspection(turns).unavailable;
    DedupMembers(all);
    TextsOrdered();
    SortSorts(Dedup(all), ByText());
    MembersByMultiset(ds, Dedup(all));
    DistinctPermutes(ds, Dedup(all));
    forall d ensures d in ds <==> exists k :: 0 <= k < |turns| && d in turns[k].unavailable {
      FlatMapMember(DimensionsOf(), turns, d);
      if k :| 0 <= k < |turns| && d in DimensionsOf()(turns[k]) { assert d in turns[k].unavailable; }
      if k :| 0 <= k < |turns| && d in turns[k].unavailable { assert d in DimensionsOf()(turns[k]); }
    }
  }

  // ---- when the evidence is complete ----

  /** A turn that misses nothing and contradicts nothing. */
  predicate Clean(t: Turn) { t.completeness == Complete && t.unavailable == [] && TokenContradiction(t).None? }

  ghost predicate AllClean(turns: seq<Turn>) { forall k :: 0 <= k < |turns| ==> Clean(turns[k]) }

  lemma {:induction false} WorstIsComplete(start: Completeness, turns: seq<Turn>)
    ensures WorstGrade(start, turns) == Complete <==> start == Complete && forall k :: 0 <= k < |turns| ==>
      Grade(turns[k]) == Complete
    decreases |turns|
  {
    hide Grade;
    if turns != [] { WorstIsComplete(start, turns[..|turns| - 1]); }
  }

  lemma {:induction false} NoDimensions(turns: seq<Turn>)
    ensures FlatMap(DimensionsOf(), turns) == [] <==> forall k :: 0 <= k < |turns| ==> turns[k].unavailable == []
    decreases |turns|
  {
    if turns != [] { NoDimensions(turns[..|turns| - 1]); }
  }

  lemma {:induction false} NoTokenEvidence(turns: seq<Turn>)
    requires AllClean(turns)
    ensures FlatMap(TokenEvidence(), turns) == []
    decreases |turns|
  {
    hide TokenContradiction;
    if turns != [] { NoTokenEvidence(turns[..|turns| - 1]); }
  }

  /**
   Ordered evidence is complete exactly when every turn is clean and the numbering has no break; then nothing is
   reported.
   */
  lemma CompleteEvidence(ordered: seq<Turn>)
    requires Sorted(ordered, BySequence())
    ensures Inspection(ordered).completeness == Complete <==> AllClean(ordered) && Gapless(ordered)
    ensures Inspection(ordered).completeness == Complete ==> Inspection(ordered) == Integrity(Complete, [], [], [])
  {
    hide TokenContradiction, Gaps, FlatMap, WorstGrade, Gapless;
    SortSorted(ordered, BySequence());
    NoGaps(ordered);
    var dimensions := FlatMap(DimensionsOf(), ordered);
    DedupEmpty(dimensions);
    NoDimensions(ordered);
    WorstIsComplete(if Gaps(ordered) == [] then Complete else Incomplete, ordered);
    GradeOfClean(ordered);
    if AllClean(ordered) && Gapless(ordered) {
      NoTokenEvidence(ordered);
      EmptyInspection(Complete);
      SortEmpty();
    }
  }

  lemma SortEmpty()
    ensures Sort([], ByText()) == []
  {}

  lemma GradeOfClean(turns: seq<Turn>)
    ensures AllClean(turns) <==>
      (forall k :: 0 <= k < |turns| ==> Grade(turns[k]) == Complete)
      && (forall k :: 0 <= k < |turns| ==> turns[k].unavailable == [])
  {
    hide TokenContradiction;
    assert forall k :: 0 <= k < |turns| ==> (Clean(turns[k]) <==>
      Grade(turns[k]) == Complete && turns[k].unavailable == []);
  }
}
