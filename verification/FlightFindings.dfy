/** What the findings about a timeline mean, read off the turns in any order. */
module FlightFindings {
  import opened Units
  import opened Seqs
  import opened Sorting
  import opened TextOrder
  import opened FlightTimeline
  import opened FlightDiagnosis

  // ---- token contradictions ----

  predicate IsCount(a: Amount) { a.Finite? && a.x >= 0.0 }

  /** What each contradiction says of the turn on its own. */
  ghost predicate Shows(t: Turn, c: Contradiction) {
    match c
    case InputInvalid => t.input.Some? && !IsCount(t.input.value)
    case CachedInvalid => t.cached.Some? && !IsCount(t.cached.value)
    case CachedExceedsInput =>
      && t.input.Some? && t.cached.Some? && IsCount(t.input.value) && IsCount(t.cached.value)
      && t.cached.value.x > t.input.value.x
    case HitWithoutCached => t.outcome == Hit && (t.cached.None? || t.cached.value == Finite(0.0))
    case MissWithCached =>
      && t.outcome == Miss && t.cached.Some? && IsCount(t.cached.value) && t.cached.value.x > 0.0
      && !(t.input.Some? && IsCount(t.input.value) && 20.0 * t.cached.value.x < t.input.value.x)
  }

  function Place(c: Contradiction): nat {
    match c
    case InputInvalid => 0 case CachedInvalid => 1 case CachedExceedsInput => 2 case HitWithoutCached => 3
    case MissWithCached => 4
  }

  /** A turn is charged with the first contradiction that it shows. */
  lemma ContradictionMeans(t: Turn, c: Contradiction)
    ensures TokenContradiction(t) == Some(c) <==>
      Shows(t, c) && forall other: Contradiction :: Place(other) < Place(c) ==> !Shows(t, other)
  {
    if t.input.Some? && t.cached.Some? && t.input.value.Finite? && t.cached.value.Finite? && t.input.value.x > 0.0 {
      RatioBelow(t.cached.value.x, t.input.value.x);
    }
    assert Place(InputInvalid) < Place(CachedInvalid) < Place(CachedExceedsInput) < Place(HitWithoutCached);
    if TokenContradiction(t) == Some(c) {
      forall other: Contradiction | Place(other) < Place(c) ensures !Shows(t, other) {}
    }
  }

  // ---- gaps ----

  function NumberOf(): Turn -> seq<int> { (t: Turn) => [t.sequence] }

  function Numbers(turns: seq<Turn>): seq<int> { FlatMap(NumberOf(), turns) }

  lemma {:induction false} NumbersAre(turns: seq<Turn>)
    ensures |Numbers(turns)| == |turns| && forall k :: 0 <= k < |turns| ==> Numbers(turns)[k] == turns[k].sequence
    decreases |turns|
  {
    if turns != [] { NumbersAre(turns[..|turns| - 1]); }
  }

  ghost predicate Twice(xs: seq<int>, n: int) { exists i, j :: 0 <= i < j < |xs| && xs[i] == n && xs[j] == n }

  lemma {:induction false} TwiceCounts(xs: seq<int>, n: int)
    ensures Twice(xs, n) <==> multiset(xs)[n] >= 2
    decreases |xs|
  {
    if xs != [] {
      var k := |xs| - 1;
      var front := xs[..k];
      assert xs == front + [xs[k]];
      TwiceCounts(front, n);
      if Twice(front, n) {
        var i, j :| 0 <= i < j < |front| && front[i] == n && front[j] == n;
        assert xs[i] == n && xs[j] == n;
      }
      if Twice(xs, n) {
        var i, j :| 0 <= i < j < |xs| && xs[i] == n && xs[j] == n;
        assert front[i] == n && n in multiset(front);
        if j < k { assert front[j] == n; }
      }
      if n == xs[k] && n in multiset(front) {
        var i :| 0 <= i < |front| && front[i] == n;
        assert xs[i] == n && xs[k] == n;
      }
    }
  }

  /** What each gap says of the numbers and the announcements, whatever their order. */
  ghost predicate IsGap(turns: seq<Turn>, g: Gap) {
    match g
    case GapBefore(n) => exists k :: 0 <= k < |turns| && turns[k].sequence == n && turns[k].gapBefore
    case Duplicate(n) => Twice(Numbers(turns), n)
    case MissingTurns(first, last) =>
      && first <= last && first - 1 in Numbers(turns) && last + 1 in Numbers(turns)
      && forall n :: first <= n <= last ==> n !in Numbers(turns)
  }

  lemma IsGapPermutes(a: seq<Turn>, b: seq<Turn>, g: Gap)
    requires multiset(a) == multiset(b) && IsGap(a, g)
    ensures IsGap(b, g)
  {
    hide FlatMap, Twice;
    FlatMapPermutes(NumberOf(), a, b);
    MembersByMultiset(a, b);
    MembersByMultiset(Numbers(a), Numbers(b));
    match g {
      case GapBefore(n) =>
        var k :| 0 <= k < |a| && a[k].sequence == n && a[k].gapBefore;
        assert a[k] in b;
        var j :| 0 <= j < |b| && b[j] == a[k];
      case Duplicate(n) =>
        TwiceCounts(Numbers(a), n);
        TwiceCounts(Numbers(b), n);
      case MissingTurns(_, _) =>
    }
  }

  lemma {:induction false} GapsUpToMembers(ordered: seq<Turn>, n: nat, g: Gap)
    requires n <= |ordered|
    ensures g in GapsUpTo(ordered, n) <==> exists k :: 0 <= k < n && g in GapsAt(ordered, k)
  {
    hide GapsAt;
    if n > 0 { GapsUpToMembers(ordered, n - 1, g); }
  }

  /** In ascending order, a gap shows between neighbours. */
  lemma GapAt(ordered: seq<Turn>, k: nat, g: Gap)
    requires Sorted(ordered, BySequence()) && k < |ordered| && g in GapsAt(ordered, k)
    ensures IsGap(ordered, g)
  {
    NumbersAre(ordered);
    var xs := Numbers(ordered);
    assert xs[k] == ordered[k].sequence;
    if k > 0 { assert xs[k - 1] == ordered[k - 1].sequence; }
    if g.MissingTurns? {
      forall j | 0 <= j < |xs| ensures xs[j] < g.first || xs[j] > g.last {
        if j < k - 1 { assert BySequence()(ordered[j], ordered[k - 1]); }
        if j > k { assert BySequence()(ordered[k], ordered[j]); }
      }
    }
  }

  lemma Ascends(ordered: seq<Turn>, i: nat, j: nat)
    requires Sorted(ordered, BySequence())
    ensures i <= j < |ordered| ==> ordered[i].sequence <= ordered[j].sequence
  {
    if i < j < |ordered| { assert BySequence()(ordered[i], ordered[j]); }
  }

  lemma GapShows(ordered: seq<Turn>, g: Gap) returns (k: nat)
    requires Sorted(ordered, BySequence()) && IsGap(ordered, g)
    ensures k < |ordered| && g in GapsAt(ordered, k)
  {
    hide Sorted;
    NumbersAre(ordered);
    match g {
      case GapBefore(n) =>
        k :| 0 <= k < |ordered| && ordered[k].sequence == n && ordered[k].gapBefore;
      case Duplicate(n) =>
        var i, j :| 0 <= i < j < |Numbers(ordered)| && Numbers(ordered)[i] == n && Numbers(ordered)[j] == n;
        k := i + 1;
        Ascends(ordered, i, k);
        Ascends(ordered, k, j);
      case MissingTurns(first, last) =>
        k := MissingShows(ordered, first, last);
    }
  }

  lemma MissingShows(ordered: seq<Turn>, first: int, last: int) returns (k: nat)
    requires Sorted(ordered, BySequence()) && IsGap(ordered, MissingTurns(first, last))
    ensures 0 < k < |ordered| && ordered[k - 1].sequence == first - 1 && ordered[k].sequence == last + 1
  {
    hide Sorted;
    NumbersAre(ordered);
    var xs := Numbers(ordered);
    var i :| 0 <= i < |xs| && xs[i] == first - 1;
    var j :| 0 <= j < |xs| && xs[j] == last + 1;
    k := FirstAbove(ordered, last, j);
    Ascends(ordered, k, i);
    assert i < k;
    Ascends(ordered, i, k - 1);
    Ascends(ordered, k, j);
    assert xs[k - 1] in xs && xs[k] in xs;
  }

  /** The first turn numbered above `n`. */
  lemma {:induction false} FirstAbove(ordered: seq<Turn>, n: int, j: nat) returns (k: nat)
    requires j < |ordered| && ordered[j].sequence > n
    ensures k <= j && ordered[k].sequence > n && forall i :: 0 <= i < k ==> ordered[i].sequence <= n
  {
    if i :| 0 <= i < j && ordered[i].sequence > n {
      k := FirstAbove(ordered, n, i);
    } else {
      k := j;
    }
  }

  /** The reported gaps, each once, are what the turns show in any order. */
  lemma GapsMean(turns: seq<Turn>, g: Gap)
    ensures g in Gaps(turns) <==> IsGap(turns, g)
    ensures Distinct(Gaps(turns))
  {
    hide GapsAt, IsGap, Sort, Dedup, Sorted;
    var ordered := SortTurns(turns);
    TurnsAreSorted(turns);
    SortPermutes(turns, BySequence());
    DedupMembers(GapsUpTo(ordered, |ordered|));
    GapsUpToMembers(ordered, |ordered|, g);
    if g in Gaps(turns) {
      var k :| 0 <= k < |ordered| && g in GapsAt(ordered, k);
      GapAt(ordered, k, g);
      IsGapPermutes(ordered, turns, g);
    }
    if IsGap(turns, g) {
      IsGapPermutes(turns, ordered, g);
      var k := GapShows(ordered, g);
    }
  }

  // ---- the grade ----

  lemma {:induction false} WorstMeans(start: Completeness, turns: seq<Turn>, c: Completeness)
    ensures Rank(WorstGrade(start, turns)) >= Rank(c) <==>
      Rank(start) >= Rank(c) || exists k :: 0 <= k < |turns| && Rank(Grade(turns[k])) >= Rank(c)
    decreases |turns|
  {
    hide Grade;
    if turns != [] {
      var n := |turns| - 1;
      WorstMeans(start, turns[..n], c);
      if k :| 0 <= k < |turns| && Rank(Grade(turns[k])) >= Rank(c) {
        if k < n { assert Rank(Grade(turns[..n][k])) >= Rank(c); }
      }
      if k :| 0 <= k < n && Rank(Grade(turns[..n][k])) >= Rank(c) { assert Rank(Grade(turns[k])) >= Rank(c); }
    }
  }

  predicate Disagrees(t: Turn) { t.completeness == Contradictory || TokenContradiction(t).Some? }

  /** The grade: contradictory for a contradiction, else incomplete for a gap, else partial for anything missing. */
  lemma GradeMeans(turns: seq<Turn>)
    ensures var grade := Inspection(turns).completeness;
      && (grade == Contradictory <==> exists k :: 0 <= k < |turns| && Disagrees(turns[k]))
      && (grade == Incomplete <==>
            && (forall k :: 0 <= k < |turns| ==> !Disagrees(turns[k]))
            && (Gaps(turns) != [] || exists k :: 0 <= k < |turns| && turns[k].completeness == Incomplete))
      && (grade == Complete <==> Gaps(turns) == [] && AllClean(turns))
  {
    hide Gaps, TokenContradiction, FlatMap, WorstGrade;
    var start := if Gaps(turns) == [] then Complete else Incomplete;
    WorstMeans(start, turns, Contradictory);
    WorstMeans(start, turns, Incomplete);
    WorstMeans(start, turns, Partial);
    DedupEmpty(FlatMap(DimensionsOf(), turns));
    NoDimensions(turns);
    GradeOfClean(turns);
    forall k | 0 <= k < |turns| ensures Disagrees(turns[k]) <==> Rank(Grade(turns[k])) >= Rank(Contradictory) {}
    forall k | 0 <= k < |turns| && !Disagrees(turns[k])
      ensures Rank(Grade(turns[k])) >= Rank(Incomplete) <==> turns[k].completeness == Incomplete {}
    forall k | 0 <= k < |turns| ensures Rank(Grade(turns[k])) >= Rank(Partial) <==> Grade(turns[k]) != Complete {}
  }

  // ---- evidence ----

  /** What a turn or a gap has to say against the record. */
  ghost predicate Testifies(turns: seq<Turn>, e: Evidence) {
    && e.from.None? && e.fromValue.None? && e.toValue.None?
    && match e.detail
       case OfTokens(c) =>
         && e.kind == Contradicted && e.dimension == TokenAccounting
         && exists k :: 0 <= k < |turns| && turns[k].sequence == e.to && TokenContradiction(turns[k]) == Some(c)
       case OfGap(Duplicate(n)) =>
         e.kind == Contradicted && e.dimension == TimelineOrder && IsGap(turns, Duplicate(n)) && Size(e.to, n)
       case OfGap(GapBefore(n)) =>
         e.kind == GapFound && e.dimension == TimelineOrder && IsGap(turns, GapBefore(n)) && Size(e.to, n)
       case OfGap(MissingTurns(a, b)) =>
         e.kind == GapFound && e.dimension == TimelineOrder && IsGap(turns, MissingTurns(a, b)) && Size(e.to, a)
       case _ => false
  }

  predicate Size(m: int, n: int) { m >= 0 && (m == n || m == -n) }

  lemma GapTestifies(turns: seq<Turn>, g: Gap, e: Evidence)
    requires IsGap(turns, g)
    ensures e in GapEvidence()(g) <==> Testifies(turns, e) && e.detail == OfGap(g)
  {
    hide IsGap;
  }

  lemma TokensTestify(turns: seq<Turn>, e: Evidence)
    ensures e in FlatMap(TokenEvidence(), turns) <==> Testifies(turns, e) && e.detail.OfTokens?
  {
    hide FlatMap, TokenContradiction, IsGap;
    FlatMapMember(TokenEvidence(), turns, e);
    if k :| 0 <= k < |turns| && e in TokenEvidence()(turns[k]) {
      assert turns[k].sequence == e.to && TokenContradiction(turns[k]) == Some(e.detail.contradiction);
    }
    if Testifies(turns, e) && e.detail.OfTokens? {
      var k :| 0 <= k < |turns| && turns[k].sequence == e.to &&
        TokenContradiction(turns[k]) == Some(e.detail.contradiction);
      assert e in TokenEvidence()(turns[k]);
    }
  }

  /** The evidence is exactly what contradictory turns and gaps give. */
  lemma EvidenceMeans(turns: seq<Turn>, e: Evidence)
    ensures e in Inspection(turns).evidence <==> Testifies(turns, e)
  {
    hide FlatMap, Gaps, WorstGrade, Testifies, IsGap;
    TokensTestify(turns, e);
    var gaps := Gaps(turns);
    FlatMapMember(GapEvidence(), gaps, e);
    if k :| 0 <= k < |gaps| && e in GapEvidence()(gaps[k]) {
      GapsMean(turns, gaps[k]);
      GapTestifies(turns, gaps[k], e);
    }
    if Testifies(turns, e) && !e.detail.OfTokens? {
      TestifiedGap(turns, e);
      var g := e.detail.gap;
      GapsMean(turns, g);
      GapTestifies(turns, g, e);
      var k :| 0 <= k < |gaps| && gaps[k] == g;
      assert e in GapEvidence()(gaps[k]);
    }
  }

  lemma TestifiedGap(turns: seq<Turn>, e: Evidence)
    requires Testifies(turns, e) && !e.detail.OfTokens?
    ensures e.detail.OfGap? && IsGap(turns, e.detail.gap)
  {}

  // ---- transitions ----

  /** Two names are compared if both are known. */
  ghost predicate Tells(e: Evidence, d: Dimension, a: Turn, b: Turn, x: Option<Text>, y: Option<Text>) {
    && e.dimension == d && e.from == Some(a.sequence) && e.to == b.sequence
    && (e.kind == Changed <==> x.Some? && y.Some? && x.value != y.value)
    && (e.kind == Stable <==> x.Some? && y.Some? && x.value == y.value)
    && (e.kind == Unavailable <==> x.None? || y.None?)
    && (e.fromValue.Some? <==> x.Some?) && (x.Some? ==> e.fromValue == Some(Name(x.value)))
    && (e.toValue.Some? <==> y.Some?) && (y.Some? ==> e.toValue == Some(Name(y.value)))
  }

  lemma TransitionTells(a: Turn, b: Turn)
    ensures var e := Transition(a, b);
      && |e| == 3 && Tells(e[0], Identity, a, b, a.identity, b.identity)
      && Tells(e[1], ServingAccount, a, b, a.account, b.account)
      && Tells(e[2], CacheablePrefix, a, b, a.prefix, b.prefix)
  {}

  /** An idle gap is reported from one and a half minutes on, in whole seconds. */
  lemma IdleMeans(a: Turn, b: Turn)
    ensures IdleEvidence(a, b) != [] <==> a.millis.Some? && b.millis.Some? && b.millis.value - a.millis.value >= 90000.0
    ensures IdleEvidence(a, b) != [] ==>
      && |IdleEvidence(a, b)| == 1 && IdleEvidence(a, b)[0].detail.OfIdleGap?
      && var off := 1000.0 * (IdleEvidence(a, b)[0].detail.seconds as real) - (b.millis.value - a.millis.value);
         -500.0 < off <= 500.0
  {}

  /** The outcome of a turn is evidence, unavailable exactly if unknown. */
  lemma OutcomeTells(t: Turn)
    ensures var e := OutcomeEvidence(t);
      && e.dimension == CacheOutcome && e.to == t.sequence && e.toValue == Some(OutcomeValue(t.outcome))
      && (t.outcome == Outcome.Unknown ==> e.kind == Unavailable)
      && (t.outcome != Outcome.Unknown ==> e.kind == Observed)
  {}

  ghost predicate IsLeast(m: int, ns: seq<int>) { m in ns && forall n :: n in ns ==> m <= n }

  /** Where nothing falls, the baseline is the smallest number, and a final hit says what stayed the same. */
  lemma QuietMeans(t: Timeline, r: Report)
    requires Diagnoses(t, r) && r.diagnosed.None?
    ensures r.cause.None? && r.supporting == []
    ensures r.baseline.None? <==> t.turns == []
    ensures r.baseline.Some? ==> IsLeast(r.baseline.value, Numbers(t.turns))
    ensures var turns := SortTurns(t.turns); var n := |turns|;
      forall e :: e in r.continuity <==>
        n >= 2 && turns[n - 1].outcome == Hit && e in Transition(turns[n - 2], turns[n - 1]) && e.kind == Stable
  {
    hide SortTurns, Inspection, FollowsHit, FlatMap, Compare;
    var turns := SortTurns(t.turns);
    QuietIs(t, r);
    SmallestFirst(t.turns);
    if |turns| >= 2 {
      var e := Transition(turns[|turns| - 2], turns[|turns| - 1]);
      OfThree(e[0], e[1], e[2], Stable);
    }
  }

  lemma QuietIs(t: Timeline, r: Report)
    requires Diagnoses(t, r) && r.diagnosed.None?
    ensures r == QuietReport(t, SortTurns(t.turns), Inspection(SortTurns(t.turns)))
  {
    hide SortTurns, Inspection, FollowsHit, Transition, LineageKnown, IdleEvidence, OutcomeEvidence;
    DiagnosedIffFall(t, r);
    forall i: nat ensures !FirstFall(SortTurns(t.turns), i) {}
  }

  lemma SmallestFirst(turns: seq<Turn>)
    ensures var s := SortTurns(turns);
      |s| == |turns| && (s != [] ==> IsLeast(s[0].sequence, Numbers(turns)))
  {
    hide Sort, FlatMap;
    var s := SortTurns(turns);
    TurnsAreSorted(turns);
    SortPermutes(turns, BySequence());
    FlatMapPermutes(NumberOf(), s, turns);
    MembersByMultiset(Numbers(s), Numbers(turns));
    NumbersAre(s);
    if s != [] {
      assert Numbers(s)[0] == s[0].sequence;
      forall n | n in Numbers(turns) ensures s[0].sequence <= n {
        var k :| 0 <= k < |Numbers(s)| && Numbers(s)[k] == n;
        Ascends(s, 0, k);
      }
    }
  }

  /** A report is complete exactly for a clean unbroken record on which nothing fell, or fell for a named cause. */
  lemma ReportGrade(t: Timeline, r: Report)
    requires Diagnoses(t, r)
    ensures r.completeness == Complete <==>
      Gaps(t.turns) == [] && AllClean(t.turns) && r.cause != Some(TelemetryUnknown)
    ensures forall g :: g in r.gaps <==> IsGap(t.turns, g)
    ensures forall d :: d in r.unavailable <==> Lacking(t.turns, d)
  {
    hide Inspection, FollowsHit, LineageKnown, Transition, OutcomeEvidence, IdleEvidence, AllClean, IsGap, NamedCause;
    hide Sort, Gaps, Dedup, GapsUpTo;
    var turns := SortTurns(t.turns);
    var integrity := Inspection(turns);
    SortPermutes(t.turns, BySequence());
    GradeMeans(turns);
    CleanPermutes(turns, t.turns);
    GapsPermute(turns, t.turns);
    InspectionGaps(turns);
    DimensionsSorted(turns);
    forall d ensures d in integrity.unavailable <==> Lacking(t.turns, d) { DimensionsPermute(turns, t.turns, d); }
    forall g ensures g in Gaps(turns) <==> IsGap(t.turns, g) {
      GapsMean(turns, g);
      if IsGap(turns, g) { IsGapPermutes(turns, t.turns, g); }
      if IsGap(t.turns, g) { IsGapPermutes(t.turns, turns, g); }
    }
    ReportShape(t, r);
  }

  lemma InspectionGaps(turns: seq<Turn>)
    ensures Inspection(turns).gaps == Gaps(turns)
  {}

  lemma ReportShape(t: Timeline, r: Report)
    requires Diagnoses(t, r)
    ensures var integrity := Inspection(SortTurns(t.turns));
      && r.gaps == integrity.gaps && r.unavailable == integrity.unavailable
      && (r.completeness == Complete <==> integrity.completeness == Complete && r.cause != Some(TelemetryUnknown))
  {
    hide Inspection, LineageKnown, Transition, OutcomeEvidence, IdleEvidence, SortTurns, FollowsHit;
    var turns := SortTurns(t.turns);
    if i: nat :| FollowsHit(turns, i) {
      var first := FirstBelow(turns, i);
      FallFollowsHit(turns, first);
    }
  }

  lemma CleanPermutes(a: seq<Turn>, b: seq<Turn>)
    requires multiset(a) == multiset(b)
    ensures AllClean(a) <==> AllClean(b)
  {
    hide Clean;
    MembersByMultiset(a, b);
    if AllClean(a) {
      forall k | 0 <= k < |b| ensures Clean(b[k]) { assert b[k] in a; }
    }
    if AllClean(b) {
      forall k | 0 <= k < |a| ensures Clean(a[k]) { assert a[k] in b; }
    }
  }

  lemma GapsPermute(a: seq<Turn>, b: seq<Turn>)
    requires multiset(a) == multiset(b)
    ensures Gaps(a) == [] <==> Gaps(b) == []
  {
    hide Gaps, IsGap;
    if Gaps(a) != [] {
      GapsMean(a, Gaps(a)[0]);
      IsGapPermutes(a, b, Gaps(a)[0]);
      GapsMean(b, Gaps(a)[0]);
    }
    if Gaps(b) != [] {
      GapsMean(b, Gaps(b)[0]);
      IsGapPermutes(b, a, Gaps(b)[0]);
      GapsMean(a, Gaps(b)[0]);
    }
  }

  ghost predicate Lacking(turns: seq<Turn>, d: Text) { exists k :: 0 <= k < |turns| && d in turns[k].unavailable }

  lemma DimensionsPermute(a: seq<Turn>, b: seq<Turn>, d: Text)
    requires multiset(a) == multiset(b)
    ensures Lacking(a, d) <==> Lacking(b, d)
  {
    MembersByMultiset(a, b);
    if k :| 0 <= k < |a| && d in a[k].unavailable {
      assert a[k] in b;
      var j :| 0 <= j < |b| && b[j] == a[k];
    }
    if k :| 0 <= k < |b| && d in b[k].unavailable {
      assert b[k] in a;
      var j :| 0 <= j < |a| && a[j] == b[k];
    }
  }
}
