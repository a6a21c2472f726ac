/** The order of a cohort's observations: by time if their timestamps are dates, or all of them are not. */
module CohortOrder {
  import opened Units
  import opened Seqs
  import opened Sorting
  import opened FlightTimeline
  import opened CohortSeal
  import opened CohortAnalysis
  import opened CohortSelection
  import opened CohortReport
  import opened CohortTheorems

  // ---- sorting asks about pairs of elements only ----

  ghost predicate AgreeOn<T(!new)>(xs: seq<T>, le: (T, T) -> bool, ge: (T, T) -> bool) {
    forall a, b :: a in xs && b in xs ==> le(a, b) == ge(a, b)
  }

  lemma {:induction false} InsertCongruent<T(!new)>(x: T, xs: seq<T>, le: (T, T) -> bool, ge: (T, T) -> bool)
    requires forall y :: y in xs ==> le(y, x) == ge(y, x)
    ensures Insert(x, xs, le) == Insert(x, xs, ge)
    decreases |xs|
  {
    if xs != [] { InsertCongruent(x, xs[..|xs| - 1], le, ge); }
  }

  lemma {:induction false} SortCongruent<T(!new)>(xs: seq<T>, le: (T, T) -> bool, ge: (T, T) -> bool)
    requires AgreeOn(xs, le, ge)
    ensures Sort(xs, le) == Sort(xs, ge)
    decreases |xs|
  {
    hide Insert;
    if xs != [] {
      var n := |xs| - 1;
      SortCongruent(xs[..n], le, ge);
      SortPermutes(xs[..n], le);
      MembersByMultiset(Sort(xs[..n], le), xs[..n]);
      assert xs[n] in xs && forall y :: y in xs[..n] ==> y in xs;
      InsertCongruent(xs[n], Sort(xs[..n], le), le, ge);
    }
  }

  // ---- the order ----

  /** The instant of a timestamp; all that are no dates share one. */
  function Instant(host: Host, o: Observation): real {
    if host.parse(o.timestamp).Some? then host.parse(o.timestamp).value else 0.0
  }

  /** Earlier, or at the same instant with the smaller timestamp, conversation and sequence, in that order. */
  predicate Precedes(host: Host, a: Observation, b: Observation) {
    || Instant(host, a) < Instant(host, b)
    || (Instant(host, a) == Instant(host, b) &&
        (|| host.rank(a.timestamp) < host.rank(b.timestamp)
         || (host.rank(a.timestamp) == host.rank(b.timestamp) &&
             (|| host.rank(a.conversation) < host.rank(b.conversation)
              || (host.rank(a.conversation) == host.rank(b.conversation) && a.sequence <= b.sequence)))))
  }

  function InTime(host: Host): (Observation, Observation) -> bool { (a, b) => Precedes(host, a, b) }

  lemma TimeOrders(host: Host)
    ensures Preorder(InTime(host))
  {}

  /** Either every timestamp is a date, or none is. */
  ghost predicate Uniform(host: Host, os: seq<Observation>) {
    || (forall o :: o in os ==> host.parse(o.timestamp).Some?)
    || (forall o :: o in os ==> host.parse(o.timestamp).None?)
  }

  /** Observations with uniform timestamps are arranged in time. */
  lemma ArrangedInTime(host: Host, os: seq<Observation>)
    requires Uniform(host, os)
    ensures Sorted(Arrange(host, os), InTime(host)) && multiset(Arrange(host, os)) == multiset(os)
  {
    hide Sort, Preorder, Sorted;
    forall a, b | a in os && b in os ensures ByTime(host)(a, b) == InTime(host)(a, b) {}
    SortCongruent(os, ByTime(host), InTime(host));
    TimeOrders(host);
    SortSorts(os, InTime(host));
  }

  /** A date, a text that is none, and a later date whose text comes first: the comparison of pairs goes round. */
  lemma MixedGoesRound(host: Host, a: Observation, b: Observation, c: Observation)
    requires host.parse(a.timestamp).Some? && host.parse(b.timestamp).None? && host.parse(c.timestamp).Some?
    requires host.rank(c.timestamp) < host.rank(b.timestamp) < host.rank(a.timestamp)
    requires host.parse(a.timestamp).value < host.parse(c.timestamp).value
    ensures NotAfter(host, a, c) && NotAfter(host, c, b) && NotAfter(host, b, a)
    ensures !NotAfter(host, c, a) && !NotAfter(host, b, c) && !NotAfter(host, a, b)
  {}

  // ---- what a cohort reports of it ----

  /** The list is the observations in time. */
  ghost predicate Timeline(host: Host, os: seq<Observation>, timed: seq<Observation>) {
    multiset(timed) == multiset(os) && Sorted(timed, InTime(host))
  }

  ghost predicate NamesEach(cs: seq<Contributor>, os: seq<Observation>) {
    |cs| == |os| && forall k :: 0 <= k < |os| ==> cs[k] == Contributor(os[k].conversation, os[k].sequence)
  }

  lemma {:induction false} ContributorsList(os: seq<Observation>)
    ensures NamesEach(Contributors(os), os)
    decreases |os|
  {
    if os != [] { ContributorsList(os[..|os| - 1]); }
  }

  /** A cohort with uniform timestamps lists its observations in time, and spans from the first to the last. */
  lemma SummaryInTime(host: Host, g: Group) returns (timed: seq<Observation>)
    requires Uniform(host, g.observations)
    ensures Timeline(host, g.observations, timed) && NamesEach(SummaryOf(host, g).contributors, timed)
    ensures timed != [] ==>
      SummaryOf(host, g).first == timed[0].timestamp && SummaryOf(host, g).last == timed[|timed| - 1].timestamp
  {
    hide Arrange, CountsOf, FlatMap, BlockersOf, SealsComplete, VisibleDimensions, GradeAll, Sorted;
    timed := Arrange(host, g.observations);
    ArrangedInTime(host, g.observations);
    ContributorsList(timed);
  }

  lemma FirstAndLast(host: Host, timed: seq<Observation>, o: Observation)
    requires Sorted(timed, InTime(host)) && o in timed
    ensures Precedes(host, timed[0], o) && Precedes(host, o, timed[|timed| - 1])
  {
    var k :| 0 <= k < |timed| && timed[k] == o;
    assert k > 0 ==> InTime(host)(timed[0], timed[k]);
    assert k < |timed| - 1 ==> InTime(host)(timed[k], timed[|timed| - 1]);
  }

  /** No observation of a cohort with dates is before its first timestamp or after its last. */
  lemma SummarySpans(host: Host, g: Group, o: Observation)
    requires o in g.observations && forall x :: x in g.observations ==> host.parse(x.timestamp).Some?
    ensures var s := SummaryOf(host, g); var first, last := host.parse(s.first), host.parse(s.last);
      first.Some? && last.Some? && first.value <= host.parse(o.timestamp).value <= last.value
  {
    hide SummaryOf, Sorted;
    var timed := SummaryInTime(host, g);
    MembersByMultiset(timed, g.observations);
    FirstAndLast(host, timed, o);
    assert timed[0] in g.observations && timed[|timed| - 1] in g.observations;
  }

  // ---- the order of the cohorts ----

  lemma {:induction false} CohortKeepsTime(host: Host, os: seq<Observation>, id: Text)
    requires Sorted(os, InTime(host))
    ensures Sorted(Cohort(os, id), InTime(host))
    decreases |os|
  {
    hide FlatMap, CohortId;
    if os == [] {
      FlatMapNone(KeepCohort(id));
    } else {
      var front, o := os[..|os| - 1], os[|os| - 1];
      assert os == front + [o];
      CohortKeepsTime(host, front, id);
      FlatMapLast(KeepCohort(id), front, o);
      var kept := Cohort(front, id);
      forall k | 0 <= k < |kept| ensures InTime(host)(kept[k], o) {
        CohortMember(front, id, kept[k]);
        var j :| 0 <= j < |front| && front[j] == kept[k];
        assert os[j] == front[j] && InTime(host)(os[j], os[|os| - 1]);
      }
      SortedMore(host, kept, o);
    }
  }

  lemma SortedMore(host: Host, kept: seq<Observation>, o: Observation)
    requires Sorted(kept, InTime(host)) && forall k :: 0 <= k < |kept| ==> InTime(host)(kept[k], o)
    ensures Sorted(kept + [o], InTime(host)) && Sorted(kept + [], InTime(host))
  {
    assert kept + [] == kept;
    forall i, j | 0 <= i < j < |kept + [o]| ensures InTime(host)((kept + [o])[i], (kept + [o])[j]) {
      if j < |kept| { assert InTime(host)(kept[i], kept[j]); }
    }
  }

  /** Groups by their first observations, then by name; a group without any comes first. */
  predicate GroupPrecedes(host: Host, a: Group, b: Group) {
    if a.observations == [] || b.observations == [] then a.observations == []
    else
      var x, y := a.observations[0], b.observations[0];
      Precedes(host, x, y) && (Precedes(host, y, x) ==> host.rank(CohortId(a.seal)) <= host.rank(CohortId(b.seal)))
  }

  function GroupsInTime(host: Host): (Group, Group) -> bool { (a, b) => GroupPrecedes(host, a, b) }

  lemma GroupsOrder(host: Host)
    ensures Preorder(GroupsInTime(host))
  {
    hide Precedes, CohortId;
    forall a, b ensures GroupsInTime(host)(a, b) || GroupsInTime(host)(b, a) {
      if a.observations != [] && b.observations != [] {
        Chain(host, a.observations[0], b.observations[0], a.observations[0]);
      }
    }
    forall a, b, c | GroupsInTime(host)(a, b) && GroupsInTime(host)(b, c) ensures GroupsInTime(host)(a, c) {
      if a.observations != [] && b.observations != [] && c.observations != [] {
        var x, y, z := a.observations[0], b.observations[0], c.observations[0];
        Chain(host, x, y, z);
        Chain(host, z, x, y);
        Chain(host, y, z, x);
      }
    }
  }

  lemma Chain(host: Host, x: Observation, y: Observation, z: Observation)
    ensures Precedes(host, x, y) || Precedes(host, y, x)
    ensures Precedes(host, x, y) && Precedes(host, y, z) ==> Precedes(host, x, z)
  {}

  lemma PairsAgree(host: Host, os: seq<Observation>, a: Observation, b: Observation)
    requires Uniform(host, os) && a in os && b in os
    ensures NotAfter(host, a, b) <==> Precedes(host, a, b)
  {}

  /** With uniform timestamps a cohort starts with its earliest observation, and the cohorts come in that order. */
  lemma CohortsInTime(host: Host, os: seq<Observation>)
    requires Uniform(host, FlatMap(KeepRetained(), os))
    ensures forall g :: g in Cohorts(host, os) ==> g.observations != [] && Sorted(g.observations, InTime(host))
    ensures forall i, j :: 0 <= i < j < |Cohorts(host, os)| ==>
      GroupPrecedes(host, Cohorts(host, os)[i], Cohorts(host, os)[j])
  {
    hide FlatMap, Sort, Precedes, NotAfter, CohortId, GroupsOf, Sorted, Preorder, Cohort, Arrange, Uniform;
    var kept, retained := FlatMap(KeepRetained(), os), Retained(host, os);
    ArrangedInTime(host, kept);
    MembersByMultiset(retained, kept);
    CohortsByName(host, os);
    var groups, cohorts := GroupsOf(retained), Cohorts(host, os);
    SortPermutes(groups, ByFirst(host));
    MembersByMultiset(cohorts, groups);
    forall g | g in cohorts ensures g.observations != [] && g.observations[0] in kept
      && Sorted(g.observations, InTime(host))
    {
      CohortKeepsTime(host, retained, CohortId(g.seal));
      CohortMember(retained, CohortId(g.seal), g.observations[0]);
    }
    forall a, b | a in groups && b in groups ensures ByFirst(host)(a, b) == GroupsInTime(host)(a, b) {
      assert a in cohorts && b in cohorts;
      PairsAgree(host, kept, a.observations[0], b.observations[0]);
      PairsAgree(host, kept, b.observations[0], a.observations[0]);
    }
    SortCongruent(groups, ByFirst(host), GroupsInTime(host));
    GroupsOrder(host);
    SortSorts(groups, GroupsInTime(host));
    SortedPairs(host, cohorts);
  }

  lemma SortedPairs(host: Host, gs: seq<Group>)
    requires Sorted(gs, GroupsInTime(host))
    ensures forall i, j :: 0 <= i < j < |gs| ==> GroupPrecedes(host, gs[i], gs[j])
  {
    forall i, j | 0 <= i < j < |gs| ensures GroupPrecedes(host, gs[i], gs[j]) {
      assert GroupsInTime(host)(gs[i], gs[j]);
    }
  }
}
