/** Which lease is current, which timer is pending and which firing runs its callback, read off the list of events. */
module PollingOutcomes {
  import opened Units
  import opened PollingLifecycle
  import opened PollingRuns

  // ---- leases ----

  /** The event takes its account away from the lease. */
  predicate Ends(e: Event, l: Lease) {
    match e
    case DoReplace(account, _) => account == l.account
    case DoRetire(account) => account == l.account
    case DoRetireLease(lease) => lease == l
    case DoRetireAll => true
    case _ => false
  }

  function Replacements(es: seq<Event>): nat {
    if es == [] then 0 else Replacements(es[..|es| - 1]) + if es[|es| - 1].DoReplace? then 1 else 0
  }

  /** The event at `i` handed the lease out. */
  ghost predicate HandsOut(es: seq<Event>, i: nat, l: Lease) {
    && i < |es| && l.Issued? && es[i] == DoReplace(l.account, l.createdAt)
    && l.generation == Replacements(es[..i]) + 1
  }

  /** It was handed out at `i`, and nothing since has ended it. */
  ghost predicate HoldsSince(es: seq<Event>, i: nat, l: Lease) {
    HandsOut(es, i, l) && forall j :: i < j < |es| ==> !Ends(es[j], l)
  }

  lemma RunLast(s: State, es: seq<Event>, e: Event)
    ensures Run(s, es + [e]) == Step(Run(s, es), e)
  {
    assert (es + [e])[..|es|] == es;
  }

  lemma RunNothing(s: State)
    ensures Run(s, []) == s
  {}

  lemma InvAlways(es: seq<Event>)
    ensures Inv(Run(INITIAL, es))
  {
    InitialKeeps();
    RunKeeps(INITIAL, es);
  }

  lemma CurrentAfter(s: State, e: Event, l: Lease)
    requires Inv(s)
    ensures Current(Step(s, e), l) <==>
      || (Current(s, l) && !Ends(e, l))
      || (e.DoReplace? && l == Issued(e.account, s.nextGeneration + 1, e.createdAt))
  {}

  lemma {:induction false} GenerationsCount(es: seq<Event>)
    ensures Run(INITIAL, es).nextGeneration == Replacements(es)
    decreases |es|
  {
    if es != [] { GenerationsCount(es[..|es| - 1]); }
  }

  lemma HandsOutLast(es: seq<Event>, e: Event, i: nat, l: Lease)
    ensures HandsOut(es + [e], i, l) <==>
      || HandsOut(es, i, l)
      || (i == |es| && e.DoReplace? && l == Issued(e.account, Replacements(es) + 1, e.createdAt))
  {
    hide Replacements;
    var more := es + [e];
    if i < |es| {
      assert more[..i] == es[..i] && more[i] == es[i];
    } else if i == |es| {
      assert more[..i] == es;
    }
  }

  lemma HandedInside(es: seq<Event>, i: nat, l: Lease)
    ensures HandsOut(es, i, l) ==> i < |es|
  {}

  lemma HoldsLast(es: seq<Event>, e: Event, i: nat, l: Lease)
    ensures HoldsSince(es + [e], i, l) <==>
      || (HoldsSince(es, i, l) && !Ends(e, l))
      || (i == |es| && e.DoReplace? && l == Issued(e.account, Replacements(es) + 1, e.createdAt))
  {
    hide Ends, Replacements, HandsOut;
    HandsOutLast(es, e, i, l);
    HandedInside(es, i, l);
    HandedInside(es + [e], i, l);
    var more := es + [e];
    assert more[|es|] == e && forall j :: 0 <= j < |es| ==> more[j] == es[j];
  }

  /** In every run: a lease is current exactly when a replacement handed it out and nothing since has ended it. */
  lemma {:induction false} CurrentMeans(es: seq<Event>, l: Lease)
    ensures Current(Run(INITIAL, es), l) <==> exists i: nat :: HoldsSince(es, i, l)
    decreases |es|
  {
    hide Step, Run, Current, HoldsSince, Replacements, Inv;
    if es == [] {
      RunNothing(INITIAL);
      NothingHolds(l);
    } else {
      var front, e := es[..|es| - 1], es[|es| - 1];
      assert es == front + [e];
      CurrentMeans(front, l);
      RunLast(INITIAL, front, e);
      InvAlways(front);
      CurrentAfter(Run(INITIAL, front), e, l);
      GenerationsCount(front);
      forall i: nat ensures HoldsSince(es, i, l) <==>
        || (HoldsSince(front, i, l) && !Ends(e, l))
        || (i == |front| && e.DoReplace? && l == Issued(e.account, Replacements(front) + 1, e.createdAt))
      {
        HoldsLast(front, e, i, l);
      }
      assert e.DoReplace? && l == Issued(e.account, Replacements(front) + 1, e.createdAt) ==>
        HoldsSince(es, |front|, l);
    }
  }

  lemma NothingHolds(l: Lease)
    ensures !Current(INITIAL, l) && forall i: nat :: !HoldsSince([], i, l)
  {}

  // ---- timers ----

  /** The event ends the wait of this timer, which its lease scheduled for this kind. */
  predicate Disturbs(e: Event, l: Lease, k: Kind, t: Timer) {
    Ends(e, l) || e == DoSchedule(l, k) || e == DoFire(t)
  }

  /** The call at `i`, by a lease that is current then, made the timer. */
  ghost predicate MakesTimer(es: seq<Event>, i: nat, l: Lease, k: Kind, t: Timer) {
    && i < |es| && es[i] == DoSchedule(l, k)
    && Current(Run(INITIAL, es[..i]), l) && t == Run(INITIAL, es[..i]).nextTimer
  }

  /** It was made at `i`, and nothing since has ended its wait. */
  ghost predicate WaitsSince(es: seq<Event>, i: nat, l: Lease, k: Kind, t: Timer) {
    MakesTimer(es, i, l, k, t) && forall j :: i < j < |es| ==> !Disturbs(es[j], l, k, t)
  }

  lemma PendingAfter(s: State, e: Event, t: Timer)
    requires Inv(s)
    ensures t in s.pending ==> t in s.scheduled && t < s.nextTimer
    ensures t in Step(s, e).pending <==>
      || (t in s.pending && !Disturbs(e, s.scheduled[t].lease, s.scheduled[t].kind, t))
      || (e.DoSchedule? && Current(s, e.lease) && t == s.nextTimer)
  {
    if t in s.pending {
      assert Awaited(s, t);
      StillPending(s, e, t);
    }
  }

  lemma RetiredTimers(s: State, a: Text, t: Timer)
    requires a in s.states
    ensures t in TimersOf(s.states[a]) <==> InSlot(s, t, a, Retry) || InSlot(s, t, a, Stagger)
  {}

  lemma StillPending(s: State, e: Event, t: Timer)
    requires Inv(s) && t in s.pending && t in s.scheduled
    ensures t in Step(s, e).pending <==> !Disturbs(e, s.scheduled[t].lease, s.scheduled[t].kind, t)
  {
    hide Inv, TimersOf, InSlot;
    var c := s.scheduled[t];
    PendingSits(s, t);
    OneSlotEach(s, t);
    match e {
      case DoReplace(account, _) => if account in s.states { RetiredTimers(s, account, t); OwnLease(s, account); }
      case DoRetireLease(lease) => if Current(s, lease) { RetiredTimers(s, lease.account, t); }
      case DoRetire(account) => if account in s.states { RetiredTimers(s, account, t); OwnLease(s, account); }
      case DoRetireAll => RetireAllKeeps(s);
      case DoSchedule(lease, kind) => SlotIs(s, t, lease.account, kind);
      case DoFire(_) =>
    }
  }

  lemma OwnLease(s: State, a: Text)
    requires Inv(s) && a in s.states
    ensures s.states[a].lease.account == a
  {}

  lemma SlotIs(s: State, t: Timer, a: Text, k: Kind)
    ensures InSlot(s, t, a, k) <==> a in s.states && SlotOf(s.states[a], k) == Some(t)
  {}

  lemma PendingSits(s: State, t: Timer)
    requires Inv(s) && t in s.pending
    ensures t in s.scheduled && Current(s, s.scheduled[t].lease) && t < s.nextTimer
    ensures InSlot(s, t, s.scheduled[t].lease.account, s.scheduled[t].kind)
    ensures s.states[s.scheduled[t].lease.account].lease.account == s.scheduled[t].lease.account
  {
    assert Awaited(s, t);
  }

  lemma MakesLast(es: seq<Event>, e: Event, i: nat, l: Lease, k: Kind, t: Timer)
    ensures MakesTimer(es + [e], i, l, k, t) <==>
      || MakesTimer(es, i, l, k, t)
      || (i == |es| && e == DoSchedule(l, k) && Current(Run(INITIAL, es), l) && t == Run(INITIAL, es).nextTimer)
  {
    hide Run, Current;
    var more := es + [e];
    if i < |es| {
      assert more[..i] == es[..i] && more[i] == es[i];
    } else if i == |es| {
      assert more[..i] == es;
    }
  }

  lemma WaitsLast(es: seq<Event>, e: Event, i: nat, l: Lease, k: Kind, t: Timer)
    ensures WaitsSince(es + [e], i, l, k, t) <==>
      || (WaitsSince(es, i, l, k, t) && !Disturbs(e, l, k, t))
      || (i == |es| && e == DoSchedule(l, k) && Current(Run(INITIAL, es), l) && t == Run(INITIAL, es).nextTimer)
  {
    hide MakesTimer, Run, Current, Disturbs;
    MakesLast(es, e, i, l, k, t);
    MadeInside(es, i, l, k, t);
    MadeInside(es + [e], i, l, k, t);
    var more := es + [e];
    assert more[|es|] == e && forall j :: 0 <= j < |es| ==> more[j] == es[j];
  }

  lemma MadeInside(es: seq<Event>, i: nat, l: Lease, k: Kind, t: Timer)
    ensures MakesTimer(es, i, l, k, t) ==> i < |es|
  {}

  /** In every run: a timer is pending exactly when a call made it and nothing since has ended its wait. */
  lemma {:induction false} PendingMeans(es: seq<Event>, t: Timer)
    ensures t in Run(INITIAL, es).pending <==> exists i: nat, l, k :: WaitsSince(es, i, l, k, t)
    ensures forall i: nat, l, k :: WaitsSince(es, i, l, k, t) ==>
      t in Run(INITIAL, es).scheduled && Run(INITIAL, es).scheduled[t] == Closure(l, k)
    decreases |es|
  {
    hide Step, Run, Current, WaitsSince, Disturbs, Inv;
    if es == [] {
      RunNothing(INITIAL);
      NothingWaits(t);
    } else {
      var front, e := es[..|es| - 1], es[|es| - 1];
      assert es == front + [e];
      PendingMeans(front, t);
      RunLast(INITIAL, front, e);
      InvAlways(front);
      var s := Run(INITIAL, front);
      PendingAfter(s, e, t);
      ClosuresStay(s, e);
      TimerMade(s, e);
      forall i: nat, l, k ensures WaitsSince(es, i, l, k, t) <==>
        || (WaitsSince(front, i, l, k, t) && !Disturbs(e, l, k, t))
        || (i == |front| && e == DoSchedule(l, k) && Current(s, l) && t == s.nextTimer)
      {
        WaitsLast(front, e, i, l, k, t);
      }
      if e.DoSchedule? && Current(s, e.lease) && t == s.nextTimer {
        assert WaitsSince(es, |front|, e.lease, e.kind, t);
      }
    }
  }

  lemma NothingWaits(t: Timer)
    ensures t !in INITIAL.pending && forall i: nat, l, k :: !WaitsSince([], i, l, k, t)
  {}

  /** A call by a current lease makes one new timer, with the lease and the kind as its closure. */
  lemma TimerMade(s: State, e: Event)
    requires Inv(s)
    ensures e.DoSchedule? && Current(s, e.lease) ==>
      s.nextTimer !in s.scheduled && Step(s, e).scheduled == s.scheduled[s.nextTimer := Closure(e.lease, e.kind)]
  {}

  // ---- callbacks ----

  lemma RanAfter(s: State, e: Event)
    requires Inv(s)
    ensures Step(s, e).ran == s.ran + if e.DoFire? && e.timer in s.pending then [e.timer] else []
  {
    if e.DoFire? {
      OneSlotEach(s, e.timer);
      if Awaited(s, e.timer) { SlotIs(s, e.timer, s.scheduled[e.timer].lease.account, s.scheduled[e.timer].kind); }
      if e.timer in s.pending { assert Awaited(s, e.timer); }
    }
  }

  /** In every run: a firing runs its callback exactly if a call made the timer and nothing since has ended its wait. */
  lemma FiringMeans(es: seq<Event>, e: Event)
    ensures Run(INITIAL, es + [e]).ran == Run(INITIAL, es).ran + if Runs(es, e) then [e.timer] else []
  {
    hide Step, Run, WaitsSince, Inv;
    InvAlways(es);
    RunLast(INITIAL, es, e);
    RanAfter(Run(INITIAL, es), e);
    if e.DoFire? { PendingMeans(es, e.timer); }
  }

  ghost predicate Runs(es: seq<Event>, e: Event)
    ensures Runs(es, e) ==> e.DoFire?
  {
    e.DoFire? && exists i: nat, l, k :: WaitsSince(es, i, l, k, e.timer)
  }

  /** The timer was scheduled by this lease for this kind. */
  predicate Serves(s: State, t: Timer, l: Lease, k: Kind) { t in s.scheduled && s.scheduled[t] == Closure(l, k) }

  /**
   What a current lease schedules is one new pending timer. It replaces what the lease had scheduled for that kind,
   and its first firing runs its callback unless the lease ends or schedules for that kind again before.
   */
  lemma ScheduledCallbackRuns(es: seq<Event>, l: Lease, k: Kind, later: seq<Event>) returns (t: Timer)
    requires exists i: nat :: HoldsSince(es, i, l)
    ensures var s, s' := Run(INITIAL, es), Run(INITIAL, es + [DoSchedule(l, k)]);
      && t !in s.scheduled && s'.scheduled == s.scheduled[t := Closure(l, k)] && s'.ran == s.ran
      && s'.pending == (set u | u in s.pending && !Serves(s, u, l, k)) + {t}
    ensures var s := Run(INITIAL, es + [DoSchedule(l, k)] + later);
      (forall j :: 0 <= j < |later| ==> !Disturbs(later[j], l, k, t)) ==>
        Run(INITIAL, es + [DoSchedule(l, k)] + later + [DoFire(t)]).ran == s.ran + [t]
  {
    hide Step, Run, WaitsSince, Inv, Current, HoldsSince, Disturbs;
    var call := DoSchedule(l, k);
    var s := Run(INITIAL, es);
    CurrentMeans(es, l);
    InvAlways(es);
    RunLast(INITIAL, es, call);
    TimerMade(s, call);
    RanAfter(s, call);
    t := s.nextTimer;
    ReplacedTimers(s, l, k);
    var all := es + [call] + later;
    if forall j :: 0 <= j < |later| ==> !Disturbs(later[j], l, k, t) {
      WaitsFrom(es, l, k, later, t);
      FiringMeans(all, DoFire(t));
    }
  }

  lemma WaitsFrom(es: seq<Event>, l: Lease, k: Kind, later: seq<Event>, t: Timer)
    requires Current(Run(INITIAL, es), l) && t == Run(INITIAL, es).nextTimer
    requires forall j :: 0 <= j < |later| ==> !Disturbs(later[j], l, k, t)
    ensures WaitsSince(es + [DoSchedule(l, k)] + later, |es|, l, k, t)
  {
    hide Run, Current, Disturbs;
    var all := es + [DoSchedule(l, k)] + later;
    assert all[..|es|] == es && all[|es|] == DoSchedule(l, k);
    forall j | |es| < j < |all| ensures !Disturbs(all[j], l, k, t) { assert all[j] == later[j - |es| - 1]; }
  }

  lemma ReplacedTimers(s: State, l: Lease, k: Kind)
    requires Inv(s) && Current(s, l)
    ensures Step(s, DoSchedule(l, k)).pending ==
      (set u | u in s.pending && !Serves(s, u, l, k)) + {s.nextTimer}
  {
    var call := DoSchedule(l, k);
    forall u: Timer ensures u in s.pending ==> u in s.scheduled && u != s.nextTimer {
      if u in s.pending { PendingSits(s, u); }
    }
    forall u: Timer ensures u in Step(s, call).pending <==>
      (u in s.pending && !Serves(s, u, l, k)) || u == s.nextTimer
    {
      PendingAfter(s, call, u);
      if u in s.pending { assert s.scheduled[u] == Closure(s.scheduled[u].lease, s.scheduled[u].kind); }
    }
  }
}
