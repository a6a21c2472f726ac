/** Polling leases and their timers as a state machine: every call, and every timer that fires, early or late. */
module PollingLifecycle {
  import opened Units
  import opened Sorting

  type Timer = nat

  /**
   * A lease object. One handed out by the lifecycle is told apart by its generation;
   * any other object that names the account is the same as none of them.
   */
  datatype Lease = Issued(account: Text, generation: nat, createdAt: int) | Foreign(account: Text)

  datatype Kind = Retry | Stagger

  datatype Slots = Slots(lease: Lease, retry: Option<Timer>, stagger: Option<Timer>)

  /** What a scheduled callback has captured. */
  datatype Closure = Closure(lease: Lease, kind: Kind)

  /** The lifecycle, the host's timers beside it, and the log of callbacks that ran. */
  datatype State = State(
    nextGeneration: nat, states: map<Text, Slots>,
    pending: set<Timer>, scheduled: map<Timer, Closure>, nextTimer: Timer, ran: seq<Timer>)

  const INITIAL := State(0, map[], {}, map[], 0, [])

  function SlotOf(x: Slots, k: Kind): Option<Timer> { if k == Retry then x.retry else x.stagger }

  function WithSlot(x: Slots, k: Kind, t: Option<Timer>): Slots {
    if k == Retry then x.(retry := t) else x.(stagger := t)
  }

  function TimerSet(t: Option<Timer>): set<Timer> { if t.None? then {} else {t.value} }

  function TimersOf(x: Slots): set<Timer> { TimerSet(x.retry) + TimerSet(x.stagger) }

  predicate Current(s: State, l: Lease) { l.account in s.states && s.states[l.account].lease == l }

  // ---- the operations ----

  function RetireLease(s: State, l: Lease): State {
    if !Current(s, l) then s
    else s.(states := s.states - {l.account}, pending := s.pending - TimersOf(s.states[l.account]))
  }

  function Retire(s: State, account: Text): State {
    if account in s.states then RetireLease(s, s.states[account].lease) else s
  }

  /** The pending timers once the timers of some accounts are cancelled. */
  function PendingWithout(s: State, accounts: set<Text>): set<Timer>
    requires accounts <= s.states.Keys
  {
    set t | t in s.pending && !exists a :: a in accounts && t in TimersOf(s.states[a])
  }

  function RetireAll(s: State): State { s.(states := map[], pending := PendingWithout(s, s.states.Keys)) }

  function NextLease(s: State, account: Text, createdAt: int): Lease {
    Issued(account, s.nextGeneration + 1, createdAt)
  }

  function Replace(s: State, account: Text, createdAt: int): State {
    var s1 := Retire(s, account);
    s1.(nextGeneration := s.nextGeneration + 1,
        states := s1.states[account := Slots(NextLease(s, account, createdAt), None, None)])
  }

  function Schedule(s: State, l: Lease, k: Kind): State {
    if !Current(s, l) then s
    else
      var x := s.states[l.account];
      s.(pending := s.pending - TimerSet(SlotOf(x, k)) + {s.nextTimer},
         scheduled := s.scheduled[s.nextTimer := Closure(l, k)],
         nextTimer := s.nextTimer + 1, states := s.states[l.account := WithSlot(x, k, Some(s.nextTimer))])
  }

  /** The timer is still the one its lease waits for. */
  predicate Awaited(s: State, t: Timer) {
    && t in s.scheduled && Current(s, s.scheduled[t].lease)
    && SlotOf(s.states[s.scheduled[t].lease.account], s.scheduled[t].kind) == Some(t)
  }

  /** A timer fires: in time, after its cancellation, or once more. */
  function Fire(s: State, t: Timer): State {
    if !Awaited(s, t) then s.(pending := s.pending - {t})
    else
      var c := s.scheduled[t];
      s.(pending := s.pending - {t}, ran := s.ran + [t],
         states := s.states[c.lease.account := WithSlot(s.states[c.lease.account], c.kind, None)])
  }

  datatype Event =
    | DoReplace(account: Text, createdAt: int) | DoRetireLease(lease: Lease) | DoRetire(account: Text) | DoRetireAll
    | DoSchedule(lease: Lease, kind: Kind) | DoFire(timer: Timer)

  function Step(s: State, e: Event): State {
    match e
    case DoReplace(account, createdAt) => Replace(s, account, createdAt)
    case DoRetireLease(lease) => RetireLease(s, lease)
    case DoRetire(account) => Retire(s, account)
    case DoRetireAll => RetireAll(s)
    case DoSchedule(lease, kind) => Schedule(s, lease, kind)
    case DoFire(timer) => Fire(s, timer)
  }

  function Run(s: State, es: seq<Event>): State {
    if es == [] then s else Step(Run(s, es[..|es| - 1]), es[|es| - 1])
  }

  // ---- what every state keeps ----

  ghost predicate LeasesInv(s: State) {
    forall a :: a in s.states ==>
      s.states[a].lease.Issued? && s.states[a].lease.account == a && s.states[a].lease.generation <= s.nextGeneration
  }

  /** A timer in a slot is pending and was scheduled for that slot. */
  ghost predicate SlotsInv(s: State) {
    forall a, k: Kind :: a in s.states && SlotOf(s.states[a], k).Some? ==>
      var t := SlotOf(s.states[a], k).value;
        t in s.pending && t in s.scheduled && s.scheduled[t] == Closure(s.states[a].lease, k)
  }

  /** A pending timer sits in the slot it was scheduled for. */
  ghost predicate PendingInv(s: State) { forall t :: t in s.pending ==> Awaited(s, t) }

  ghost predicate TimersInv(s: State) {
    && (forall t :: t in s.scheduled ==>
      t < s.nextTimer && s.scheduled[t].lease.Issued? && s.scheduled[t].lease.generation <= s.nextGeneration)
    && (forall i :: 0 <= i < |s.ran| ==> s.ran[i] in s.scheduled && s.ran[i] !in s.pending)
    && Distinct(s.ran)
  }

  ghost predicate Inv(s: State) { LeasesInv(s) && SlotsInv(s) && PendingInv(s) && TimersInv(s) }

  lemma InitialKeeps()
    ensures Inv(INITIAL)
  {}

  lemma RetireLeaseKeeps(s: State, l: Lease)
    requires Inv(s)
    ensures Inv(RetireLease(s, l))
  {
    if Current(s, l) {
      var s', x := RetireLease(s, l), s.states[l.account];
      forall a, k: Kind | a in s'.states && SlotOf(s'.states[a], k).Some?
        ensures SlotOf(s'.states[a], k).value in s'.pending {
        SlotHolds(s, a, k);
        assert s.states[a].lease != x.lease;
        if x.retry.Some? { SlotHolds(s, l.account, Retry); }
        if x.stagger.Some? { SlotHolds(s, l.account, Stagger); }
      }
      forall t | t in s'.pending ensures Awaited(s', t) {
        assert Awaited(s, t);
      }
    }
  }

  lemma SlotHolds(s: State, a: Text, k: Kind)
    requires SlotsInv(s) && a in s.states && SlotOf(s.states[a], k).Some?
    ensures var t := SlotOf(s.states[a], k).value;
      t in s.pending && t in s.scheduled && s.scheduled[t] == Closure(s.states[a].lease, k)
  {}

  lemma RetireAllKeeps(s: State)
    requires Inv(s)
    ensures Inv(RetireAll(s)) && RetireAll(s).pending == {}
  {
    forall t | t in s.pending ensures exists a :: a in s.states.Keys && t in TimersOf(s.states[a]) {
      assert Awaited(s, t);
      var a := s.scheduled[t].lease.account;
      assert t in TimersOf(s.states[a]);
    }
  }

  lemma ReplaceKeeps(s: State, account: Text, createdAt: int)
    requires Inv(s)
    ensures Inv(Replace(s, account, createdAt))
  {
    hide SlotsInv, PendingInv, TimersInv;
    var s1 := Retire(s, account);
    if account in s.states { RetireLeaseKeeps(s, s.states[account].lease); }
    assert account !in s1.states;
    AddLeaseKeeps(s1, account, createdAt);
  }

  lemma AddLeaseKeeps(s: State, account: Text, createdAt: int)
    requires Inv(s) && account !in s.states
    ensures Inv(s.(nextGeneration := s.nextGeneration + 1,
                   states := s.states[account := Slots(NextLease(s, account, createdAt), None, None)]))
  {
    var x := Slots(NextLease(s, account, createdAt), None, None);
    var s' := s.(nextGeneration := s.nextGeneration + 1, states := s.states[account := x]);
    forall a, k: Kind | a in s'.states && SlotOf(s'.states[a], k).Some?
      ensures a in s.states && s'.states[a] == s.states[a] {}
    forall t | t in s'.pending ensures Awaited(s', t) { assert Awaited(s, t); }
  }

  lemma ScheduleKeeps(s: State, l: Lease, k: Kind)
    requires Inv(s)
    ensures Inv(Schedule(s, l, k))
  {
    if Current(s, l) {
      var s', x := Schedule(s, l, k), s.states[l.account];
      forall a, j: Kind | a in s'.states && SlotOf(s'.states[a], j).Some?
        ensures var t := SlotOf(s'.states[a], j).value;
          t in s'.pending && t in s'.scheduled && s'.scheduled[t] == Closure(s'.states[a].lease, j)
      {
        if a != l.account || j != k {
          assert SlotOf(s'.states[a], j) == SlotOf(s.states[a], j);
          SlotHolds(s, a, j);
          if SlotOf(x, k).Some? { SlotHolds(s, l.account, k); }
        }
      }
      forall t | t in s'.pending ensures Awaited(s', t) {
        if t != s.nextTimer { assert Awaited(s, t); }
      }
    }
  }

  lemma FireKeeps(s: State, t: Timer)
    requires Inv(s)
    ensures Inv(Fire(s, t))
  {
    if Awaited(s, t) {
      var s', c := Fire(s, t), s.scheduled[t];
      forall a, j: Kind | a in s'.states && SlotOf(s'.states[a], j).Some?
        ensures var u := SlotOf(s'.states[a], j).value;
          u in s'.pending && u in s'.scheduled && s'.scheduled[u] == Closure(s'.states[a].lease, j)
      {
        assert SlotOf(s'.states[a], j) == SlotOf(s.states[a], j);
        SlotHolds(s, a, j);
        SlotHolds(s, c.lease.account, c.kind);
      }
      forall u | u in s'.pending ensures Awaited(s', u) { assert Awaited(s, u); }
    } else {
      assert t !in s.pending;
    }
  }

  lemma StepKeeps(s: State, e: Event)
    requires Inv(s)
    ensures Inv(Step(s, e))
  {
    hide Inv;
    match e {
      case DoReplace(account, createdAt) => ReplaceKeeps(s, account, createdAt);
      case DoRetireLease(lease) => RetireLeaseKeeps(s, lease);
      case DoRetire(account) => if account in s.states { RetireLeaseKeeps(s, s.states[account].lease); }
      case DoRetireAll => RetireAllKeeps(s);
      case DoSchedule(lease, kind) => ScheduleKeeps(s, lease, kind);
      case DoFire(timer) => FireKeeps(s, timer);
    }
  }

  /** Every state that calls and firings can lead to keeps the invariant. */
  lemma {:induction false} RunKeeps(s: State, es: seq<Event>)
    requires Inv(s)
    ensures Inv(Run(s, es))
    decreases |es|
  {
    hide Inv, Step;
    if es != [] {
      RunKeeps(s, es[..|es| - 1]);
      StepKeeps(Run(s, es[..|es| - 1]), es[|es| - 1]);
    }
  }
}
