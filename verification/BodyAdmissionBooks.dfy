/** What a run books for each call, told from the list of events: bytes, waiters, replies and counters. */
module BodyAdmissionBooks {
  import opened Units
  import opened Decimal
  import opened BodyAdmission
  import opened BodyAdmissionRuns

  // ---- runs from their end ----

  lemma {:induction false} RunLast(s: State, es: seq<Event>)
    requires es != []
    ensures Run(s, es) == Step(Run(s, es[..|es| - 1]), es[|es| - 1])
    decreases |es|
  {
    hide Step;
    if |es| == 1 {
      assert es[1..] == [] && es[..0] == [];
    } else {
      RunLast(Step(s, es[0]), es[1..]);
      assert es[1..][..|es| - 2] == es[..|es| - 1][1..];
    }
  }

  lemma {:induction false} RunSplits(s: State, es: seq<Event>, k: nat)
    requires k <= |es|
    ensures Run(s, es) == Run(Run(s, es[..k]), es[k..])
    decreases k
  {
    hide Step;
    if k > 0 {
      RunSplits(Step(s, es[0]), es[1..], k - 1);
      assert es[1..][..k - 1] == es[..k][1..] && es[1..][k - 1..] == es[k..];
    } else {
      assert es[..0] == [] && es[0..] == es;
    }
  }

  // ---- what the events ask for ----

  function AcquireCalls(es: seq<Event>): nat {
    if es == [] then 0 else AcquireCalls(es[..|es| - 1]) + if es[|es| - 1].AcquireCall? then 1 else 0
  }

  /** The bytes of the acquire call with this number. */
  function AskedBy(es: seq<Event>, t: nat): Option<Num> {
    if es == [] then None
    else
      var front, e := es[..|es| - 1], es[|es| - 1];
      if e.AcquireCall? && AcquireCalls(front) == t then Some(e.bytes) else AskedBy(front, t)
  }

  /** A call to lower a lease that exists, to a safe byte count. */
  ghost predicate Lowers(s: State, es: seq<Event>, t: nat, k: nat, b: int) {
    && k < |es| && es[k] == ReduceCall(t, Int(b)) && 0 <= b <= MAX_SAFE_INTEGER && t in Run(s, es[..k]).leases
  }

  /** A byte count the lease is bound by: what was asked, or what a later call lowered it to. */
  ghost predicate Binds(s: State, es: seq<Event>, t: nat, b: int) {
    AskedBy(es, t) == Some(Int(b)) || exists k: nat :: Lowers(s, es, t, k, b)
  }

  /** The least of them. */
  ghost predicate Due(s: State, es: seq<Event>, t: nat, r: int) {
    Binds(s, es, t, r) && forall b :: Binds(s, es, t, b) ==> r <= b
  }

  lemma LowersStep(s: State, es: seq<Event>, t: nat, b: int)
    requires es != []
    ensures var front, e := es[..|es| - 1], es[|es| - 1];
      (exists k: nat :: Lowers(s, es, t, k, b)) <==>
        || (exists k: nat :: Lowers(s, front, t, k, b))
        || (e == ReduceCall(t, Int(b)) && 0 <= b <= MAX_SAFE_INTEGER && t in Run(s, front).leases)
  {
    hide Run;
    var n := |es| - 1;
    var front := es[..n];
    if k: nat :| Lowers(s, es, t, k, b) {
      if k < n {
        assert es[..k] == front[..k];
        assert Lowers(s, front, t, k, b);
      }
    }
    if k: nat :| Lowers(s, front, t, k, b) {
      assert es[..k] == front[..k];
      assert Lowers(s, es, t, k, b);
    }
    if es[n] == ReduceCall(t, Int(b)) && 0 <= b <= MAX_SAFE_INTEGER && t in Run(s, front).leases {
      assert Lowers(s, es, t, n, b);
    }
  }

  lemma {:induction false} AskedIsNumbered(es: seq<Event>, t: nat)
    ensures AskedBy(es, t).Some? <==> t < AcquireCalls(es)
    decreases |es|
  {
    if es != [] { AskedIsNumbered(es[..|es| - 1], t); }
  }

  // ---- what one step does to the books ----

  ghost predicate Queued(q: seq<Entry>, t: nat, b: int) {
    exists j :: 0 <= j < |q| && q[j].ticket == t && q[j].bytes == b
  }

  ghost predicate Granting(s: State, e: Event, t: nat, b: int) {
    Queued(s.queue, t, b) || (e.AcquireCall? && t == s.next && e.bytes == Int(b))
  }

  /** The call lowers the lease. */
  predicate LowersNow(s: State, e: Event, t: nat) {
    && IsLive(s.leases, t) && e.ReduceCall? && e.ticket == t && IsSafe(e.bytes) && 0 <= e.bytes.n < s.leases[t].reserved
  }

  /** A lease is created with the bytes its call asked for, and only a lowering call changes them. */
  ghost predicate Books(s: State, e: Event, s': State) {
    && (forall t :: t in s.leases ==>
          t in s'.leases && s'.leases[t].reserved == if LowersNow(s, e, t) then e.bytes.n else s.leases[t].reserved)
    && (forall t :: t in s'.leases && t !in s.leases ==> Granting(s, e, t, s'.leases[t].reserved))
    && (forall t, b :: Queued(s'.queue, t, b) ==> Granting(s, e, t, b))
    && s'.next == s.next + if e.AcquireCall? then 1 else 0
  }

  /** Draining creates leases from the queue and changes no other. */
  ghost predicate Drained(s: State, s': State) {
    && (forall t :: t in s.leases ==> t in s'.leases && s'.leases[t] == s.leases[t])
    && (forall t :: t in s'.leases && t !in s.leases ==> Queued(s.queue, t, s'.leases[t].reserved))
    && (forall t, b :: Queued(s'.queue, t, b) ==> Queued(s.queue, t, b))
    && s'.next == s.next
  }

  lemma {:induction false} DrainBooks(s: State)
    requires QueueIncreasing(s.queue) && forall j :: 0 <= j < |s.queue| ==> s.queue[j].ticket !in s.leases
    ensures Drained(s, Drain(s))
    decreases |s.queue|
  {
    if !s.shuttingDown && s.queue != [] && CanAdmit(s, s.queue[0].bytes) {
      var head, rest := s.queue[0], s.queue[1..];
      var s1 := CreateLease(s.(queue := rest), head.ticket, head.bytes);
      assert forall j :: 0 <= j < |rest| ==> rest[j] == s.queue[j + 1];
      DrainBooks(s1);
      assert s1.leases[head.ticket].reserved == head.bytes;
      DrainedOnce(s, s1, Drain(s));
    }
  }

  lemma DrainedOnce(s: State, s1: State, s2: State)
    requires s.queue != [] && s1.queue == s.queue[1..] && s1.next == s.next && s.queue[0].ticket !in s.leases
    requires s1.leases.Keys == s.leases.Keys + {s.queue[0].ticket}
    requires s1.leases[s.queue[0].ticket].reserved == s.queue[0].bytes
    requires forall t :: t in s.leases ==> s1.leases[t] == s.leases[t]
    requires Drained(s1, s2)
    ensures Drained(s, s2)
  {
    var head := s.queue[0];
    assert Queued(s.queue, head.ticket, head.bytes);
    forall t, b | Queued(s1.queue, t, b) ensures Queued(s.queue, t, b) {
      var j :| 0 <= j < |s1.queue| && s1.queue[j].ticket == t && s1.queue[j].bytes == b;
      assert s.queue[j + 1] == s1.queue[j];
    }
  }

  lemma QueuedLast(q: seq<Entry>, e: Entry, t: nat, b: int)
    ensures Queued(q + [e], t, b) <==> Queued(q, t, b) || (e.ticket == t && e.bytes == b)
  {
    var all := q + [e];
    assert all[|q|] == e;
    if j :| 0 <= j < |q| && q[j].ticket == t && q[j].bytes == b { assert all[j] == q[j]; }
  }

  lemma QueuedWithin(q: seq<Entry>, all: seq<Entry>, t: nat, b: int)
    requires Queued(q, t, b) && forall e :: e in q ==> e in all
    ensures Queued(all, t, b)
  {
    var j :| 0 <= j < |q| && q[j].ticket == t && q[j].bytes == b;
    assert q[j] in all;
    var i :| 0 <= i < |all| && all[i] == q[j];
  }

  lemma AcquireBooks(s: State, bytes: Num, aborted: bool, abortable: bool)
    requires Inv(s)
    ensures Books(s, AcquireCall(bytes, aborted, abortable), Acquire(s, bytes, aborted, abortable))
  {
    hide Drain, Accounted, Settled, Increasing, Queued;
    WaitersUngranted(s);
    assert s.next !in s.leases by { assert s.next !in s.grants; }
    var e := AcquireCall(bytes, aborted, abortable);
    if AcquireReply(s, bytes, aborted) == Waiting {
      var t := s.(next := s.next + 1, counters := s.counters.(queued := s.counters.queued + 1),
                  queue := s.queue + [Entry(s.next, bytes.n, abortable)]);
      DrainBooks(t);
      forall x, b | Queued(t.queue, x, b) ensures Granting(s, e, x, b) {
        QueuedLast(s.queue, Entry(s.next, bytes.n, abortable), x, b);
      }
    }
  }

  lemma AbortBooks(s: State, ticket: nat)
    requires Inv(s)
    ensures Books(s, AbortSignal(ticket), Abort(s, ticket))
  {
    hide Drain, Without, Accounted, Settled, Increasing, Queued;
    WaitersUngranted(s);
    WithoutKeeps(s.queue, ticket);
    var queue := Without(s.queue, ticket);
    forall j | 0 <= j < |queue| ensures queue[j].ticket !in s.leases { assert queue[j] in s.queue; }
    var t := s.(queue := queue, counters := s.counters.(queueAborted := s.counters.queueAborted + 1));
    DrainBooks(t);
    forall x, b | Queued(queue, x, b) ensures Queued(s.queue, x, b) { QueuedWithin(queue, s.queue, x, b); }
  }

  lemma ReduceBooks(s: State, ticket: nat, bytes: Num)
    requires Inv(s)
    ensures Books(s, ReduceCall(ticket, bytes), Reduce(s, ticket, bytes))
  {
    hide Drain, Accounted, Settled, Increasing, Queued;
    WaitersUngranted(s);
    if LowersNow(s, ReduceCall(ticket, bytes), ticket) {
      var lease := s.leases[ticket];
      var t := s.(leases := s.leases[ticket := lease.(reserved := bytes.n)],
                  reserved := Max(0, s.reserved - (lease.reserved - bytes.n)));
      DrainBooks(t);
    }
  }

  lemma ReleaseBooks(s: State, ticket: nat)
    requires Inv(s)
    ensures Books(s, ReleaseCall(ticket), Release(s, ticket))
  {
    hide Drain, Accounted, Settled, Increasing, Queued;
    WaitersUngranted(s);
    if IsLive(s.leases, ticket) {
      var lease := s.leases[ticket];
      var t := s.(leases := s.leases[ticket := lease.(released := true)],
                  reserved := Max(0, s.reserved - lease.reserved),
                  active := Max(0, s.active - 1),
                  counters := s.counters.(released := s.counters.released + 1));
      DrainBooks(t);
    }
  }

  lemma StepBooks(s: State, e: Event)
    requires Inv(s)
    ensures Books(s, e, Step(s, e))
  {
    hide Inv, Acquire, Abort, Reduce, Release;
    match e {
      case AcquireCall(bytes, aborted, abortable) => AcquireBooks(s, bytes, aborted, abortable);
      case AbortSignal(ticket) => AbortBooks(s, ticket);
      case ReduceCall(ticket, bytes) => ReduceBooks(s, ticket, bytes);
      case ReleaseCall(ticket) => ReleaseBooks(s, ticket);
      case ShutdownCall =>
    }
  }

  // ---- whole runs ----

  /** Live leases hold what is due, and waiters wait with what they asked for. */
  ghost predicate Booked(s: State, es: seq<Event>, now: State) {
    && now.next == AcquireCalls(es)
    && (forall t :: IsLive(now.leases, t) ==> Due(s, es, t, now.leases[t].reserved))
    && (forall t, b :: Queued(now.queue, t, b) ==> AskedBy(es, t) == Some(Int(b)))
  }

  ghost predicate NeverLowered(s: State, es: seq<Event>, t: nat) { forall k: nat, b :: !Lowers(s, es, t, k, b) }

  lemma NotLoweredBefore(s: State, es: seq<Event>, t: nat)
    requires Inv(s) && t !in Run(s, es).leases
    ensures NeverLowered(s, es, t)
  {
    forall k: nat, b ensures !Lowers(s, es, t, k, b) {
      if k < |es| {
        RunSplits(s, es, k);
        RunKeeps(s, es[..k]);
        RunExtends(Run(s, es[..k]), es[k..]);
      }
    }
  }

  lemma DueWhenGranted(s: State, es: seq<Event>, t: nat, b: int)
    requires es != [] && AskedBy(es, t) == Some(Int(b))
    requires NeverLowered(s, es[..|es| - 1], t)
    requires t !in Run(s, es[..|es| - 1]).leases
    ensures Due(s, es, t, b)
  {
    hide Run, AskedBy, Lowers;
    forall c | Binds(s, es, t, c) ensures c == b { LowersStep(s, es, t, c); }
  }

  lemma AskedStays(es: seq<Event>, t: nat)
    requires es != [] && t < AcquireCalls(es[..|es| - 1])
    ensures AskedBy(es, t) == AskedBy(es[..|es| - 1], t)
  {}

  lemma AskedLast(es: seq<Event>)
    requires es != [] && es[|es| - 1].AcquireCall?
    ensures AskedBy(es, AcquireCalls(es[..|es| - 1])) == Some(es[|es| - 1].bytes)
  {}

  lemma DueStep(s: State, es: seq<Event>, t: nat, r: int)
    requires es != []
    requires var front := es[..|es| - 1]; t in Run(s, front).leases && t < AcquireCalls(front) && Due(s, front, t, r)
    ensures var e := es[|es| - 1];
      var lowered := e.ReduceCall? && e.ticket == t && IsSafe(e.bytes) && 0 <= e.bytes.n < r;
      Due(s, es, t, if lowered then e.bytes.n else r)
  {
    hide Run, AskedBy, Lowers;
    var front, e := es[..|es| - 1], es[|es| - 1];
    AskedStays(es, t);
    forall b
      ensures Binds(s, es, t, b) <==>
        Binds(s, front, t, b) || (e == ReduceCall(t, Int(b)) && 0 <= b <= MAX_SAFE_INTEGER)
    {
      LowersStep(s, es, t, b);
    }
  }

  lemma BookedStep(s: State, es: seq<Event>)
    requires es != [] && Inv(s) && Booked(s, es[..|es| - 1], Run(s, es[..|es| - 1]))
    ensures Booked(s, es, Run(s, es))
  {
    hide Run, Inv, Due, AskedBy, Lowers, Queued;
    var front, e := es[..|es| - 1], es[|es| - 1];
    var before, now := Run(s, front), Run(s, es);
    RunLast(s, es);
    RunKeeps(s, front);
    StepBooks(before, e);
    forall t, b | Granting(before, e, t, b) ensures AskedBy(es, t) == Some(Int(b)) {
      if Queued(before.queue, t, b) {
        AskedIsNumbered(front, t);
        AskedStays(es, t);
      } else {
        AskedLast(es);
      }
    }
    forall t | IsLive(now.leases, t) ensures Due(s, es, t, now.leases[t].reserved) {
      if t in before.leases {
        LeaseIsNumbered(before, t);
        StepExtends(before, e);
        DueStep(s, es, t, before.leases[t].reserved);
      } else {
        NotLoweredBefore(s, front, t);
        DueWhenGranted(s, es, t, now.leases[t].reserved);
      }
    }
  }

  lemma LeaseIsNumbered(s: State, t: nat)
    requires Inv(s) && t in s.leases
    ensures t < s.next
  {}

  lemma {:induction false} RunBooks(budget: nat, queueLimit: nat, es: seq<Event>)
    ensures Booked(Init(budget, queueLimit), es, Run(Init(budget, queueLimit), es))
    decreases |es|
  {
    hide Run, Due, AskedBy;
    if es == [] {
      NothingBooked(budget, queueLimit);
    } else {
      InitKeeps(budget, queueLimit);
      RunBooks(budget, queueLimit, es[..|es| - 1]);
      BookedStep(Init(budget, queueLimit), es);
    }
  }

  lemma NothingBooked(budget: nat, queueLimit: nat)
    ensures Booked(Init(budget, queueLimit), [], Run(Init(budget, queueLimit), []))
  {}

  /**
   In every run from the start, a live lease reserves the bytes that the acquire call with its ticket asked for, lowered
   to the least safe byte count that a later call asked to reduce it to.
   */
  lemma LiveLeaseHoldsWhatIsDue(budget: nat, queueLimit: nat, es: seq<Event>, t: nat)
    requires IsLive(Run(Init(budget, queueLimit), es).leases, t)
    ensures Due(Init(budget, queueLimit), es, t, Run(Init(budget, queueLimit), es).leases[t].reserved)
  {
    hide Run, Due;
    RunBooks(budget, queueLimit, es);
  }

  // ---- the budget in terms of what was asked ----

  ghost predicate Unreduced(es: seq<Event>, t: nat) {
    forall k :: 0 <= k < |es| ==> !(es[k].ReduceCall? && es[k].ticket == t)
  }

  /** What the calls of the live leases below `n` asked for, those that nobody asked to reduce. */
  ghost function AskedByLive(es: seq<Event>, leases: map<nat, Lease>, n: nat): int {
    if n == 0 then 0
    else
      var t := n - 1;
      AskedByLive(es, leases, t) +
        if IsLive(leases, t) && Unreduced(es, t) && AskedBy(es, t).Some? && AskedBy(es, t).value.Int?
        then AskedBy(es, t).value.n else 0
  }

  lemma UnreducedHoldsAll(s: State, es: seq<Event>, t: nat, r: int)
    requires Due(s, es, t, r) && Unreduced(es, t)
    ensures AskedBy(es, t) == Some(Int(r))
  {
    hide Run, AskedBy;
  }

  lemma {:induction false} AskedWithinHeld(s: State, es: seq<Event>, leases: map<nat, Lease>, n: nat)
    requires forall t :: IsLive(leases, t) ==> Due(s, es, t, leases[t].reserved) && leases[t].reserved >= 0
    ensures AskedByLive(es, leases, n) <= Held(leases, n)
  {
    hide Due, AskedBy, Unreduced;
    if n > 0 {
      AskedWithinHeld(s, es, leases, n - 1);
      var t := n - 1;
      if IsLive(leases, t) && Unreduced(es, t) { UnreducedHoldsAll(s, es, t, leases[t].reserved); }
    }
  }

  /** Whatever was asked for by calls whose leases are live and unreduced fits the budget together. */
  lemma AskedFitsBudget(budget: nat, queueLimit: nat, es: seq<Event>)
    ensures AskedByLive(es, Run(Init(budget, queueLimit), es).leases, AcquireCalls(es)) <= budget
  {
    hide Run, Due, AskedBy, AskedByLive;
    var s := Init(budget, queueLimit);
    var now := Run(s, es);
    RunBooks(budget, queueLimit, es);
    Reachable(budget, queueLimit, es);
    InitKeeps(budget, queueLimit);
    RunKeeps(s, es);
    BudgetStays(s, es);
    LeasesHoldSomething(now);
    AskedWithinHeld(s, es, now.leases, now.next);
  }

  lemma LeasesHoldSomething(s: State)
    requires Inv(s)
    ensures forall t :: IsLive(s.leases, t) ==> s.leases[t].reserved >= 0
  {}

  lemma {:induction false} DrainKeepsBudget(s: State)
    ensures Drain(s).budget == s.budget
    decreases |s.queue|
  {
    if !s.shuttingDown && s.queue != [] && CanAdmit(s, s.queue[0].bytes) {
      DrainKeepsBudget(CreateLease(s.(queue := s.queue[1..]), s.queue[0].ticket, s.queue[0].bytes));
    }
  }

  lemma StepKeepsBudget(s: State, e: Event)
    ensures Step(s, e).budget == s.budget
  {
    hide Drain;
    forall x ensures Drain(x).budget == x.budget { DrainKeepsBudget(x); }
  }

  lemma {:induction false} BudgetStays(s: State, es: seq<Event>)
    ensures Run(s, es).budget == s.budget
    decreases |es|
  {
    hide Step;
    if es != [] {
      StepKeepsBudget(s, es[0]);
      BudgetStays(Step(s, es[0]), es[1..]);
    }
  }

  // ---- who keeps waiting ----

  ghost predicate Served(s: State, t: nat) { t in s.leases || Waits(s, t) }

  lemma {:induction false} DrainServes(s: State, t: nat)
    requires Served(s, t)
    ensures Served(Drain(s), t)
    decreases |s.queue|
  {
    if !s.shuttingDown && s.queue != [] && CanAdmit(s, s.queue[0].bytes) {
      var head, rest := s.queue[0], s.queue[1..];
      var s1 := CreateLease(s.(queue := rest), head.ticket, head.bytes);
      if t !in s1.leases {
        var j :| 0 <= j < |s.queue| && s.queue[j].ticket == t;
        assert rest[j - 1].ticket == t;
      }
      DrainServes(s1, t);
    }
  }

  lemma {:induction false} WithoutKeepsOthers(q: seq<Entry>, ticket: nat, t: nat)
    requires t != ticket && exists j :: 0 <= j < |q| && q[j].ticket == t
    ensures exists j :: 0 <= j < |Without(q, ticket)| && Without(q, ticket)[j].ticket == t
    decreases |q|
  {
    var j :| 0 <= j < |q| && q[j].ticket == t;
    if q[0].ticket == ticket && q[0].abortable {
      assert Without(q, ticket)[j - 1].ticket == t;
    } else if j == 0 {
      assert Without(q, ticket)[0].ticket == t;
    } else {
      assert q[1..][j - 1].ticket == t;
      WithoutKeepsOthers(q[1..], ticket, t);
      var rest := Without(q[1..], ticket);
      var i :| 0 <= i < |rest| && rest[i].ticket == t;
      assert Without(q, ticket)[i + 1].ticket == t;
    }
  }

  lemma AcquireServes(s: State, bytes: Num, aborted: bool, abortable: bool, t: nat)
    requires Served(s, t)
    ensures Served(Acquire(s, bytes, aborted, abortable), t)
  {
    hide Drain;
    var u := s.(next := s.next + 1);
    assert Served(u, t);
    if AcquireReply(s, bytes, aborted) == Waiting {
      var v := u.(counters := u.counters.(queued := u.counters.queued + 1),
                  queue := u.queue + [Entry(s.next, bytes.n, abortable)]);
      if t !in s.leases {
        var j :| 0 <= j < |s.queue| && s.queue[j].ticket == t;
        assert v.queue[j].ticket == t;
      }
      DrainServes(v, t);
    }
  }

  lemma AbortServes(s: State, ticket: nat, t: nat)
    requires Served(s, t) && t != ticket
    ensures Served(Abort(s, ticket), t)
  {
    hide Drain, Without;
    var v := s.(queue := Without(s.queue, ticket),
                counters := s.counters.(queueAborted := s.counters.queueAborted + 1));
    if t !in s.leases { WithoutKeepsOthers(s.queue, ticket, t); }
    assert Served(v, t);
    DrainServes(v, t);
  }

  lemma LeaseCallServes(s: State, leases: map<nat, Lease>, reserved: int, active: int, counters: Counters, t: nat)
    requires Served(s, t) && leases.Keys == s.leases.Keys
    ensures Served(Drain(s.(leases := leases, reserved := reserved, active := active, counters := counters)), t)
  {
    hide Drain;
    var v := s.(leases := leases, reserved := reserved, active := active, counters := counters);
    if t !in s.leases {
      var j :| 0 <= j < |s.queue| && s.queue[j].ticket == t;
      assert v.queue[j].ticket == t;
    }
    DrainServes(v, t);
  }

  /** Only its own abort, or a shutdown, takes a waiter out of the queue without granting it. */
  lemma StepServes(s: State, e: Event, t: nat)
    requires Served(s, t) && e != AbortSignal(t) && e != ShutdownCall
    ensures Served(Step(s, e), t)
  {
    hide Drain, Acquire, Abort, Served;
    match e {
      case AcquireCall(bytes, aborted, abortable) => AcquireServes(s, bytes, aborted, abortable, t);
      case AbortSignal(ticket) => AbortServes(s, ticket, t);
      case ReduceCall(ticket, bytes) =>
        if ticket in s.leases && bytes.Int? {
          var lease := s.leases[ticket];
          LeaseCallServes(s, s.leases[ticket := lease.(reserved := bytes.n)],
                          Max(0, s.reserved - (lease.reserved - bytes.n)), s.active, s.counters, t);
        }
      case ReleaseCall(ticket) =>
        if ticket in s.leases {
          var lease := s.leases[ticket];
          LeaseCallServes(s, s.leases[ticket := lease.(released := true)], Max(0, s.reserved - lease.reserved),
                          Max(0, s.active - 1), s.counters.(released := s.counters.released + 1), t);
        }
    }
  }

  /** A waiter stays in the queue or has a lease after every run without its own abort and without shutdown. */
  lemma {:induction false} WaiterIsNeverLost(s: State, es: seq<Event>, t: nat)
    requires Served(s, t) && forall k :: 0 <= k < |es| ==> es[k] != AbortSignal(t) && es[k] != ShutdownCall
    ensures Served(Run(s, es), t)
    decreases |es|
  {
    hide Step, Served;
    if es != [] {
      StepServes(s, es[0], t);
      WaiterIsNeverLost(Step(s, es[0]), es[1..], t);
    }
  }

  // ---- what a call is told, and what is counted ----

  /** A byte count the controller can take at all. */
  predicate Acceptable(s: State, bytes: Num) { bytes.Int? && 0 <= bytes.n <= MAX_SAFE_INTEGER && bytes.n <= s.budget }

  /** Nobody waits, and the bytes fit beside those of the live leases. */
  predicate FitsNow(s: State, bytes: Num) {
    s.queue == [] && bytes.Int? && Held(s.leases, s.next) + bytes.n <= s.budget
  }

  lemma NothingToDrain(s: State)
    requires s.queue != [] && !CanAdmit(s, s.queue[0].bytes)
    ensures Drain(s) == s
  {}

  /**
   What comes of an acquire call: it is granted at once exactly if it is acceptable, not aborted and fits; it waits
   exactly if it does not fit and the queue has room; the reply says which; and the counters count the calls that wait
   and those that are turned away.
   */
  lemma AcquireMeans(s: State, bytes: Num, aborted: bool, abortable: bool)
    requires Inv(s)
    ensures var s', reply := Step(s, AcquireCall(bytes, aborted, abortable)), AcquireReply(s, bytes, aborted);
      var open := !s.shuttingDown && Acceptable(s, bytes) && !aborted;
      && (s.next in s'.leases <==> open && FitsNow(s, bytes))
      && (Waits(s', s.next) <==> open && !FitsNow(s, bytes) && |s.queue| < s.queueLimit)
      && (reply.Granted? <==> s.next in s'.leases) && (reply.Waiting? <==> Waits(s', s.next))
      && (reply.ShuttingDown? <==> s.shuttingDown)
      && (reply.Aborted? <==> !s.shuttingDown && Acceptable(s, bytes) && aborted)
      && s'.counters.queued == s.counters.queued + (if Waits(s', s.next) then 1 else 0)
      && s'.counters.queueFull == s.counters.queueFull + (if reply.QueueFull? then 1 else 0)
      && s'.counters.queueAborted == s.counters.queueAborted
  {
    hide Drain, Increasing;
    var s' := Step(s, AcquireCall(bytes, aborted, abortable));
    assert s.next !in s.leases by { assert s.next !in s.grants; }
    assert !Waits(s, s.next);
    if AcquireReply(s, bytes, aborted) == Waiting {
      var t := s.(next := s.next + 1, counters := s.counters.(queued := s.counters.queued + 1),
                  queue := s.queue + [Entry(s.next, bytes.n, abortable)]);
      assert t.queue[0] == if s.queue == [] then Entry(s.next, bytes.n, abortable) else s.queue[0];
      NothingToDrain(t);
      assert t.queue[|s.queue|].ticket == s.next;
    }
  }

  ghost predicate CountsAlike(s: State, s': State) {
    && s'.counters.queued == s.counters.queued && s'.counters.queueFull == s.counters.queueFull
    && s'.counters.queueAborted == s.counters.queueAborted
  }

  lemma {:induction false} DrainCounts(s: State)
    ensures CountsAlike(s, Drain(s))
    decreases |s.queue|
  {
    if !s.shuttingDown && s.queue != [] && CanAdmit(s, s.queue[0].bytes) {
      DrainCounts(CreateLease(s.(queue := s.queue[1..]), s.queue[0].ticket, s.queue[0].bytes));
    }
  }

  ghost predicate CanBeAborted(q: seq<Entry>, t: nat) {
    exists j :: 0 <= j < |q| && q[j].ticket == t && q[j].abortable
  }

  lemma {:induction false} WithoutShrinks(q: seq<Entry>, t: nat)
    ensures |Without(q, t)| == |q| - if CanBeAborted(q, t) then 1 else 0
    decreases |q|
  {
    if q != [] {
      WithoutShrinks(q[1..], t);
      if CanBeAborted(q, t) {
        var j :| 0 <= j < |q| && q[j].ticket == t && q[j].abortable;
        if j > 0 { assert q[1..][j - 1] == q[j]; }
      }
    }
  }

  /** The other calls: only the abort of a waiter that can be aborted is counted, once. */
  lemma OthersCount(s: State, e: Event)
    requires !e.AcquireCall?
    ensures var c, c' := s.counters, Step(s, e).counters;
      && c'.queued == c.queued && c'.queueFull == c.queueFull
      && c'.queueAborted == c.queueAborted + if e.AbortSignal? && CanBeAborted(s.queue, e.ticket) then 1 else 0
  {
    hide Drain, Without, CanBeAborted;
    if e.AbortSignal? { WithoutShrinks(s.queue, e.ticket); }
    forall x: State ensures CountsAlike(x, Drain(x)) { DrainCounts(x); }
  }

  /** The configured budget and queue limit: a positive safe integer is taken as it is, and the limit is capped. */
  lemma ConfiguredMeans(option: Num)
    ensures ConfiguredBudget(option) == if option.Int? && 0 < option.n <= MAX_SAFE_INTEGER then option.n
      else 0x1000_0000
    ensures ConfiguredQueueLimit(option) ==
      if option.Int? && 0 <= option.n <= 5000 then option.n
      else if option.Int? && 5000 < option.n <= MAX_SAFE_INTEGER then 5000
      else 500
  {}

  lemma {:induction false} DrainStaysOpen(s: State)
    ensures Drain(s).shuttingDown == s.shuttingDown
    decreases |s.queue|
  {
    if !s.shuttingDown && s.queue != [] && CanAdmit(s, s.queue[0].bytes) {
      DrainStaysOpen(CreateLease(s.(queue := s.queue[1..]), s.queue[0].ticket, s.queue[0].bytes));
    }
  }

  lemma StepShutsDown(s: State, e: Event)
    ensures Step(s, e).shuttingDown <==> s.shuttingDown || e == ShutdownCall
  {
    hide Drain;
    forall x: State ensures Drain(x).shuttingDown == x.shuttingDown { DrainStaysOpen(x); }
  }

  /** In every run the controller is shutting down exactly once it was called to. */
  lemma {:induction false} ShutdownStands(budget: nat, queueLimit: nat, es: seq<Event>)
    ensures Run(Init(budget, queueLimit), es).shuttingDown <==> ShutdownCall in es
    decreases |es|
  {
    hide Step;
    if es != [] {
      var n := |es| - 1;
      ShutdownStands(budget, queueLimit, es[..n]);
      RunLast(Init(budget, queueLimit), es);
      StepShutsDown(Run(Init(budget, queueLimit), es[..n]), es[n]);
      assert es == es[..n] + [es[n]];
    }
  }
}
