/** What every run of the admission controller keeps, and what it eventually does. */
module BodyAdmissionRuns {
  import opened Units
  import opened Decimal
  import opened BodyAdmission

  // ---- sums over leases ----

  lemma {:induction false} HeldUpdate(leases: map<nat, Lease>, t: nat, l: Lease, n: nat)
    ensures var before := if IsLive(leases, t) then leases[t].reserved else 0;
            var after := if l.released then 0 else l.reserved;
            Held(leases[t := l], n) == Held(leases, n) + if t < n then after - before else 0
    ensures var before := if IsLive(leases, t) then 1 else 0;
            var after := if l.released then 0 else 1;
            LiveCount(leases[t := l], n) == LiveCount(leases, n) + if t < n then after - before else 0
  {
    if n > 0 { HeldUpdate(leases, t, l, n - 1); }
  }

  ghost predicate NonNegative(leases: map<nat, Lease>) { forall t :: t in leases ==> leases[t].reserved >= 0 }

  lemma {:induction false} HeldBounds(leases: map<nat, Lease>, n: nat)
    requires NonNegative(leases)
    ensures Held(leases, n) >= 0 && LiveCount(leases, n) >= 0
    ensures forall t: nat | t < n && IsLive(leases, t) ::
      leases[t].reserved <= Held(leases, n) && 1 <= LiveCount(leases, n)
    ensures Held(leases, n) > 0 ==> exists t: nat :: t < n && IsLive(leases, t) && leases[t].reserved > 0
  {
    if n > 0 {
      HeldBounds(leases, n - 1);
      if IsLive(leases, n - 1) && leases[n - 1].reserved > 0 {
        assert n - 1 < n;
      }
    }
  }

  // ---- one grant, one drain ----

  lemma GrantKeeps(s: State, ticket: nat, bytes: nat)
    requires Accounted(s) && Ordered(s) && CanAdmit(s, bytes) && ticket < s.next
    requires forall i :: 0 <= i < |s.grants| ==> s.grants[i] < ticket
    requires forall j :: 0 <= j < |s.queue| ==> ticket < s.queue[j].ticket
    ensures Accounted(CreateLease(s, ticket, bytes)) && Ordered(CreateLease(s, ticket, bytes))
  {
    assert ticket !in s.leases;
    HeldUpdate(s.leases, ticket, Lease(bytes, false), s.next);
    var s' := CreateLease(s, ticket, bytes);
    forall g ensures g in s'.grants <==> g in s'.leases {
      assert g in s'.grants <==> g in s.grants || g == ticket;
    }
  }

  /** Draining leaves the front waiter unable to fit and keeps everything else. */
  lemma {:induction false} DrainKeeps(s: State)
    requires Accounted(s) && Ordered(s) && (s.shuttingDown ==> s.queue == [])
    ensures Accounted(Drain(s)) && Ordered(Drain(s)) && Settled(Drain(s))
    ensures |Drain(s).queue| <= |s.queue| && Drain(s).queue == s.queue[|s.queue| - |Drain(s).queue|..]
    ensures Drain(s).queueLimit == s.queueLimit
    decreases |s.queue|
  {
    hide Accounted;
    if !s.shuttingDown && s.queue != [] && CanAdmit(s, s.queue[0].bytes) {
      var head := s.queue[0];
      var t := s.(queue := s.queue[1..]);
      TailKeeps(s);
      GrantKeeps(t, head.ticket, head.bytes);
      DrainKeeps(CreateLease(t, head.ticket, head.bytes));
    }
  }

  lemma TailKeeps(s: State)
    requires Accounted(s) && Ordered(s) && s.queue != []
    ensures var t := s.(queue := s.queue[1..]);
            Accounted(t) && Ordered(t) && forall j :: 0 <= j < |t.queue| ==> s.queue[0].ticket < t.queue[j].ticket
  {}

  // ---- every step ----

  lemma TicketKeeps(s: State)
    requires Accounted(s) && Ordered(s)
    ensures Accounted(s.(next := s.next + 1)) && Ordered(s.(next := s.next + 1))
  {
    assert !IsLive(s.leases, s.next);
    assert Held(s.leases, s.next + 1) == Held(s.leases, s.next);
    assert LiveCount(s.leases, s.next + 1) == LiveCount(s.leases, s.next);
  }

  lemma GrantNow(s: State, bytes: nat)
    requires Inv(s) && s.queue == [] && CanAdmit(s, bytes)
    ensures Inv(CreateLease(s.(next := s.next + 1), s.next, bytes))
  {
    TicketKeeps(s);
    GrantKeeps(s.(next := s.next + 1), s.next, bytes);
  }

  lemma WaitKeeps(s: State, bytes: nat, abortable: bool, counters: Counters)
    requires Inv(s) && !s.shuttingDown && bytes <= s.budget && |s.queue| < s.queueLimit
    requires counters.admitted == s.counters.admitted && counters.released == s.counters.released
    ensures Inv(Drain(s.(next := s.next + 1, counters := counters,
                         queue := s.queue + [Entry(s.next, bytes, abortable)])))
  {
    hide Drain;
    TicketKeeps(s);
    DrainKeeps(s.(next := s.next + 1, counters := counters, queue := s.queue + [Entry(s.next, bytes, abortable)]));
  }

  lemma RefuseKeeps(s: State, counters: Counters)
    requires Inv(s)
    requires counters.admitted == s.counters.admitted && counters.released == s.counters.released
    ensures Inv(s.(next := s.next + 1, counters := counters))
  {
    TicketKeeps(s);
  }

  lemma AcquireKeeps(s: State, bytes: Num, aborted: bool, abortable: bool)
    requires Inv(s)
    ensures Inv(Acquire(s, bytes, aborted, abortable))
  {
    hide Drain, Inv, CreateLease;
    match AcquireReply(s, bytes, aborted) {
      case Granted => GrantNow(s, bytes.n);
      case Waiting => WaitKeeps(s, bytes.n, abortable, s.counters.(queued := s.counters.queued + 1));
      case QueueFull => RefuseKeeps(s, s.counters.(queueFull := s.counters.queueFull + 1));
      case _ => RefuseKeeps(s, s.counters);
    }
  }

  /** Removing an aborted waiter leaves the others in their order. */
  lemma {:induction false} WithoutKeeps(q: seq<Entry>, ticket: nat)
    ensures forall e :: e in Without(q, ticket) ==> e in q
    ensures QueueIncreasing(q) ==> QueueIncreasing(Without(q, ticket))
    ensures |Without(q, ticket)| <= |q| && (|Without(q, ticket)| == |q| ==> Without(q, ticket) == q)
    ensures q != [] && (q[0].ticket != ticket || !q[0].abortable) ==>
      Without(q, ticket) != [] && Without(q, ticket)[0] == q[0]
    decreases |q|
  {
    hide QueueIncreasing;
    if q != [] {
      assert q == [q[0]] + q[1..];
      QueueTail(q);
      if !(q[0].ticket == ticket && q[0].abortable) {
        WithoutKeeps(q[1..], ticket);
        QueueCons(q, Without(q[1..], ticket));
      }
    }
  }

  lemma QueueTail(q: seq<Entry>)
    requires q != []
    ensures QueueIncreasing(q) ==> QueueIncreasing(q[1..])
  {
    var tail := q[1..];
    assert forall k :: 0 <= k < |tail| ==> tail[k] == q[k + 1];
  }

  /** The front of an increasing queue stays in front of entries from its tail. */
  lemma QueueCons(q: seq<Entry>, rest: seq<Entry>)
    requires q != [] && forall e :: e in rest ==> e in q[1..]
    ensures QueueIncreasing(q) && QueueIncreasing(rest) ==> QueueIncreasing([q[0]] + rest)
  {
    if QueueIncreasing(q) {
      forall j | 0 <= j < |rest| ensures q[0].ticket < rest[j].ticket {
        assert rest[j] in q[1..];
        var k :| 0 <= k < |q[1..]| && q[1..][k] == rest[j];
        assert q[k + 1] == rest[j];
      }
    }
  }

  lemma AbortKeeps(s: State, ticket: nat)
    requires Inv(s)
    ensures Inv(Abort(s, ticket))
  {
    hide Drain, Without;
    var queue := Without(s.queue, ticket);
    WithoutKeeps(s.queue, ticket);
    if |queue| != |s.queue| {
      var t := s.(queue := queue, counters := s.counters.(queueAborted := s.counters.queueAborted + 1));
      forall j | 0 <= j < |queue| ensures queue[j] in s.queue { assert queue[j] in queue; }
      DrainKeeps(t);
    }
  }

  lemma ReduceKeeps(s: State, ticket: nat, bytes: Num)
    requires Inv(s)
    ensures Inv(Reduce(s, ticket, bytes))
  {
    hide Drain, Held, LiveCount, Increasing, QueueIncreasing;
    if Reduce(s, ticket, bytes) != s && IsLive(s.leases, ticket) {
      var lease := s.leases[ticket];
      HeldBounds(s.leases, s.next);
      HeldUpdate(s.leases, ticket, lease.(reserved := bytes.n), s.next);
      DrainKeeps(s.(leases := s.leases[ticket := lease.(reserved := bytes.n)],
                    reserved := Max(0, s.reserved - (lease.reserved - bytes.n))));
    }
  }

  lemma ReleaseKeeps(s: State, ticket: nat)
    requires Inv(s)
    ensures Inv(Release(s, ticket))
  {
    hide Drain, Held, LiveCount, Increasing, QueueIncreasing;
    if IsLive(s.leases, ticket) {
      var lease := s.leases[ticket];
      HeldBounds(s.leases, s.next);
      HeldUpdate(s.leases, ticket, lease.(released := true), s.next);
      DrainKeeps(s.(leases := s.leases[ticket := lease.(released := true)],
                    reserved := Max(0, s.reserved - lease.reserved),
                    active := Max(0, s.active - 1),
                    counters := s.counters.(released := s.counters.released + 1)));
    }
  }

  lemma StepKeeps(s: State, e: Event)
    requires Inv(s)
    ensures Inv(Step(s, e))
  {
    hide Inv;
    match e {
      case AcquireCall(bytes, aborted, abortable) => AcquireKeeps(s, bytes, aborted, abortable);
      case AbortSignal(ticket) => AbortKeeps(s, ticket);
      case ReduceCall(ticket, bytes) => ReduceKeeps(s, ticket, bytes);
      case ReleaseCall(ticket) => ReleaseKeeps(s, ticket);
      case ShutdownCall => ShutdownKeeps(s);
    }
  }

  lemma ShutdownKeeps(s: State)
    requires Inv(s)
    ensures Inv(Shutdown(s))
  {}

  lemma {:induction false} RunKeeps(s: State, es: seq<Event>)
    requires Inv(s)
    ensures Inv(Run(s, es))
    decreases |es|
  {
    hide Inv, Step;
    if es != [] {
      StepKeeps(s, es[0]);
      RunKeeps(Step(s, es[0]), es[1..]);
    }
  }

  lemma InitKeeps(budget: nat, queueLimit: nat)
    ensures Inv(Init(budget, queueLimit))
  {}

  // ---- conservation ----

  /** In every reachable state: conservation, the budget, and first come first served. */
  lemma Reachable(budget: nat, queueLimit: nat, es: seq<Event>)
    ensures var s := Run(Init(budget, queueLimit), es);
            && 0 <= s.reserved == Held(s.leases, s.next) <= s.budget
            && 0 <= s.active == LiveCount(s.leases, s.next) == s.counters.admitted - s.counters.released
            && |s.queue| <= s.queueLimit
            && Increasing(s.grants) && QueueIncreasing(s.queue)
            && forall i, j :: 0 <= i < |s.grants| && 0 <= j < |s.queue| ==> s.grants[i] < s.queue[j].ticket
  {
    hide Run, Init, Held, LiveCount;
    InitKeeps(budget, queueLimit);
    RunKeeps(Init(budget, queueLimit), es);
    var s := Run(Init(budget, queueLimit), es);
    HeldBounds(s.leases, s.next);
  }

  /** The clamps at zero never change a value. */
  lemma ClampsAreInert(s: State, ticket: nat, bytes: nat)
    requires Inv(s) && IsLive(s.leases, ticket)
    ensures var lease := s.leases[ticket];
            && Max(0, s.reserved - lease.reserved) == s.reserved - lease.reserved
            && Max(0, s.active - 1) == s.active - 1
            && (bytes < lease.reserved ==>
                  Max(0, s.reserved - (lease.reserved - bytes)) == s.reserved - (lease.reserved - bytes))
  {
    HeldBounds(s.leases, s.next);
  }

  // ---- peaks ----

  /** The largest value of `f` between calls along a run. */
  function Highest(s: State, es: seq<Event>, f: State -> int): int
    decreases |es|
  {
    if es == [] then f(s) else Max(f(s), Highest(Step(s, es[0]), es[1..], f))
  }

  lemma {:induction false} DrainPeaks(s: State)
    requires s.reserved <= s.peakReserved && s.active <= s.peakActive
    ensures Drain(s).reserved >= s.reserved && Drain(s).peakReserved == Max(s.peakReserved, Drain(s).reserved)
    ensures Drain(s).active >= s.active && Drain(s).peakActive == Max(s.peakActive, Drain(s).active)
    decreases |s.queue|
  {
    if !s.shuttingDown && s.queue != [] && CanAdmit(s, s.queue[0].bytes) {
      DrainPeaks(CreateLease(s.(queue := s.queue[1..]), s.queue[0].ticket, s.queue[0].bytes));
    }
  }

  lemma StepPeaks(s: State, e: Event)
    requires Inv(s)
    ensures Step(s, e).peakReserved == Max(s.peakReserved, Step(s, e).reserved)
    ensures Step(s, e).peakActive == Max(s.peakActive, Step(s, e).active)
  {
    hide Drain, Held, LiveCount, Without, Ordered;
    HeldBounds(s.leases, s.next);
    match e {
      case AcquireCall(bytes, aborted, abortable) =>
        if AcquireReply(s, bytes, aborted) == Waiting {
          DrainPeaks(s.(next := s.next + 1, counters := s.counters.(queued := s.counters.queued + 1),
                        queue := s.queue + [Entry(s.next, bytes.n, abortable)]));
        }
      case AbortSignal(ticket) =>
        DrainPeaks(s.(queue := Without(s.queue, ticket),
                      counters := s.counters.(queueAborted := s.counters.queueAborted + 1)));
      case ReduceCall(ticket, bytes) =>
        if IsLive(s.leases, ticket) && IsSafe(bytes) && 0 <= bytes.n < s.leases[ticket].reserved {
          var lease := s.leases[ticket];
          DrainPeaks(s.(leases := s.leases[ticket := lease.(reserved := bytes.n)],
                        reserved := Max(0, s.reserved - (lease.reserved - bytes.n))));
        }
      case ReleaseCall(ticket) =>
        if IsLive(s.leases, ticket) {
          var lease := s.leases[ticket];
          DrainPeaks(s.(leases := s.leases[ticket := lease.(released := true)],
                        reserved := Max(0, s.reserved - lease.reserved),
                        active := Max(0, s.active - 1),
                        counters := s.counters.(released := s.counters.released + 1)));
        }
      case ShutdownCall =>
    }
  }

  lemma {:induction false} RunPeaks(s: State, es: seq<Event>)
    requires Inv(s)
    ensures Run(s, es).peakReserved == Max(s.peakReserved, Highest(s, es, (x: State) => x.reserved))
    ensures Run(s, es).peakActive == Max(s.peakActive, Highest(s, es, (x: State) => x.active))
    decreases |es|
  {
    hide Step, Ordered, Settled, Held, LiveCount;
    if es != [] {
      StepKeeps(s, es[0]);
      StepPeaks(s, es[0]);
      RunPeaks(Step(s, es[0]), es[1..]);
    }
  }

  /** The reported peaks are the running maxima. */
  lemma PeaksAreMaxima(budget: nat, queueLimit: nat, es: seq<Event>)
    ensures var s := Init(budget, queueLimit);
            && Run(s, es).peakReserved == Highest(s, es, (x: State) => x.reserved)
            && Run(s, es).peakActive == Highest(s, es, (x: State) => x.active)
  {
    var s := Init(budget, queueLimit);
    InitKeeps(budget, queueLimit);
    RunPeaks(s, es);
    HighestStart(s, es, (x: State) => x.reserved);
    HighestStart(s, es, (x: State) => x.active);
  }

  lemma HighestStart(s: State, es: seq<Event>, f: State -> int)
    ensures Highest(s, es, f) >= f(s)
  {}

  // ---- progress ----

  /** Leases are only ever added, and a released lease stays released. */
  ghost predicate LeasesExtend(old_: map<nat, Lease>, new_: map<nat, Lease>) {
    forall t :: t in old_ ==> t in new_ && (old_[t].released ==> new_[t].released)
  }

  lemma {:induction false} DrainExtends(s: State)
    requires forall j :: 0 <= j < |s.queue| ==> s.queue[j].ticket !in s.leases
    requires QueueIncreasing(s.queue)
    ensures LeasesExtend(s.leases, Drain(s).leases)
    ensures Drain(s) == s || (s.queue != [] && s.queue[0].ticket in Drain(s).leases)
    decreases |s.queue|
  {
    if !s.shuttingDown && s.queue != [] && CanAdmit(s, s.queue[0].bytes) {
      DrainExtends(CreateLease(s.(queue := s.queue[1..]), s.queue[0].ticket, s.queue[0].bytes));
    }
  }

  /** Between two calls the front waiter is granted, or stays in front while nobody else is granted. */
  ghost predicate HeadAdvances(head: Entry, s: State, s': State) {
    || head.ticket in s'.leases
    || (s'.queue != [] && s'.queue[0] == head && s'.leases.Keys == s.leases.Keys)
  }

  predicate Disturbs(e: Event, head: Entry) { e.ShutdownCall? || e == AbortSignal(head.ticket) }

  lemma WaitersUngranted(s: State)
    requires Ordered(s)
    ensures forall j :: 0 <= j < |s.queue| ==> s.queue[j].ticket !in s.leases
  {
    forall j | 0 <= j < |s.queue| ensures s.queue[j].ticket !in s.leases {
      assert s.queue[j].ticket !in s.grants;
    }
  }

  /** Leases extend, and an undisturbed front advances. */
  ghost predicate Advances(s: State, e: Event, s': State) {
    && LeasesExtend(s.leases, s'.leases)
    && (s.queue != [] && !Disturbs(e, s.queue[0]) ==> HeadAdvances(s.queue[0], s, s'))
  }

  lemma AcquireExtends(s: State, bytes: Num, aborted: bool, abortable: bool)
    requires Inv(s)
    ensures Advances(s, AcquireCall(bytes, aborted, abortable), Acquire(s, bytes, aborted, abortable))
  {
    hide Drain, Accounted, Settled, Increasing;
    WaitersUngranted(s);
    assert s.next !in s.leases by { assert s.next !in s.grants; }
    if AcquireReply(s, bytes, aborted) == Waiting {
      DrainExtends(s.(next := s.next + 1, counters := s.counters.(queued := s.counters.queued + 1),
                      queue := s.queue + [Entry(s.next, bytes.n, abortable)]));
    }
  }

  lemma AbortExtends(s: State, ticket: nat)
    requires Inv(s)
    ensures Advances(s, AbortSignal(ticket), Abort(s, ticket))
  {
    hide Drain, Without, Accounted, Settled, Increasing;
    WaitersUngranted(s);
    var queue := Without(s.queue, ticket);
    WithoutKeeps(s.queue, ticket);
    forall j | 0 <= j < |queue| ensures queue[j].ticket !in s.leases { assert queue[j] in s.queue; }
    DrainExtends(s.(queue := queue, counters := s.counters.(queueAborted := s.counters.queueAborted + 1)));
  }

  lemma ReduceExtends(s: State, ticket: nat, bytes: Num)
    requires Inv(s)
    ensures Advances(s, ReduceCall(ticket, bytes), Reduce(s, ticket, bytes))
  {
    hide Drain, Accounted, Settled, Increasing;
    WaitersUngranted(s);
    if IsLive(s.leases, ticket) && IsSafe(bytes) && 0 <= bytes.n < s.leases[ticket].reserved {
      var lease := s.leases[ticket];
      DrainExtends(s.(leases := s.leases[ticket := lease.(reserved := bytes.n)],
                      reserved := Max(0, s.reserved - (lease.reserved - bytes.n))));
    }
  }

  lemma ReleaseExtends(s: State, ticket: nat)
    requires Inv(s)
    ensures Advances(s, ReleaseCall(ticket), Release(s, ticket))
  {
    hide Drain, Accounted, Settled, Increasing;
    WaitersUngranted(s);
    if IsLive(s.leases, ticket) {
      var lease := s.leases[ticket];
      DrainExtends(s.(leases := s.leases[ticket := lease.(released := true)],
                      reserved := Max(0, s.reserved - lease.reserved),
                      active := Max(0, s.active - 1),
                      counters := s.counters.(released := s.counters.released + 1)));
    }
  }

  lemma StepExtends(s: State, e: Event)
    requires Inv(s)
    ensures LeasesExtend(s.leases, Step(s, e).leases)
    ensures s.queue != [] && !Disturbs(e, s.queue[0]) ==> HeadAdvances(s.queue[0], s, Step(s, e))
  {
    hide Inv, Acquire, Abort, Reduce, Release, HeadAdvances;
    match e {
      case AcquireCall(bytes, aborted, abortable) => AcquireExtends(s, bytes, aborted, abortable);
      case AbortSignal(ticket) => AbortExtends(s, ticket);
      case ReduceCall(ticket, bytes) => ReduceExtends(s, ticket, bytes);
      case ReleaseCall(ticket) => ReleaseExtends(s, ticket);
      case ShutdownCall =>
    }
  }

  lemma {:induction false} RunExtends(s: State, es: seq<Event>)
    requires Inv(s)
    ensures LeasesExtend(s.leases, Run(s, es).leases)
    decreases |es|
  {
    hide Step, Inv;
    if es != [] {
      StepKeeps(s, es[0]);
      StepExtends(s, es[0]);
      RunExtends(Step(s, es[0]), es[1..]);
    }
  }

  ghost predicate Undisturbed(es: seq<Event>, head: Entry) { forall k :: 0 <= k < |es| ==> !Disturbs(es[k], head) }

  lemma {:induction false} RunHead(s: State, es: seq<Event>)
    requires Inv(s) && s.queue != [] && Undisturbed(es, s.queue[0])
    ensures HeadAdvances(s.queue[0], s, Run(s, es))
    decreases |es|
  {
    hide Step, Inv;
    if es != [] {
      var s' := Step(s, es[0]);
      StepKeeps(s, es[0]);
      StepExtends(s, es[0]);
      if s.queue[0].ticket in s'.leases {
        RunExtends(s', es[1..]);
      } else {
        RunHead(s', es[1..]);
      }
    }
  }

  lemma {:induction false} NothingHeld(leases: map<nat, Lease>, n: nat)
    requires forall t: nat :: t < n ==> !IsLive(leases, t)
    ensures Held(leases, n) == 0
  {
    if n > 0 { NothingHeld(leases, n - 1); }
  }

  /** Every lease live at `s` is released by the end of the run. */
  ghost predicate Returns(s: State, es: seq<Event>) {
    forall t: nat :: IsLive(s.leases, t) ==> !IsLive(Run(s, es).leases, t)
  }

  /** A waiter at the front never waits for nothing: some live lease holds bytes. */
  lemma FrontWaitsForSomeone(s: State)
    requires Inv(s) && s.queue != []
    ensures !CanAdmit(s, s.queue[0].bytes)
    ensures exists t: nat :: IsLive(s.leases, t) && s.leases[t].reserved > 0
  {
    HeldBounds(s.leases, s.next);
  }

  /**
   Progress: whatever else is called, once the leases live now have been returned, the waiter in front
   has its lease, unless it was aborted or the controller shut down.
   */
  lemma FrontIsGranted(s: State, es: seq<Event>)
    requires Inv(s) && s.queue != [] && Undisturbed(es, s.queue[0]) && Returns(s, es)
    ensures s.queue[0].ticket in Run(s, es).leases
  {
    hide Step, Run, Held;
    var s' := Run(s, es);
    RunKeeps(s, es);
    RunExtends(s, es);
    RunHead(s, es);
    if s.queue[0].ticket !in s'.leases {
      forall t: nat ensures !IsLive(s'.leases, t) {
        assert t in s'.leases <==> t in s.leases;
      }
      NothingHeld(s'.leases, s'.next);
      assert false;
    }
  }

  /** Along consecutive rounds, each of which returns the leases live at its start. */
  function RunRounds(s: State, rounds: seq<seq<Event>>): State
    decreases |rounds|
  {
    if rounds == [] then s else RunRounds(Run(s, rounds[0]), rounds[1..])
  }

  ghost predicate Calm(es: seq<Event>) { forall k :: 0 <= k < |es| ==> !es[k].ShutdownCall? && !es[k].AbortSignal? }

  ghost predicate RoundsReturn(s: State, rounds: seq<seq<Event>>)
    decreases |rounds|
  {
    rounds == [] || (Calm(rounds[0]) && Returns(s, rounds[0]) && RoundsReturn(Run(s, rounds[0]), rounds[1..]))
  }

  /** The first `m` waiters of `s` have their leases in `s'`, and the others still wait in front, in order. */
  ghost predicate Shifted(s: State, s': State, m: nat) {
    && m <= |s.queue| && s.queue[m..] <= s'.queue
    && forall j :: 0 <= j < m ==> s.queue[j].ticket in s'.leases
  }

  lemma {:induction false} DrainShifts(s: State) returns (m: nat)
    requires QueueIncreasing(s.queue) && forall j :: 0 <= j < |s.queue| ==> s.queue[j].ticket !in s.leases
    ensures Shifted(s, Drain(s), m) && LeasesExtend(s.leases, Drain(s).leases)
    decreases |s.queue|
  {
    m := 0;
    if !s.shuttingDown && s.queue != [] && CanAdmit(s, s.queue[0].bytes) {
      var head := s.queue[0];
      var t := CreateLease(s.(queue := s.queue[1..]), head.ticket, head.bytes);
      var k := DrainShifts(t);
      assert head.ticket in t.leases;
      m := k + 1;
      assert s.queue[m..] == t.queue[k..];
      forall j | 0 <= j < m ensures s.queue[j].ticket in Drain(s).leases {
        if j > 0 { assert s.queue[j] == t.queue[j - 1]; }
      }
    }
  }

  lemma AcquireShifts(s: State, bytes: Num, aborted: bool, abortable: bool) returns (m: nat)
    requires Inv(s)
    ensures Shifted(s, Acquire(s, bytes, aborted, abortable), m)
  {
    hide Drain, Accounted, Settled;
    WaitersUngranted(s);
    m := 0;
    if AcquireReply(s, bytes, aborted) == Waiting {
      assert s.next !in s.leases by { assert s.next !in s.grants; }
      var t := s.(next := s.next + 1, counters := s.counters.(queued := s.counters.queued + 1),
                  queue := s.queue + [Entry(s.next, bytes.n, abortable)]);
      m := DrainShifts(t);
      m := ShiftedPrefix(s, t, Drain(t), m);
    }
  }

  lemma ReduceShifts(s: State, ticket: nat, bytes: Num) returns (m: nat)
    requires Inv(s)
    ensures Shifted(s, Reduce(s, ticket, bytes), m)
  {
    hide Drain, Accounted, Settled;
    WaitersUngranted(s);
    m := 0;
    if IsLive(s.leases, ticket) && IsSafe(bytes) && 0 <= bytes.n < s.leases[ticket].reserved {
      var lease := s.leases[ticket];
      m := DrainShifts(s.(leases := s.leases[ticket := lease.(reserved := bytes.n)],
                          reserved := Max(0, s.reserved - (lease.reserved - bytes.n))));
    }
  }

  lemma ReleaseShifts(s: State, ticket: nat) returns (m: nat)
    requires Inv(s)
    ensures Shifted(s, Release(s, ticket), m)
  {
    hide Drain, Accounted, Settled;
    WaitersUngranted(s);
    m := 0;
    if IsLive(s.leases, ticket) {
      var lease := s.leases[ticket];
      m := DrainShifts(s.(leases := s.leases[ticket := lease.(released := true)],
                          reserved := Max(0, s.reserved - lease.reserved),
                          active := Max(0, s.active - 1),
                          counters := s.counters.(released := s.counters.released + 1)));
    }
  }

  lemma StepShifts(s: State, e: Event) returns (m: nat)
    requires Inv(s) && !e.ShutdownCall? && !e.AbortSignal?
    ensures Shifted(s, Step(s, e), m)
  {
    hide Inv, Acquire, Reduce, Release, Shifted;
    match e {
      case AcquireCall(bytes, aborted, abortable) => m := AcquireShifts(s, bytes, aborted, abortable);
      case ReduceCall(ticket, bytes) => m := ReduceShifts(s, ticket, bytes);
      case ReleaseCall(ticket) => m := ReleaseShifts(s, ticket);
    }
  }

  /** Shifts compose; the middle queue may have grown at its end. */
  lemma ShiftedPrefix(s: State, t: State, u: State, k: nat) returns (m: nat)
    requires s.queue <= t.queue && Shifted(t, u, k)
    ensures Shifted(s, u, m) && m == Min(k, |s.queue|)
  {
    m := Min(k, |s.queue|);
    if k <= |s.queue| {
      assert s.queue[k..] <= t.queue[k..];
    } else {
      assert s.queue[m..] == [];
    }
  }

  lemma ShiftedTrans(s: State, t: State, u: State, m: nat, k: nat) returns (n: nat)
    requires Shifted(s, t, m) && Shifted(t, u, k) && LeasesExtend(t.leases, u.leases)
    ensures Shifted(s, u, n) && n >= m
  {
    var rest := s.(queue := s.queue[m..]);
    var j := ShiftedPrefix(rest, t, u, k);
    n := m + j;
    assert s.queue[n..] == rest.queue[j..];
    forall i | 0 <= i < n ensures s.queue[i].ticket in u.leases {
      if i >= m { assert s.queue[i] == rest.queue[i - m]; }
    }
  }

  lemma {:induction false} RunShifts(s: State, es: seq<Event>) returns (m: nat)
    requires Inv(s) && Calm(es)
    ensures Shifted(s, Run(s, es), m)
    decreases |es|
  {
    hide Step, Inv, Shifted;
    m := 0;
    if es == [] {
      ShiftedRefl(s);
    } else {
      var t := Step(s, es[0]);
      StepKeeps(s, es[0]);
      m := StepShifts(s, es[0]);
      var k := RunShifts(t, es[1..]);
      RunExtends(t, es[1..]);
      m := ShiftedTrans(s, t, Run(t, es[1..]), m, k);
    }
  }

  lemma ShiftedRefl(s: State)
    ensures Shifted(s, s, 0)
  {}

  /** One round admits at least the waiter in front. */
  lemma RoundShifts(s: State, es: seq<Event>) returns (m: nat)
    requires Inv(s) && Calm(es) && Returns(s, es)
    ensures Shifted(s, Run(s, es), m) && (s.queue != [] ==> m >= 1)
  {
    hide Run, Accounted;
    m := RunShifts(s, es);
    RunKeeps(s, es);
    if s.queue != [] {
      FrontIsGranted(s, es);
      WaitersUngranted(Run(s, es));
    }
  }

  /** The first k waiters have their leases after k rounds, each of which returns the leases live at its start. */
  lemma {:induction false} RoundsGrant(s: State, rounds: seq<seq<Event>>, j: nat)
    requires Inv(s) && RoundsReturn(s, rounds) && j < |rounds| && j < |s.queue|
    ensures s.queue[j].ticket in RunRounds(s, rounds).leases
    decreases |rounds|
  {
    hide Run, Inv, Returns;
    var t := Run(s, rounds[0]);
    RunKeeps(s, rounds[0]);
    var m := RoundShifts(s, rounds[0]);
    if j < m {
      RoundsExtend(t, rounds[1..]);
    } else {
      assert t.queue[j - m] == s.queue[m..][j - m] == s.queue[j];
      RoundsGrant(t, rounds[1..], j - m);
    }
  }

  lemma {:induction false} RoundsExtend(s: State, rounds: seq<seq<Event>>)
    requires Inv(s)
    ensures LeasesExtend(s.leases, RunRounds(s, rounds).leases)
    decreases |rounds|
  {
    hide Run, Inv;
    if rounds != [] {
      RunKeeps(s, rounds[0]);
      RunExtends(s, rounds[0]);
      RoundsExtend(Run(s, rounds[0]), rounds[1..]);
    }
  }

  /** After shutdown nothing waits and nobody is granted, whatever is called. */
  lemma {:induction false} ShutdownIsFinal(s: State, es: seq<Event>)
    requires Inv(s) && s.shuttingDown
    ensures var s' := Run(s, es); s'.shuttingDown && s'.queue == [] && s'.grants == s.grants
    decreases |es|
  {
    hide Accounted;
    if es != [] {
      StepKeeps(s, es[0]);
      ShutdownIsFinal(Step(s, es[0]), es[1..]);
    }
  }
}
