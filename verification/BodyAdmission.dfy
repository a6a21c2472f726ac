/**
 The weighted FIFO admission controller for request bodies, as a state machine: every public call
 and every abort of a waiting request is one step.
 */
module BodyAdmission {
  import opened Units
  import opened Decimal

  const DEFAULT_BUDGET: nat := 256 * 1024 * 1024
  const DEFAULT_QUEUE_LIMIT: nat := 500
  const MAX_QUEUE_LIMIT: nat := 5_000

  function ConfiguredBudget(option: Num): nat {
    if IsSafe(option) && option.n > 0 then option.n else DEFAULT_BUDGET
  }

  function ConfiguredQueueLimit(option: Num): nat {
    if IsSafe(option) && option.n >= 0 then Min(option.n, MAX_QUEUE_LIMIT) else DEFAULT_QUEUE_LIMIT
  }

  /** A waiting request; tickets number the calls of acquire in arrival order. */
  datatype Entry = Entry(ticket: nat, bytes: nat, abortable: bool)

  /** The variables a lease closes over. */
  datatype Lease = Lease(reserved: int, released: bool)

  datatype Counters = Counters(admitted: int, queued: int, queueFull: int, queueAborted: int, released: int)

  datatype State = State(
    budget: nat,
    queueLimit: nat,
    reserved: int,
    active: int,
    peakReserved: int,
    peakActive: int,
    shuttingDown: bool,
    queue: seq<Entry>,
    counters: Counters,
    leases: map<nat, Lease>,
    grants: seq<nat>,  // tickets in the order their leases were created
    next: nat)         // the ticket of the next acquire

  function Init(budget: nat, queueLimit: nat): State {
    State(budget, queueLimit, 0, 0, 0, 0, false, [], Counters(0, 0, 0, 0, 0), map[], [], 0)
  }

  // ---- the steps ----

  predicate CanAdmit(s: State, bytes: int) { bytes <= s.budget - s.reserved }

  function CreateLease(s: State, ticket: nat, bytes: int): State {
    var reserved, active := s.reserved + bytes, s.active + 1;
    s.(reserved := reserved,
       active := active,
       peakReserved := Max(s.peakReserved, reserved),
       peakActive := Max(s.peakActive, active),
       counters := s.counters.(admitted := s.counters.admitted + 1),
       leases := s.leases[ticket := Lease(bytes, false)],
       grants := s.grants + [ticket])
  }

  /** Admit waiters from the front while the front one fits. */
  function Drain(s: State): State
    decreases |s.queue|
  {
    if s.shuttingDown || s.queue == [] || !CanAdmit(s, s.queue[0].bytes) then s
    else Drain(CreateLease(s.(queue := s.queue[1..]), s.queue[0].ticket, s.queue[0].bytes))
  }

  datatype Reply = Granted | Waiting | QueueFull | ShuttingDown | Aborted

  function AcquireReply(s: State, bytes: Num, aborted: bool): Reply {
    if s.shuttingDown then ShuttingDown
    else if !IsSafe(bytes) || bytes.n < 0 || bytes.n > s.budget then QueueFull
    else if aborted then Aborted
    else if s.queue == [] && CanAdmit(s, bytes.n) then Granted
    else if |s.queue| >= s.queueLimit then QueueFull
    else Waiting
  }

  function Acquire(s: State, bytes: Num, aborted: bool, abortable: bool): State {
    var t := s.(next := s.next + 1);
    match AcquireReply(s, bytes, aborted)
    case Granted => CreateLease(t, s.next, bytes.n)
    case Waiting =>
      Drain(t.(counters := t.counters.(queued := t.counters.queued + 1),
               queue := t.queue + [Entry(s.next, bytes.n, abortable)]))
    case QueueFull => t.(counters := t.counters.(queueFull := t.counters.queueFull + 1))
    case _ => t
  }

  function Without(queue: seq<Entry>, ticket: nat): seq<Entry> {
    if queue == [] then []
    else if queue[0].ticket == ticket && queue[0].abortable then queue[1..]
    else [queue[0]] + Without(queue[1..], ticket)
  }

  function Abort(s: State, ticket: nat): State {
    var queue := Without(s.queue, ticket);
    if |queue| == |s.queue| then s
    else Drain(s.(queue := queue, counters := s.counters.(queueAborted := s.counters.queueAborted + 1)))
  }

  function Reduce(s: State, ticket: nat, bytes: Num): State {
    if ticket !in s.leases then s else
    var lease := s.leases[ticket];
    if lease.released || !IsSafe(bytes) || bytes.n < 0 || bytes.n >= lease.reserved then s
    else Drain(s.(leases := s.leases[ticket := lease.(reserved := bytes.n)],
                  reserved := Max(0, s.reserved - (lease.reserved - bytes.n))))
  }

  function Release(s: State, ticket: nat): State {
    if ticket !in s.leases || s.leases[ticket].released then s else
    var lease := s.leases[ticket];
    Drain(s.(leases := s.leases[ticket := lease.(released := true)],
             reserved := Max(0, s.reserved - lease.reserved),
             active := Max(0, s.active - 1),
             counters := s.counters.(released := s.counters.released + 1)))
  }

  function Shutdown(s: State): State { if s.shuttingDown then s else s.(shuttingDown := true, queue := []) }

  datatype Event =
    | AcquireCall(bytes: Num, aborted: bool, abortable: bool)
    | AbortSignal(ticket: nat)
    | ReduceCall(ticket: nat, bytes: Num)
    | ReleaseCall(ticket: nat)
    | ShutdownCall

  function Step(s: State, e: Event): State {
    match e
    case AcquireCall(bytes, aborted, abortable) => Acquire(s, bytes, aborted, abortable)
    case AbortSignal(ticket) => Abort(s, ticket)
    case ReduceCall(ticket, bytes) => Reduce(s, ticket, bytes)
    case ReleaseCall(ticket) => Release(s, ticket)
    case ShutdownCall => Shutdown(s)
  }

  function Run(s: State, es: seq<Event>): State
    decreases |es|
  {
    if es == [] then s else Run(Step(s, es[0]), es[1..])
  }

  predicate Waits(s: State, ticket: nat) { exists j :: 0 <= j < |s.queue| && s.queue[j].ticket == ticket }

  // ---- what holds between calls ----

  predicate IsLive(leases: map<nat, Lease>, ticket: nat) { ticket in leases && !leases[ticket].released }

  /** Bytes held by live leases with tickets below `n`. */
  function Held(leases: map<nat, Lease>, n: nat): int {
    if n == 0 then 0
    else Held(leases, n - 1) + if IsLive(leases, n - 1) then leases[n - 1].reserved else 0
  }

  function LiveCount(leases: map<nat, Lease>, n: nat): int {
    if n == 0 then 0 else LiveCount(leases, n - 1) + if IsLive(leases, n - 1) then 1 else 0
  }

  /** The counters agree with the leases, and nothing is over budget. */
  ghost predicate Accounted(s: State) {
    && s.reserved == Held(s.leases, s.next) <= s.budget
    && s.active == LiveCount(s.leases, s.next) == s.counters.admitted - s.counters.released
    && (forall t :: t in s.leases ==> t < s.next && s.leases[t].reserved >= 0)
    && s.reserved <= s.peakReserved && s.active <= s.peakActive
  }

  ghost predicate Increasing(ts: seq<nat>) { forall i, j :: 0 <= i < j < |ts| ==> ts[i] < ts[j] }

  ghost predicate QueueIncreasing(q: seq<Entry>) { forall i, j :: 0 <= i < j < |q| ==> q[i].ticket < q[j].ticket }

  /** Arrival order: grants so far, then waiters, then calls to come. */
  ghost predicate Ordered(s: State) {
    && Increasing(s.grants) && QueueIncreasing(s.queue)
    && (forall g :: g in s.grants <==> g in s.leases)
    && (forall i, j :: 0 <= i < |s.grants| && 0 <= j < |s.queue| ==> s.grants[i] < s.queue[j].ticket)
    && (forall i :: 0 <= i < |s.grants| ==> s.grants[i] < s.next)
    && (forall j :: 0 <= j < |s.queue| ==> s.queue[j].ticket < s.next && s.queue[j].bytes <= s.budget)
  }

  /** No lost wake-up: a waiter at the front really does not fit. */
  ghost predicate Settled(s: State) {
    && (s.shuttingDown ==> s.queue == [])
    && (s.queue != [] ==> !CanAdmit(s, s.queue[0].bytes))
  }

  ghost predicate Inv(s: State) { Accounted(s) && Ordered(s) && Settled(s) && |s.queue| <= s.queueLimit }
}
