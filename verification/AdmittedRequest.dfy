/** One request under admission: the handler is given a lease, and the wrapper around it gives the lease back. */
module AdmittedRequest {
  import opened Units
  import opened Decimal
  import opened BodyAdmission
  import opened BodyAdmissionRuns
  import opened BodyAdmissionBooks
  import opened BodyReservation

  datatype Request = Request(
    hasBody: bool, forceFull: bool, encoding: Option<Text>, transferEncoding: bool, length: Option<Text>, aborted: bool)

  function AskedBytes(r: Request, budget: nat): nat {
    if r.forceFull then Min(budget, MAX_RESERVATION)
    else ReservationBytes(r.encoding, r.transferEncoding, r.length, budget)
  }

  /** A response without a body, with one that somebody else already reads, or with one to stream. */
  datatype Response = WithoutBody | LockedBody | WithBody

  /**
   Where the request stands. An asked one runs its handler once its ticket is granted; one that is aborted or shut out
   while it waits is dropped.
   */
  datatype Phase =
    | Idle | Bypassed | Refused
    | Asked(ticket: nat) | Dropped(ticket: nat)
    | Streaming(ticket: nat, returned: bool)
    | Ended(ticket: nat)

  /** What can happen: to the request itself, or to the controller through anybody else. */
  datatype Happening =
    | Call(request: Request)
    | HandlerReduces(bytes: Num) | HandlerReleases
    | HandlerThrows | HandlerReturns(response: Response)
    | StreamYields | StreamEnds | StreamFails | StreamCancelled
    | Elsewhere(event: Event)

  /** The controller, the request, and whether the handler has returned the lease on its own. */
  datatype World = World(s: State, phase: Phase, byHandler: bool)

  function Start(s: State): World { World(s, Idle, false) }

  predicate HasTicket(p: Phase) { p.Asked? || p.Dropped? || p.Streaming? || p.Ended? }

  /** Neither granted nor waiting. */
  predicate Gone(s: State, ticket: nat) { ticket !in s.leases && !Waits(s, ticket) }

  predicate HasLease(w: World) { HasTicket(w.phase) && w.phase.ticket in w.s.leases }

  predicate Running(w: World) { w.phase.Asked? && HasLease(w) }

  predicate IsEnd(h: Happening) { h.StreamEnds? || h.StreamFails? || h.StreamCancelled? }

  /** Somebody else has no hold of this lease. */
  predicate Foreign(w: World, e: Event) {
    HasTicket(w.phase) ==>
      !(e.ReleaseCall? && e.ticket == w.phase.ticket) && !(e.ReduceCall? && e.ticket == w.phase.ticket)
  }

  /** The calls this makes on the controller. */
  function Calls(w: World, h: Happening): seq<Event> {
    match h
    case Call(r) =>
      if w.phase.Idle? && r.hasBody then [AcquireCall(Int(AskedBytes(r, w.s.budget)), r.aborted, true)] else []
    case HandlerReduces(bytes) => if HasLease(w) then [ReduceCall(w.phase.ticket, bytes)] else []
    case HandlerReleases => if HasLease(w) then [ReleaseCall(w.phase.ticket)] else []
    case HandlerThrows => if Running(w) then [ReleaseCall(w.phase.ticket)] else []
    case HandlerReturns(response) =>
      if Running(w) && !response.WithBody? then [ReleaseCall(w.phase.ticket)] else []
    case StreamYields => []
    case Elsewhere(e) => if Foreign(w, e) then [e] else []
    case _ => if w.phase.Streaming? && !w.phase.returned then [ReleaseCall(w.phase.ticket)] else []
  }

  function NextPhase(w: World, h: Happening): Phase {
    match h
    case Call(r) =>
      if !w.phase.Idle? then w.phase
      else if !r.hasBody then Bypassed
      else
        var reply := AcquireReply(w.s, Int(AskedBytes(r, w.s.budget)), r.aborted);
        if reply.Granted? || reply.Waiting? then Asked(w.s.next) else Refused
    case HandlerThrows => if Running(w) then Ended(w.phase.ticket) else w.phase
    case HandlerReturns(response) =>
      if !Running(w) then w.phase
      else if response.WithBody? then Streaming(w.phase.ticket, false)
      else Ended(w.phase.ticket)
    case _ => if IsEnd(h) && w.phase.Streaming? then Streaming(w.phase.ticket, true) else w.phase
  }

  /** A request whose ticket is gone has been rejected. */
  function Settle(s: State, p: Phase): Phase { if p.Asked? && Gone(s, p.ticket) then Dropped(p.ticket) else p }

  function Next(w: World, h: Happening): World {
    var s := Run(w.s, Calls(w, h));
    World(s, Settle(s, NextPhase(w, h)), w.byHandler || (h.HandlerReleases? && HasLease(w)))
  }

  function RunWorld(w: World, hs: seq<Happening>): World {
    if hs == [] then w else Next(RunWorld(w, hs[..|hs| - 1]), hs[|hs| - 1])
  }

  // ---- what one call does to the leases ----

  lemma {:induction false} DrainKeepsLeases(s: State, t: nat)
    requires forall j :: 0 <= j < |s.queue| ==> s.queue[j].ticket !in s.leases
    requires QueueIncreasing(s.queue)
    ensures Drain(s).counters.released == s.counters.released
    ensures t in s.leases ==> t in Drain(s).leases && Drain(s).leases[t] == s.leases[t]
    ensures t !in s.leases && t in Drain(s).leases ==> !Drain(s).leases[t].released
    decreases |s.queue|
  {
    if !s.shuttingDown && s.queue != [] && CanAdmit(s, s.queue[0].bytes) {
      DrainKeepsLeases(CreateLease(s.(queue := s.queue[1..]), s.queue[0].ticket, s.queue[0].bytes), t);
    }
  }

  /** Only a release of a live lease is counted, and only it marks that lease. */
  ghost predicate Effect(s: State, e: Event, s': State, t: nat) {
    && s'.counters.released == s.counters.released + (if e.ReleaseCall? && IsLive(s.leases, e.ticket) then 1 else 0)
    && (t in s.leases ==> t in s'.leases && s'.leases[t].released == (s.leases[t].released || e == ReleaseCall(t)))
    && (t !in s.leases && t in s'.leases ==> !s'.leases[t].released)
  }

  lemma NotYetGranted(s: State)
    requires Inv(s)
    ensures s.next !in s.leases
  {
    assert s.next !in s.grants;
  }

  lemma AcquireEffect(s: State, bytes: Num, aborted: bool, abortable: bool, t: nat)
    requires Inv(s)
    ensures Effect(s, AcquireCall(bytes, aborted, abortable), Acquire(s, bytes, aborted, abortable), t)
  {
    hide Drain, Accounted, Settled, Increasing;
    WaitersUngranted(s);
    NotYetGranted(s);
    if AcquireReply(s, bytes, aborted) == Waiting {
      DrainKeepsLeases(s.(next := s.next + 1, counters := s.counters.(queued := s.counters.queued + 1),
                          queue := s.queue + [Entry(s.next, bytes.n, abortable)]), t);
    }
  }

  lemma AbortEffect(s: State, ticket: nat, t: nat)
    requires Inv(s)
    ensures Effect(s, AbortSignal(ticket), Abort(s, ticket), t)
  {
    hide Drain, Without, Accounted, Settled, Increasing;
    WaitersUngranted(s);
    var queue := Without(s.queue, ticket);
    WithoutKeeps(s.queue, ticket);
    forall j | 0 <= j < |queue| ensures queue[j].ticket !in s.leases { assert queue[j] in s.queue; }
    DrainKeepsLeases(s.(queue := queue, counters := s.counters.(queueAborted := s.counters.queueAborted + 1)), t);
  }

  lemma ReduceEffect(s: State, ticket: nat, bytes: Num, t: nat)
    requires Inv(s)
    ensures Effect(s, ReduceCall(ticket, bytes), Reduce(s, ticket, bytes), t)
  {
    hide Drain, Accounted, Settled, Increasing;
    WaitersUngranted(s);
    if IsLive(s.leases, ticket) && IsSafe(bytes) && 0 <= bytes.n < s.leases[ticket].reserved {
      var lease := s.leases[ticket];
      DrainKeepsLeases(s.(leases := s.leases[ticket := lease.(reserved := bytes.n)],
                          reserved := Max(0, s.reserved - (lease.reserved - bytes.n))), t);
    }
  }

  lemma ReleaseEffect(s: State, ticket: nat, t: nat)
    requires Inv(s)
    ensures Effect(s, ReleaseCall(ticket), Release(s, ticket), t)
  {
    hide Drain, Accounted, Settled, Increasing;
    WaitersUngranted(s);
    if IsLive(s.leases, ticket) {
      var lease := s.leases[ticket];
      DrainKeepsLeases(s.(leases := s.leases[ticket := lease.(released := true)],
                          reserved := Max(0, s.reserved - lease.reserved), active := Max(0, s.active - 1),
                          counters := s.counters.(released := s.counters.released + 1)), t);
    }
  }

  lemma StepEffect(s: State, e: Event, t: nat)
    requires Inv(s)
    ensures Effect(s, e, Step(s, e), t)
  {
    hide Inv, Acquire, Abort, Reduce, Release;
    match e {
      case AcquireCall(bytes, aborted, abortable) => AcquireEffect(s, bytes, aborted, abortable, t);
      case AbortSignal(ticket) => AbortEffect(s, ticket, t);
      case ReduceCall(ticket, bytes) => ReduceEffect(s, ticket, bytes, t);
      case ReleaseCall(ticket) => ReleaseEffect(s, ticket, t);
      case ShutdownCall =>
    }
  }

  // ---- what every world keeps ----

  /** The wrapper has given the lease back. */
  predicate Finished(p: Phase) { p.Ended? || (p.Streaming? && p.returned) }

  /** The lease of this request has been given back. */
  predicate Given(w: World) { HasLease(w) && w.s.leases[w.phase.ticket].released }

  /** A lease is given back exactly when the wrapper has finished or the handler returned it. */
  ghost predicate Tracked(w: World) {
    && (HasTicket(w.phase) ==> w.phase.ticket < w.s.next)
    && (w.phase.Streaming? || w.phase.Ended? ==> HasLease(w))
    && (Given(w) <==> Finished(w.phase) || w.byHandler)
    && (w.byHandler ==> HasLease(w))
    && (w.phase.Dropped? ==> Gone(w.s, w.phase.ticket))
    && (w.phase.Asked? ==> !Gone(w.s, w.phase.ticket))
  }

  ghost predicate Kept(w: World) { Inv(w.s) && Tracked(w) }

  /** What one happening does: it gives the lease back only if it had not been, and counts one release for it. */
  ghost predicate Accounts(w: World, h: Happening, w': World) {
    && (Given(w) ==> Given(w'))
    && (!h.Elsewhere? ==>
          w'.s.counters.released == w.s.counters.released + (if !Given(w) && Given(w') then 1 else 0))
    && (h.Elsewhere? ==> Given(w') == Given(w))
  }

  lemma OneCall(s: State, e: Event)
    ensures Run(s, [e]) == Step(s, e)
  {
    hide Step;
    assert [e][1..] == [];
    assert Run(Step(s, e), []) == Step(s, e);
  }

  lemma NoCall(s: State)
    ensures Run(s, []) == s
  {}

  lemma NextGrows(s: State, e: Event)
    ensures Step(s, e).next == s.next + if e.AcquireCall? then 1 else 0
  {
    DrainNext(s);
    match e {
      case AcquireCall(bytes, aborted, abortable) =>
        if AcquireReply(s, bytes, aborted) == Waiting {
          DrainNext(s.(next := s.next + 1, counters := s.counters.(queued := s.counters.queued + 1),
                       queue := s.queue + [Entry(s.next, bytes.n, abortable)]));
        }
      case AbortSignal(ticket) =>
        DrainNext(s.(queue := Without(s.queue, ticket),
                     counters := s.counters.(queueAborted := s.counters.queueAborted + 1)));
      case ReduceCall(ticket, bytes) =>
        if ticket in s.leases && bytes.Int? {
          var lease := s.leases[ticket];
          DrainNext(s.(leases := s.leases[ticket := lease.(reserved := bytes.n)],
                       reserved := Max(0, s.reserved - (lease.reserved - bytes.n))));
        }
      case ReleaseCall(ticket) =>
        if ticket in s.leases {
          var lease := s.leases[ticket];
          DrainNext(s.(leases := s.leases[ticket := lease.(released := true)],
                       reserved := Max(0, s.reserved - lease.reserved), active := Max(0, s.active - 1),
                       counters := s.counters.(released := s.counters.released + 1)));
        }
      case ShutdownCall =>
    }
  }

  lemma {:induction false} DrainNext(s: State)
    ensures Drain(s).next == s.next
    decreases |s.queue|
  {
    if !s.shuttingDown && s.queue != [] && CanAdmit(s, s.queue[0].bytes) {
      DrainNext(CreateLease(s.(queue := s.queue[1..]), s.queue[0].ticket, s.queue[0].bytes));
    }
  }

  // ---- a ticket that is gone ----

  lemma {:induction false} DrainKeepsGone(s: State, t: nat)
    requires Gone(s, t)
    ensures Gone(Drain(s), t)
    decreases |s.queue|
  {
    if !s.shuttingDown && s.queue != [] && CanAdmit(s, s.queue[0].bytes) {
      var head, rest := s.queue[0], s.queue[1..];
      assert head.ticket != t;
      var s' := CreateLease(s.(queue := rest), head.ticket, head.bytes);
      assert forall j :: 0 <= j < |rest| ==> rest[j] == s.queue[j + 1];
      DrainKeepsGone(s', t);
    }
  }

  lemma AcquireKeepsGone(s: State, bytes: Num, aborted: bool, abortable: bool, t: nat)
    requires t < s.next && Gone(s, t)
    ensures Gone(Acquire(s, bytes, aborted, abortable), t)
  {
    hide Drain;
    if AcquireReply(s, bytes, aborted) == Waiting {
      DrainKeepsGone(s.(next := s.next + 1, counters := s.counters.(queued := s.counters.queued + 1),
                        queue := s.queue + [Entry(s.next, bytes.n, abortable)]), t);
    }
  }

  lemma AbortKeepsGone(s: State, ticket: nat, t: nat)
    requires Gone(s, t)
    ensures Gone(Abort(s, ticket), t)
  {
    hide Drain, Without;
    var queue := Without(s.queue, ticket);
    WithoutKeeps(s.queue, ticket);
    forall j | 0 <= j < |queue| ensures queue[j].ticket != t {
      assert queue[j] in s.queue;
      var k :| 0 <= k < |s.queue| && s.queue[k] == queue[j];
      assert s.queue[k].ticket != t;
    }
    DrainKeepsGone(s.(queue := queue, counters := s.counters.(queueAborted := s.counters.queueAborted + 1)), t);
  }

  lemma ReduceKeepsGone(s: State, ticket: nat, bytes: Num, t: nat)
    requires Gone(s, t)
    ensures Gone(Reduce(s, ticket, bytes), t)
  {
    hide Drain;
    if ticket in s.leases && bytes.Int? {
      var lease := s.leases[ticket];
      DrainKeepsGone(s.(leases := s.leases[ticket := lease.(reserved := bytes.n)],
                        reserved := Max(0, s.reserved - (lease.reserved - bytes.n))), t);
    }
  }

  lemma ReleaseKeepsGone(s: State, ticket: nat, t: nat)
    requires Gone(s, t)
    ensures Gone(Release(s, ticket), t)
  {
    hide Drain;
    if ticket in s.leases {
      var lease := s.leases[ticket];
      DrainKeepsGone(s.(leases := s.leases[ticket := lease.(released := true)],
                        reserved := Max(0, s.reserved - lease.reserved), active := Max(0, s.active - 1),
                        counters := s.counters.(released := s.counters.released + 1)), t);
    }
  }

  /** A ticket that is neither granted nor waiting never comes back. */
  lemma StepKeepsGone(s: State, e: Event, t: nat)
    requires t < s.next && Gone(s, t)
    ensures Gone(Step(s, e), t)
  {
    hide Acquire, Abort, Reduce, Release;
    match e {
      case AcquireCall(bytes, aborted, abortable) => AcquireKeepsGone(s, bytes, aborted, abortable, t);
      case AbortSignal(ticket) => AbortKeepsGone(s, ticket, t);
      case ReduceCall(ticket, bytes) => ReduceKeepsGone(s, ticket, bytes, t);
      case ReleaseCall(ticket) => ReleaseKeepsGone(s, ticket, t);
      case ShutdownCall =>
    }
  }

  /** Every happening keeps the request tracked and accounts for its lease. */
  lemma NextKeeps(w: World, h: Happening)
    requires Kept(w)
    ensures Kept(Next(w, h)) && Accounts(w, h, Next(w, h))
  {
    hide Step, Inv, AskedBytes, Gone;
    NoCall(w.s);
    GoneHasNoLease(w.s, w.phase);
    GoneHasNoLease(Run(w.s, Calls(w, h)), NextPhase(w, h));
    var calls := Calls(w, h);
    if calls != [] {
      var e := calls[0];
      assert calls == [e];
      OneCall(w.s, e);
      StepKeeps(w.s, e);
      NextGrows(w.s, e);
      if HasTicket(w.phase) {
        StepEffect(w.s, e, w.phase.ticket);
        if Gone(w.s, w.phase.ticket) { StepKeepsGone(w.s, e, w.phase.ticket); }
      } else {
        StepEffect(w.s, e, w.s.next);
        NotYetGranted(w.s);
      }
    }
  }

  /**
   A handler that throws or returns nothing to stream, and a stream that ends in any way, bring the request to its
   end.
   */
  lemma TerminalPathsFinish(w: World, h: Happening)
    requires Kept(w)
    requires (Running(w) && (h.HandlerThrows? || (h.HandlerReturns? && !h.response.WithBody?)))
          || (w.phase.Streaming? && IsEnd(h))
    ensures Finished(Next(w, h).phase) && Given(Next(w, h))
  {
    hide Inv, Run;
    NextKeeps(w, h);
  }

  lemma GoneHasNoLease(s: State, p: Phase)
    ensures HasTicket(p) && Gone(s, p.ticket) ==> p.ticket !in s.leases
  {}

  /**
   A request with a body makes one acquire call, for the worst case if forced and for its computed reservation
   otherwise; it then waits or runs with exactly those bytes reserved, or is refused. One without a body calls nothing.
   */
  lemma RequestAsks(w: World, r: Request)
    requires Kept(w) && w.phase.Idle?
    ensures var w' := Next(w, Call(r));
      var bytes := if r.forceFull then Min(w.s.budget, 0x1000_0000)
                   else ReservationBytes(r.encoding, r.transferEncoding, r.length, w.s.budget);
      if !r.hasBody then w'.s == w.s && w'.phase.Bypassed?
      else
        && w'.s == Step(w.s, AcquireCall(Int(bytes), r.aborted, true))
        && w'.phase == (if w.s.next in w'.s.leases || Waits(w'.s, w.s.next) then Asked(w.s.next) else Refused)
        && (w.s.next in w'.s.leases ==> w'.s.leases[w.s.next] == Lease(bytes, false))
  {
    hide Inv, Step, ReservationBytes;
    NoCall(w.s);
    if r.hasBody {
      var e := Calls(w, Call(r))[0];
      OneCall(w.s, e);
      AcquireMeans(w.s, e.bytes, e.aborted, e.abortable);
      StepBooks(w.s, e);
      NotYetGranted(w.s);
      StepEffect(w.s, e, w.s.next);
      NotWaitingYet(w.s);
    }
  }

  lemma NotWaitingYet(s: State)
    requires Inv(s)
    ensures forall b :: !Queued(s.queue, s.next, b)
  {}

  /** What neither returns the lease nor ends the response. */
  predicate Leaves(h: Happening) {
    !h.HandlerReleases? && !h.HandlerThrows? && !(h.HandlerReturns? && !h.response.WithBody?) && !IsEnd(h)
  }

  predicate Holding(w: World) {
    (w.phase.Asked? || (w.phase.Streaming? && !w.phase.returned)) && HasLease(w) && !w.byHandler
  }

  /**
   The lease is held, through the handler and the whole stream, until one of the ends comes or the handler returns it.
   */
  lemma {:induction false} HeldUntilTheEnd(w: World, hs: seq<Happening>)
    requires Kept(w) && Holding(w) && forall k :: 0 <= k < |hs| ==> Leaves(hs[k])
    ensures var w' := RunWorld(w, hs); Kept(w') && Holding(w') && w'.phase.ticket == w.phase.ticket
    ensures IsLive(RunWorld(w, hs).s.leases, w.phase.ticket)
    decreases |hs|
  {
    hide Next, Inv;
    if hs != [] {
      HeldUntilTheEnd(w, hs[..|hs| - 1]);
      HoldsOn(RunWorld(w, hs[..|hs| - 1]), hs[|hs| - 1]);
    }
  }

  lemma HoldsOn(w: World, h: Happening)
    requires Kept(w) && Holding(w) && Leaves(h)
    ensures Kept(Next(w, h)) && Holding(Next(w, h)) && Next(w, h).phase.ticket == w.phase.ticket
  {
    hide Inv, Step, AskedBytes, Waits;
    NextKeeps(w, h);
    NoCall(w.s);
    var calls := Calls(w, h);
    if calls != [] {
      assert calls == [calls[0]];
      OneCall(w.s, calls[0]);
      StepEffect(w.s, calls[0], w.phase.ticket);
    }
  }

  /** A handler that returns a body to stream passes the lease on to the stream. */
  lemma StreamTakesOver(w: World)
    requires Kept(w) && Running(w)
    ensures Next(w, HandlerReturns(WithBody)).phase == Streaming(w.phase.ticket, false)
    ensures Next(w, HandlerReturns(WithBody)).s == w.s
  {
    hide Inv;
    NoCall(w.s);
  }

  // ---- whole runs ----

  /** How many happenings gave the lease back. */
  function Returns(w: World, hs: seq<Happening>): nat {
    if hs == [] then 0
    else
      var front := RunWorld(w, hs[..|hs| - 1]);
      Returns(w, hs[..|hs| - 1]) + if !Given(front) && Given(Next(front, hs[|hs| - 1])) then 1 else 0
  }

  /** By how much this request has moved the count of released leases. */
  function Counted(w: World, hs: seq<Happening>): int {
    if hs == [] then 0
    else
      var front, h := RunWorld(w, hs[..|hs| - 1]), hs[|hs| - 1];
      var before := Counted(w, hs[..|hs| - 1]);
      if h.Elsewhere? then before else before + Next(front, h).s.counters.released - front.s.counters.released
  }

  lemma {:induction false} RunAccounts(s: State, hs: seq<Happening>)
    requires Inv(s)
    ensures var w := RunWorld(Start(s), hs);
      Kept(w) && Returns(Start(s), hs) == Counted(Start(s), hs) == if Given(w) then 1 else 0
    decreases |hs|
  {
    hide Next, Inv;
    if hs != [] {
      var front := RunWorld(Start(s), hs[..|hs| - 1]);
      RunAccounts(s, hs[..|hs| - 1]);
      NextKeeps(front, hs[|hs| - 1]);
    }
  }

  /**
   Whatever the handler does with its lease and whatever happens on the stream and elsewhere, a request that has come to
   its end has given its lease back in exactly one step, counted once. As long as it has not, and the handler did not
   return the lease itself, nothing was given back. A request that was refused or had no body never has a lease.
   */
  lemma ReleasedExactlyOnce(s: State, hs: seq<Happening>)
    requires Inv(s)
    ensures var w := RunWorld(Start(s), hs);
      && (Finished(w.phase) || w.byHandler ==>
            Given(w) && Returns(Start(s), hs) == 1 && Counted(Start(s), hs) == 1)
      && (!Finished(w.phase) && !w.byHandler ==>
            !Given(w) && Returns(Start(s), hs) == 0 && Counted(Start(s), hs) == 0)
      && (w.phase.Bypassed? || w.phase.Refused? || w.phase.Dropped? ==>
            !Finished(w.phase) && !w.byHandler && !HasLease(w))
  {
    hide Inv;
    RunAccounts(s, hs);
  }

  /** Refused and dropped requests, and those without a body, stay so and never get a lease, in every later run. */
  lemma {:induction false} NeverAdmitted(s: State, hs: seq<Happening>, more: seq<Happening>)
    requires Inv(s)
    requires var p := RunWorld(Start(s), hs).phase; p.Bypassed? || p.Refused? || p.Dropped?
    ensures var w, w' := RunWorld(Start(s), hs), RunWorld(Start(s), hs + more); w'.phase == w.phase && !HasLease(w')
    decreases |more|
  {
    hide Inv, Next;
    RunAccounts(s, hs);
    if more == [] {
      assert hs + more == hs;
      NoLeaseOutside(RunWorld(Start(s), hs));
    } else {
      var n := |more| - 1;
      assert (hs + more)[..|hs| + n] == hs + more[..n];
      NeverAdmitted(s, hs, more[..n]);
      RunAccounts(s, hs + more);
      OutsideStays(RunWorld(Start(s), hs + more[..n]), more[n]);
      NoLeaseOutside(RunWorld(Start(s), hs + more));
    }
  }

  predicate Outside(p: Phase) { p.Bypassed? || p.Refused? || p.Dropped? }

  lemma NoLeaseOutside(w: World)
    requires Kept(w) && Outside(w.phase)
    ensures !HasLease(w)
  {
    hide Inv;
  }

  lemma OutsideStays(w: World, h: Happening)
    requires Outside(w.phase) && !HasLease(w)
    ensures Next(w, h).phase == w.phase
  {
    hide Run, AskedBytes;
  }

  /** An abort while the request waits drops it, and so does a shutdown. */
  lemma WaitingIsDropped(w: World, e: Event)
    requires Kept(w) && w.phase.Asked? && Waits(w.s, w.phase.ticket)
    requires e == ShutdownCall || (e == AbortSignal(w.phase.ticket) && Abortable(w.s, w.phase.ticket))
    ensures Next(w, Elsewhere(e)).phase == Dropped(w.phase.ticket)
  {
    hide Step;
    OneCall(w.s, e);
    WaitersUngranted(w.s);
    if e == ShutdownCall { ShutdownDrops(w.s, w.phase.ticket); } else { AbortDrops(w.s, w.phase.ticket); }
  }

  ghost predicate Abortable(s: State, ticket: nat) {
    forall j :: 0 <= j < |s.queue| && s.queue[j].ticket == ticket ==> s.queue[j].abortable
  }

  lemma ShutdownDrops(s: State, t: nat)
    requires Inv(s) && Waits(s, t)
    ensures Gone(Step(s, ShutdownCall), t)
  {
    WaitersUngranted(s);
  }

  lemma {:induction false} WithoutDrops(q: seq<Entry>, t: nat)
    requires QueueIncreasing(q) && forall j :: 0 <= j < |q| && q[j].ticket == t ==> q[j].abortable
    ensures forall j :: 0 <= j < |Without(q, t)| ==> Without(q, t)[j].ticket != t
    ensures (exists j :: 0 <= j < |q| && q[j].ticket == t) ==> |Without(q, t)| < |q|
    decreases |q|
  {
    if q != [] {
      assert forall j :: 0 <= j < |q[1..]| ==> q[1..][j] == q[j + 1];
      if q[0].ticket != t { WithoutDrops(q[1..], t); }
    }
  }

  lemma AbortDrops(s: State, t: nat)
    requires Inv(s) && Waits(s, t) && Abortable(s, t)
    ensures Gone(Step(s, AbortSignal(t)), t)
  {
    hide Drain, Without, Accounted, Settled;
    WaitersUngranted(s);
    WithoutDrops(s.queue, t);
    DrainKeepsGone(s.(queue := Without(s.queue, t),
                      counters := s.counters.(queueAborted := s.counters.queueAborted + 1)), t);
  }
}
