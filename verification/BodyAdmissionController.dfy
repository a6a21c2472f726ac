/** The controller as the object its callers share, updated in place. */
module AdmissionController {
  import opened Units
  import opened Decimal
  import opened A = BodyAdmission
  import opened BodyAdmissionRuns

  class BodyAdmissionController {
    const budgetBytes: nat
    const queueLimit: nat
    var reservedBytes: int
    var activeLeases: int
    var peakReservedBytes: int
    var peakActiveLeases: int
    var shuttingDown: bool
    var queue: seq<Entry>
    var counters: Counters
    var leases: map<nat, Lease>  // what the leases handed out close over
    var arrivals: nat
    ghost var grants: seq<nat>

    ghost function Model(): State
      reads this
    {
      State(budgetBytes, queueLimit, reservedBytes, activeLeases, peakReservedBytes, peakActiveLeases,
            shuttingDown, queue, counters, leases, grants, arrivals)
    }

    ghost predicate Valid()
      reads this
    {
      Inv(Model())
    }

    constructor (budgetOption: Num, queueLimitOption: Num)
      ensures Valid() && Model() == Init(ConfiguredBudget(budgetOption), ConfiguredQueueLimit(queueLimitOption))
    {
      budgetBytes := ConfiguredBudget(budgetOption);
      queueLimit := ConfiguredQueueLimit(queueLimitOption);
      reservedBytes, activeLeases, peakReservedBytes, peakActiveLeases := 0, 0, 0, 0;
      shuttingDown, queue, counters := false, [], Counters(0, 0, 0, 0, 0);
      leases, arrivals, grants := map[], 0, [];
      new;
      InitKeeps(budgetBytes, queueLimit);
    }

    /** Asks for a reservation; the reply says whether the promise is settled, and `ticket` names the call. */
    method Acquire(bytes: Num, aborted: bool, abortable: bool) returns (reply: Reply, ticket: nat)
      requires Valid()
      modifies this
      ensures Valid() && Model() == Step(old(Model()), AcquireCall(bytes, aborted, abortable))
      ensures ticket == old(arrivals) && reply == AcquireReply(old(Model()), bytes, aborted)
    {
      hide Inv, A.Drain, A.CreateLease;
      StepKeeps(Model(), AcquireCall(bytes, aborted, abortable));
      ticket := arrivals;
      arrivals := arrivals + 1;
      if shuttingDown { return ShuttingDown, ticket; }
      if !IsSafe(bytes) || bytes.n < 0 || bytes.n > budgetBytes {
        counters := counters.(queueFull := counters.queueFull + 1);
        return QueueFull, ticket;
      }
      if aborted { return Aborted, ticket; }
      if queue == [] && bytes.n <= budgetBytes - reservedBytes {
        CreateLease(ticket, bytes.n);
        return Granted, ticket;
      }
      if |queue| >= queueLimit {
        counters := counters.(queueFull := counters.queueFull + 1);
        return QueueFull, ticket;
      }
      counters := counters.(queued := counters.queued + 1);
      queue := queue + [Entry(ticket, bytes.n, abortable)];
      Drain();
      return Waiting, ticket;
    }

    /** The abort listener of a waiting request. */
    method OnAbort(ticket: nat)
      requires Valid()
      modifies this
      ensures Valid() && Model() == Step(old(Model()), AbortSignal(ticket))
    {
      hide Inv, A.Drain, Without;
      StepKeeps(Model(), AbortSignal(ticket));
      var index := 0;
      assert queue[0..] == queue && queue[..0] + Without(queue[0..], ticket) == Without(queue, ticket);
      while index < |queue| && !(queue[index].ticket == ticket && queue[index].abortable)
        invariant 0 <= index <= |queue|
        invariant queue[..index] + Without(queue[index..], ticket) == Without(queue, ticket)
        modifies {}
      {
        WithoutStep(queue, index, ticket);
        index := index + 1;
      }
      if index == |queue| {
        WithoutStep(queue, index, ticket);
        return;
      }
      WithoutStep(queue, index, ticket);
      queue := queue[..index] + queue[index + 1..];
      counters := counters.(queueAborted := counters.queueAborted + 1);
      Drain();
    }

    method ReduceTo(ticket: nat, nextBytes: Num)
      requires Valid() && ticket in leases
      modifies this
      ensures Valid() && Model() == Step(old(Model()), ReduceCall(ticket, nextBytes))
    {
      hide Inv, A.Drain;
      StepKeeps(Model(), ReduceCall(ticket, nextBytes));
      var lease := leases[ticket];
      if lease.released || !IsSafe(nextBytes) || nextBytes.n < 0 || nextBytes.n >= lease.reserved { return; }
      var reduction := lease.reserved - nextBytes.n;
      leases := leases[ticket := lease.(reserved := nextBytes.n)];
      reservedBytes := Max(0, reservedBytes - reduction);
      Drain();
    }

    method Release(ticket: nat)
      requires Valid() && ticket in leases
      modifies this
      ensures Valid() && Model() == Step(old(Model()), ReleaseCall(ticket))
    {
      hide Inv, A.Drain;
      StepKeeps(Model(), ReleaseCall(ticket));
      var lease := leases[ticket];
      if lease.released { return; }
      leases := leases[ticket := lease.(released := true)];
      reservedBytes := Max(0, reservedBytes - lease.reserved);
      activeLeases := Max(0, activeLeases - 1);
      counters := counters.(released := counters.released + 1);
      Drain();
    }

    method Shutdown()
      requires Valid()
      modifies this
      ensures Valid() && Model() == Step(old(Model()), ShutdownCall)
    {
      StepKeeps(Model(), ShutdownCall);
      if shuttingDown { return; }
      shuttingDown := true;
      queue := [];
    }

    method CreateLease(ticket: nat, bytes: int)
      modifies this
      ensures Model() == A.CreateLease(old(Model()), ticket, bytes)
    {
      reservedBytes := reservedBytes + bytes;
      activeLeases := activeLeases + 1;
      peakReservedBytes := Max(peakReservedBytes, reservedBytes);
      peakActiveLeases := Max(peakActiveLeases, activeLeases);
      counters := counters.(admitted := counters.admitted + 1);
      leases := leases[ticket := Lease(bytes, false)];
      grants := grants + [ticket];
    }

    method Drain()
      modifies this
      ensures Model() == A.Drain(old(Model()))
    {
      if shuttingDown { return; }
      while queue != [] && queue[0].bytes <= budgetBytes - reservedBytes
        invariant !shuttingDown && A.Drain(Model()) == A.Drain(old(Model()))
        decreases |queue|
      {
        var queued := queue[0];
        queue := queue[1..];
        CreateLease(queued.ticket, queued.bytes);
      }
    }
  }

  lemma WithoutStep(queue: seq<Entry>, index: nat, ticket: nat)
    requires index <= |queue| && queue[..index] + Without(queue[index..], ticket) == Without(queue, ticket)
    ensures index == |queue| ==> Without(queue, ticket) == queue
    ensures index < |queue| ==>
              if queue[index].ticket == ticket && queue[index].abortable
              then Without(queue, ticket) == queue[..index] + queue[index + 1..]
              else queue[..index + 1] + Without(queue[index + 1..], ticket) == Without(queue, ticket)
  {
    if index == |queue| {
      assert queue[..index] + Without([], ticket) == queue;
    } else {
      assert queue[index..][1..] == queue[index + 1..];
      assert queue[..index + 1] == queue[..index] + [queue[index]];
    }
  }
}
