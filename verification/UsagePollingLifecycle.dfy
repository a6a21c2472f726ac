/** The lifecycle object itself, with the host's timers it schedules and cancels. */
module UsagePolling {
  import opened Units
  import opened PollingLifecycle
  import PollingOutcomes

  class UsagePollingLifecycle {
    var nextGeneration: nat
    var states: map<Text, Slots>
    // the host's timers
    var pending: set<Timer>
    var scheduled: map<Timer, Closure>
    var nextTimer: Timer
    var ran: seq<Timer>

    ghost function Abstract(): State
      reads this
    {
      State(nextGeneration, states, pending, scheduled, nextTimer, ran)
    }

    ghost predicate Valid()
      reads this
    {
      Inv(Abstract())
    }

    constructor ()
      ensures Valid() && Abstract() == INITIAL
    {
      nextGeneration, states, pending, scheduled, nextTimer, ran := 0, map[], {}, map[], 0, [];
      new;
      InitialKeeps();
    }

    method CancelTimer(t: Timer)
      modifies `pending
      ensures pending == old(pending) - {t}
    {
      pending := pending - {t};
    }

    method ScheduleTimer(c: Closure) returns (t: Timer)
      modifies `pending, `scheduled, `nextTimer
      ensures t == old(nextTimer) && nextTimer == t + 1
      ensures pending == old(pending) + {t} && scheduled == old(scheduled)[t := c]
    {
      t := nextTimer;
      nextTimer, pending, scheduled := nextTimer + 1, pending + {t}, scheduled[t := c];
    }

    predicate IsCurrent(lease: Lease)
      reads this
      ensures IsCurrent(lease) == Current(Abstract(), lease)
    {
      lease.account in states && states[lease.account].lease == lease
    }

    method RetireLease(lease: Lease) returns (retired: bool)
      requires Valid()
      modifies this
      ensures Valid()
      ensures Abstract() == PollingLifecycle.RetireLease(old(Abstract()), lease)
      ensures retired == old(IsCurrent(lease))
    {
      hide Inv;
      RetireLeaseKeeps(Abstract(), lease);
      if !IsCurrent(lease) { return false; }
      var state := states[lease.account];
      states := states - {lease.account};
      if state.retry.Some? { CancelTimer(state.retry.value); }
      if state.stagger.Some? { CancelTimer(state.stagger.value); }
      assert pending == old(pending) - TimersOf(state);
      return true;
    }

    method Retire(account: Text)
      requires Valid()
      modifies this
      ensures Valid()
      ensures Abstract() == PollingLifecycle.Retire(old(Abstract()), account)
    {
      if account in states {
        var _ := RetireLease(states[account].lease);
      }
    }

    method Replace(account: Text, createdAt: int) returns (lease: Lease)
      requires Valid()
      modifies this
      ensures Valid()
      ensures Abstract() == PollingLifecycle.Replace(old(Abstract()), account, createdAt)
      ensures lease == NextLease(old(Abstract()), account, createdAt) && IsCurrent(lease)
    {
      hide Inv;
      ReplaceKeeps(Abstract(), account, createdAt);
      if account in states {
        var _ := RetireLease(states[account].lease);
      }
      nextGeneration := nextGeneration + 1;
      lease := Issued(account, nextGeneration, createdAt);
      states := states[account := Slots(lease, None, None)];
    }

    method RetireAll()
      requires Valid()
      modifies this
      ensures Valid()
      ensures Abstract() == PollingLifecycle.RetireAll(old(Abstract()))
    {
      hide SlotsInv, PendingInv, TimersInv, PendingWithout;
      RetireAllKeeps(Abstract());
      ghost var before := Abstract();
      NoneRetired(before);
      var todo := states.Keys;
      while todo != {}
        invariant Valid() && todo <= before.states.Keys && LeasesInv(before)
        invariant states == map a | a in todo :: before.states[a]
        invariant Abstract() == before.(states := states, pending := pending)
        invariant pending == PendingWithout(before, before.states.Keys - todo)
        decreases |todo|
      {
        var account :| account in todo;
        RetiredOne(before, todo, account);
        var _ := RetireLease(states[account].lease);
        todo := todo - {account};
      }
      assert before.states.Keys - {} == before.states.Keys;
    }

    method Schedule(lease: Lease, kind: Kind)
      requires Valid()
      modifies this
      ensures Valid()
      ensures Abstract() == PollingLifecycle.Schedule(old(Abstract()), lease, kind)
    {
      hide Inv;
      ScheduleKeeps(Abstract(), lease, kind);
      if !IsCurrent(lease) { return; }
      var state := states[lease.account];
      var previous := SlotOf(state, kind);
      if previous.Some? { CancelTimer(previous.value); }
      var timer := ScheduleTimer(Closure(lease, kind));
      states := states[lease.account := WithSlot(state, kind, Some(timer))];
      assert pending == old(pending) - TimerSet(previous) + {timer};
    }

    /** The host fires a timer: the scheduled callback checks that it is still awaited. */
    method Fire(timer: Timer)
      requires Valid() && timer in scheduled
      modifies this
      ensures Valid()
      ensures Abstract() == PollingLifecycle.Fire(old(Abstract()), timer)
      ensures ran == old(ran) + if timer in old(pending) then [timer] else []
    {
      hide Inv;
      PollingOutcomes.RanAfter(Abstract(), DoFire(timer));
      FireKeeps(Abstract(), timer);
      pending := pending - {timer};
      var closure := scheduled[timer];
      var lease, kind := closure.lease, closure.kind;
      if !IsCurrent(lease) || SlotOf(states[lease.account], kind) != Some(timer) { return; }
      states := states[lease.account := WithSlot(states[lease.account], kind, None)];
      ran := ran + [timer];
    }
  }

  lemma NoneRetired(s: State)
    ensures PendingWithout(s, s.states.Keys - s.states.Keys) == s.pending
  {}

  lemma RetiredOne(s: State, todo: set<Text>, account: Text)
    requires todo <= s.states.Keys && account in todo
    ensures PendingWithout(s, s.states.Keys - (todo - {account})) ==
      PendingWithout(s, s.states.Keys - todo) - TimersOf(s.states[account])
  {
    hide TimersOf;
    var more, fewer := s.states.Keys - (todo - {account}), s.states.Keys - todo;
    assert more == fewer + {account};
  }
}
