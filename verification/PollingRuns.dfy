/** What holds in every interleaving of polling calls and timer firings. */
module PollingRuns {
  import opened Units
  import opened Sorting
  import opened PollingLifecycle

  /** A callback runs only when its timer fires, has not run before, and its lease is current. */
  lemma RunsOnlyWhileCurrent(s: State, e: Event)
    requires Inv(s)
    ensures Step(s, e).ran == s.ran ||
      (&& e.DoFire? && Step(s, e).ran == s.ran + [e.timer] && e.timer !in s.ran
       && e.timer in s.pending && e.timer in s.scheduled && Current(s, s.scheduled[e.timer].lease))
  {
    if e.DoFire? && Awaited(s, e.timer) {
      var c := s.scheduled[e.timer];
      SlotHolds(s, c.lease.account, c.kind);
    }
  }

  /** In every run no callback runs twice. */
  lemma AtMostOnce(es: seq<Event>)
    ensures Distinct(Run(INITIAL, es).ran)
  {
    InitialKeeps();
    RunKeeps(INITIAL, es);
  }

  /** A lease that is not current changes nothing: neither its calls nor its timers. */
  lemma StaleLeaseIsInert(s: State, l: Lease, k: Kind, t: Timer)
    requires Inv(s) && !Current(s, l)
    ensures RetireLease(s, l) == s && Schedule(s, l, k) == s
    ensures t in s.scheduled && s.scheduled[t].lease == l ==> Fire(s, t) == s
  {
    assert t in s.pending ==> Awaited(s, t);
  }

  /** A current lease touches the state of its own account only. */
  lemma OtherAccountsAreUntouched(s: State, l: Lease, k: Kind, t: Timer, createdAt: int, b: Text)
    requires Inv(s) && b in s.states && b != l.account
    ensures b in RetireLease(s, l).states && RetireLease(s, l).states[b] == s.states[b]
    ensures b in Schedule(s, l, k).states && Schedule(s, l, k).states[b] == s.states[b]
    ensures b in Replace(s, l.account, createdAt).states && Replace(s, l.account, createdAt).states[b] == s.states[b]
    ensures t in s.scheduled && s.scheduled[t].lease == l ==>
      b in Fire(s, t).states && Fire(s, t).states[b] == s.states[b]
  {}

  ghost predicate InSlot(s: State, t: Timer, a: Text, k: Kind) { a in s.states && SlotOf(s.states[a], k) == Some(t) }

  /** Every pending timer sits in exactly one slot, and every timer in a slot is pending. */
  lemma OneSlotEach(s: State, t: Timer)
    requires Inv(s)
    ensures t in s.pending <==> exists a, k :: InSlot(s, t, a, k)
    ensures forall a, k, b, j :: InSlot(s, t, a, k) && InSlot(s, t, b, j) ==> a == b && k == j
  {
    if t in s.pending {
      assert Awaited(s, t);
      assert InSlot(s, t, s.scheduled[t].lease.account, s.scheduled[t].kind);
    }
    forall a, k | InSlot(s, t, a, k)
      ensures t in s.pending && t in s.scheduled && a == s.scheduled[t].lease.account && k == s.scheduled[t].kind
    {
      SlotHolds(s, a, k);
    }
  }

  /** Retiring everything leaves no lease and no pending timer. */
  lemma RetireAllLeavesNone(s: State)
    requires Inv(s)
    ensures RetireAll(s).states == map[] && RetireAll(s).pending == {} && RetireAll(s).ran == s.ran
  {
    RetireAllKeeps(s);
  }

  // ---- later states ----

  lemma StepGrows(s: State, e: Event)
    ensures s.nextGeneration <= Step(s, e).nextGeneration && s.nextTimer <= Step(s, e).nextTimer
  {}

  lemma {:induction false} RunGrows(s: State, es: seq<Event>)
    ensures s.nextGeneration <= Run(s, es).nextGeneration && s.nextTimer <= Run(s, es).nextTimer
    decreases |es|
  {
    hide Step;
    if es != [] {
      RunGrows(s, es[..|es| - 1]);
      StepGrows(Run(s, es[..|es| - 1]), es[|es| - 1]);
    }
  }

  lemma {:induction false} RunSplits(s: State, a: seq<Event>, b: seq<Event>)
    ensures Run(s, a + b) == Run(Run(s, a), b)
    decreases |b|
  {
    hide Step;
    if b == [] {
      assert a + b == a;
    } else {
      var n := |b| - 1;
      assert (a + b)[..|a| + n] == a + b[..n];
      RunSplits(s, a, b[..n]);
    }
  }

  /** The generation handed out by a replacement is above that of every lease handed out before. */
  lemma GenerationsIncrease(s: State, es: seq<Event>, i: nat, j: nat)
    requires i < j < |es| && es[i].DoReplace? && es[j].DoReplace?
    ensures NextLease(Run(s, es[..i]), es[i].account, es[i].createdAt).generation
          < NextLease(Run(s, es[..j]), es[j].account, es[j].createdAt).generation
  {
    var before := Run(s, es[..i]);
    assert es[..i + 1][..i] == es[..i];
    assert Run(s, es[..i + 1]) == Step(before, es[i]);
    assert es[..j] == es[..i + 1] + es[i + 1..j];
    RunSplits(s, es[..i + 1], es[i + 1..j]);
    RunGrows(Run(s, es[..i + 1]), es[i + 1..j]);
  }

  lemma StaysStale(s: State, e: Event, l: Lease)
    requires Inv(s) && !Current(s, l) && (l.Issued? ==> l.generation <= s.nextGeneration)
    ensures !Current(Step(s, e), l)
  {}

  /** A lease that has been replaced or retired is never current again, and none of its callbacks runs any more. */
  lemma {:induction false} NeverCurrentAgain(s: State, es: seq<Event>, l: Lease)
    requires Inv(s) && !Current(s, l) && (l.Issued? ==> l.generation <= s.nextGeneration)
    ensures !Current(Run(s, es), l)
    ensures s.ran <= Run(s, es).ran
    ensures forall i :: |s.ran| <= i < |Run(s, es).ran| ==>
      Run(s, es).ran[i] in Run(s, es).scheduled && Run(s, es).scheduled[Run(s, es).ran[i]].lease != l
    decreases |es|
  {
    hide Step, Current;
    if es != [] {
      var before, e := Run(s, es[..|es| - 1]), es[|es| - 1];
      NeverCurrentAgain(s, es[..|es| - 1], l);
      RunKeeps(s, es[..|es| - 1]);
      RunGrows(s, es[..|es| - 1]);
      StaysStale(before, e, l);
      RunsOnlyWhileCurrent(before, e);
      ClosuresStay(before, e);
    }
  }

  /** What a callback has captured never changes. */
  lemma ClosuresStay(s: State, e: Event)
    requires Inv(s)
    ensures forall t :: t in s.scheduled ==> t in Step(s, e).scheduled && Step(s, e).scheduled[t] == s.scheduled[t]
  {}

  lemma StaysCancelled(s: State, e: Event, t: Timer)
    requires Inv(s) && t < s.nextTimer && t !in s.pending
    ensures t !in Step(s, e).pending && t < Step(s, e).nextTimer
  {}

  /** A timer that was cancelled never runs its callback, however late and however often it fires. */
  lemma {:induction false} CancelledNeverRuns(s: State, es: seq<Event>, t: Timer)
    requires Inv(s) && t < s.nextTimer && t !in s.pending && t !in s.ran
    ensures t !in Run(s, es).ran && t !in Run(s, es).pending && t < Run(s, es).nextTimer
    decreases |es|
  {
    hide Step;
    if es != [] {
      var before, e := Run(s, es[..|es| - 1]), es[|es| - 1];
      CancelledNeverRuns(s, es[..|es| - 1], t);
      RunKeeps(s, es[..|es| - 1]);
      StaysCancelled(before, e, t);
      RunsOnlyWhileCurrent(before, e);
    }
  }
}
