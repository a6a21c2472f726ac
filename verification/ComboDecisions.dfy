/** What every active resolution guarantees: each slot decided once, members and decisions in step. */
module ComboDecisions {
  import opened Units
  import opened Sorting
  import opened Seqs
  import opened ModelAliases
  import opened ComboMembership

  // ---- projections ----

  function SlotIdOf(d: Decision): seq<string> { if d.slotId.Some? then [d.slotId.value] else [] }
  function SlotIds(ds: seq<Decision>): seq<string> { FlatMap(SlotIdOf, ds) }

  function ManagedAccountOf(d: Decision): seq<string> { if d.slotId.None? then [d.accountId] else [] }
  function ManagedAccounts(ds: seq<Decision>): seq<string> { FlatMap(ManagedAccountOf, ds) }

  function IncludedOf(d: Decision): seq<Decision> { if d.included then [d] else [] }
  function Included(ds: seq<Decision>): seq<Decision> { FlatMap(IncludedOf, ds) }

  function AsDecisions(ms: seq<Member>): seq<Decision> { FlatMap((m: Member) => [ToDecision(m)], ms) }

  function ComboSlotId(comboId: string, slot: Slot): seq<string> { if slot.comboId == comboId then [slot.id] else [] }
  function ComboSlotIds(comboId: string, slots: seq<Slot>): seq<string> {
    FlatMap((slot: Slot) => ComboSlotId(comboId, slot), slots)
  }

  // ---- manual candidates ----

  /** A candidate is about its slot, whether it is rejected or not. */
  ghost predicate CandidateOk(c: Candidate) {
    && c.member.slotId.Some? && c.member.source == Manual
    && (c.rejected.Some? ==> !c.rejected.value.included && c.rejected.value.slotId == c.member.slotId)
  }

  function CandidateSlot(c: Candidate): seq<string> { if c.member.slotId.Some? then [c.member.slotId.value] else [] }

  ghost predicate AllOk(cs: seq<Candidate>) { forall k :: 0 <= k < |cs| ==> CandidateOk(cs[k]) }

  lemma CandidatesAreOk(q: Query)
    ensures AllOk(Candidates(q)) && multiset(Candidates(q)) == multiset(Unsorted(q))
  {
    hide Sort, CreateManual;
    SortPermutes(Unsorted(q), ByCandidate(q.host.rank));
    MembersByMultiset(Candidates(q), Unsorted(q));
    forall k | 0 <= k < |Candidates(q)| ensures CandidateOk(Candidates(q)[k]) {
      var c := Candidates(q)[k];
      assert c in Unsorted(q);
      FlatMapMember((slot: Slot) => EnabledSlot(q, slot), q.snap.slots, c);
      var i :| 0 <= i < |q.snap.slots| && c in EnabledSlot(q, q.snap.slots[i]);
      CreatedOk(q, q.snap.slots[i]);
    }
  }

  lemma CreatedOk(q: Query, slot: Slot)
    ensures CandidateOk(CreateManual(q, slot)) && CreateManual(q, slot).member.slotId == Some(slot.id)
  {}

  /** Each candidate leaves exactly one decision, in order; the included ones are the members. */
  lemma {:induction false} ManualPassDecides(comboId: string, cs: seq<Candidate>)
    requires AllOk(cs)
    ensures var p := ManualPass(comboId, cs);
            && SlotIds(p.decisions) == FlatMap(CandidateSlot, cs) && ManagedAccounts(p.decisions) == []
            && Included(p.decisions) == AsDecisions(p.members)
            && (forall k :: 0 <= k < |p.members| ==> p.members[k].source == Manual)
    decreases |cs|
  {
    hide Taken;
    if cs != [] {
      var n := |cs| - 1;
      ManualPassDecides(comboId, cs[..n]);
      var before, after := ManualPass(comboId, cs[..n]), ManualPass(comboId, cs);
      assert CandidateOk(cs[n]);
      var d := after.decisions[|after.decisions| - 1];
      assert after.decisions == before.decisions + [d];
      FlatMapLast(SlotIdOf, before.decisions, d);
      FlatMapLast(ManagedAccountOf, before.decisions, d);
      FlatMapLast(IncludedOf, before.decisions, d);
      if |after.members| > |before.members| {
        FlatMapLast((m: Member) => [ToDecision(m)], before.members, cs[n].member);
      }
    }
  }

  // ---- every slot of the combo is decided exactly once ----

  lemma {:induction false} EnabledAndDisabled(q: Query, slots: seq<Slot>)
    ensures multiset(FlatMap(CandidateSlot, FlatMap((slot: Slot) => EnabledSlot(q, slot), slots))) +
            multiset(SlotIds(FlatMap((slot: Slot) => DisabledSlot(q.comboId, slot), slots))) ==
            multiset(ComboSlotIds(q.comboId, slots))
    decreases |slots|
  {
    hide CreateManual;
    if slots != [] {
      var n := |slots| - 1;
      var f, g := (slot: Slot) => EnabledSlot(q, slot), (slot: Slot) => DisabledSlot(q.comboId, slot);
      EnabledAndDisabled(q, slots[..n]);
      CreatedOk(q, slots[n]);
      FlatMapAppend(CandidateSlot, FlatMap(f, slots[..n]), f(slots[n]));
      FlatMapAppend(SlotIdOf, FlatMap(g, slots[..n]), g(slots[n]));
      OneSlot(q, slots[n]);
    }
  }

  lemma OneSlot(q: Query, slot: Slot)
    ensures FlatMap(CandidateSlot, EnabledSlot(q, slot)) + SlotIds(DisabledSlot(q.comboId, slot)) ==
      ComboSlotId(q.comboId, slot)
  {
    CreatedOk(q, slot);
    FlatMapOne(CandidateSlot, CreateManual(q, slot));
    var d := Rejection(q.comboId, slot.accountId, "disabled", None, None, Some(slot.id), None);
    FlatMapOne(SlotIdOf, d);
  }

  /** Managed decisions belong to no slot, and to one account each. */
  lemma {:induction false} ManagedDecide(q: Query, ids: set<string>, model: string, accounts: seq<Account>)
    ensures var ds := ManagedDecisions(q, ids, model, accounts);
            && SlotIds(ds) == []
            && Included(ds) == AsDecisions(ManagedMembers(q, ids, model, accounts))
            && forall id :: multiset(ManagedAccounts(ds))[id] <= multiset(AccountIds(accounts))[id]
    decreases |accounts|
  {
    if accounts != [] {
      var n := |accounts| - 1;
      var a := accounts[n];
      ManagedDecide(q, ids, model, accounts[..n]);
      var o := Outcomes(q, ids, model, a);
      OneOutcome(q, ids, model, a);
      var before := ManagedDecisions(q, ids, model, accounts[..n]);
      FlatMapAppend(SlotIdOf, before, OutcomeDecisions(o));
      FlatMapAppend(IncludedOf, before, OutcomeDecisions(o));
      FlatMapAppend(ManagedAccountOf, before, OutcomeDecisions(o));
      FlatMapAppend((m: Member) => [ToDecision(m)], ManagedMembers(q, ids, model, accounts[..n]), OutcomeMembers(o));
      assert AccountIds(accounts) == AccountIds(accounts[..n]) + [a.id];
    }
  }

  function AccountIds(accounts: seq<Account>): seq<string> { FlatMap((a: Account) => [a.id], accounts) }

  lemma OneOutcome(q: Query, ids: set<string>, model: string, a: Account)
    ensures var o := Outcomes(q, ids, model, a);
            && SlotIds(OutcomeDecisions(o)) == []
            && Included(OutcomeDecisions(o)) == AsDecisions(OutcomeMembers(o))
            && (ManagedAccounts(OutcomeDecisions(o)) == [a.id] || ManagedAccounts(OutcomeDecisions(o)) == [])
            && (o.Admitted? ==> o.m.accountId == a.id && o.m.source == Managed && o.m.logicalModel == model
                                && a.id !in ids && !IsExcluded(q, a.id))
  {
    hide MatchingRules, IsExcluded;
    var o := Outcomes(q, ids, model, a);
    match o {
      case NoRule =>
      case Refused(d) =>
        FlatMapOne(SlotIdOf, d);
        FlatMapOne(IncludedOf, d);
        FlatMapOne(ManagedAccountOf, d);
      case Admitted(m) =>
        FlatMapOne(SlotIdOf, ToDecision(m));
        FlatMapOne(IncludedOf, ToDecision(m));
        FlatMapOne(ManagedAccountOf, ToDecision(m));
        FlatMapOne((x: Member) => [ToDecision(x)], m);
    }
  }

  lemma {:induction false} DisabledDecide(comboId: string, slots: seq<Slot>)
    ensures var ds := FlatMap((slot: Slot) => DisabledSlot(comboId, slot), slots);
            ManagedAccounts(ds) == [] && Included(ds) == []
    decreases |slots|
  {
    if slots != [] {
      var n := |slots| - 1;
      var g := (slot: Slot) => DisabledSlot(comboId, slot);
      DisabledDecide(comboId, slots[..n]);
      FlatMapAppend(ManagedAccountOf, FlatMap(g, slots[..n]), g(slots[n]));
      FlatMapAppend(IncludedOf, FlatMap(g, slots[..n]), g(slots[n]));
      var d := Rejection(comboId, slots[n].accountId, "disabled", None, None, Some(slots[n].id), None);
      FlatMapOne(ManagedAccountOf, d);
      FlatMapOne(IncludedOf, d);
    }
  }

  // ---- the whole resolution ----

  lemma ManagedDecideSorted(q: Query, ids: set<string>, model: string)
    ensures var ds := ManagedDecisions(q, ids, model, Sort(q.accounts, ByAccount(q.host.rank)));
            forall id :: multiset(ManagedAccounts(ds))[id] <= multiset(AccountIds(q.accounts))[id]
  {
    hide Sort;
    var sorted := Sort(q.accounts, ByAccount(q.host.rank));
    SortPermutes(q.accounts, ByAccount(q.host.rank));
    FlatMapPermutes((a: Account) => [a.id], sorted, q.accounts);
    ManagedDecide(q, ids, model, sorted);
  }

  lemma ProjectionsAppend(a: seq<Decision>, b: seq<Decision>)
    ensures SlotIds(a + b) == SlotIds(a) + SlotIds(b)
    ensures Included(a + b) == Included(a) + Included(b)
    ensures ManagedAccounts(a + b) == ManagedAccounts(a) + ManagedAccounts(b)
  {
    FlatMapAppend(SlotIdOf, a, b);
    FlatMapAppend(IncludedOf, a, b);
    FlatMapAppend(ManagedAccountOf, a, b);
  }

  /** What the slots alone contribute. */
  lemma SlotsDecide(q: Query)
    ensures var manual := ManualPass(q.comboId, Candidates(q));
            var ds := manual.decisions + DisabledDecisions(q);
            && multiset(SlotIds(ds)) == multiset(ComboSlotIds(q.comboId, q.snap.slots))
            && Included(ds) == AsDecisions(manual.members) && ManagedAccounts(ds) == []
  {
    hide Sort, ManualPass, EnabledSlot, SlotIds, Included, ManagedAccounts, AsDecisions, ComboSlotIds;
    var cs := Candidates(q);
    CandidatesAreOk(q);
    ManualPassDecides(q.comboId, cs);
    DisabledDecide(q.comboId, q.snap.slots);
    EnabledAndDisabled(q, q.snap.slots);
    FlatMapPermutes(CandidateSlot, cs, Unsorted(q));
    ProjectionsAppend(ManualPass(q.comboId, cs).decisions, DisabledDecisions(q));
  }

  lemma CollectedDecides(q: Query)
    ensures var p := Collected(q);
            && multiset(SlotIds(p.decisions)) == multiset(ComboSlotIds(q.comboId, q.snap.slots))
            && Included(p.decisions) == AsDecisions(p.members)
            && forall id :: multiset(ManagedAccounts(p.decisions))[id] <= multiset(AccountIds(q.accounts))[id]
  {
    hide Sort, ManualPass, Candidates, DisabledDecisions, ManagedMembers, ManagedDecisions, FlatMap;
    var manual := ManualPass(q.comboId, Candidates(q));
    SlotsDecide(q);
    if q.snap.assignment.mode == ManagedMode && ManagedModel(q).Some? {
      var ids, model := ManualIds(manual.members), ManagedModel(q).value;
      var sorted := Sort(q.accounts, ByAccount(q.host.rank));
      ManagedDecide(q, ids, model, sorted);
      ManagedDecideSorted(q, ids, model);
      ProjectionsAppend(manual.decisions + DisabledDecisions(q), ManagedDecisions(q, ids, model, sorted));
      FlatMapAppend((m: Member) => [ToDecision(m)], manual.members, ManagedMembers(q, ids, model, sorted));
    }
  }

  lemma SortedAlike(q: Query)
    ensures var p, r := Collected(q), ActiveMembership(q);
            multiset(r.members) == multiset(p.members) && multiset(r.decisions) == multiset(p.decisions)
  {
    hide Collected, Sort;
    SortPermutes(Collected(q).members, ByMember(q.host.rank));
    SortPermutes(Collected(q).decisions, ByDecision(q.host.rank));
  }

  /**
   In every active resolution each slot of the combo has exactly one decision, the included decisions are
   exactly those of the members, and no account has two managed decisions.
   */
  lemma EveryoneIsDecidedOnce(q: Query)
    requires Distinct(AccountIds(q.accounts))
    ensures var r := ActiveMembership(q);
            && multiset(SlotIds(r.decisions)) == multiset(ComboSlotIds(q.comboId, q.snap.slots))
            && multiset(Included(r.decisions)) == multiset(AsDecisions(r.members))
            && Distinct(ManagedAccounts(r.decisions))
            && forall id :: id in ManagedAccounts(r.decisions) ==> id in AccountIds(q.accounts)
  {
    hide Collected, ActiveMembership;
    var p, r := Collected(q), ActiveMembership(q);
    CollectedDecides(q);
    SortedAlike(q);
    FlatMapPermutes(SlotIdOf, r.decisions, p.decisions);
    FlatMapPermutes(IncludedOf, r.decisions, p.decisions);
    FlatMapPermutes(ManagedAccountOf, r.decisions, p.decisions);
    FlatMapPermutes((m: Member) => [ToDecision(m)], r.members, p.members);
    WithinDistinct(ManagedAccounts(r.decisions), AccountIds(q.accounts));
  }

  lemma WithinDistinct(a: seq<string>, b: seq<string>)
    requires Distinct(b) && forall x :: multiset(a)[x] <= multiset(b)[x]
    ensures Distinct(a) && forall x :: x in a ==> x in b
  {
    DistinctCounts(a);
    DistinctCounts(b);
    forall x | x in a ensures x in b {
      assert multiset(a)[x] <= multiset(b)[x];
      assert x in multiset(a);
      assert x in multiset(b);
    }
  }

  // ---- members ----

  function Route(m: Member): (string, string) { (m.accountId, m.logicalModel) }
  function Routes(ms: seq<Member>): seq<(string, string)> { FlatMap((m: Member) => [Route(m)], ms) }

  lemma RouteIn(ms: seq<Member>, r: (string, string))
    ensures r in Routes(ms) <==> exists k :: 0 <= k < |ms| && Route(ms[k]) == r
  {
    FlatMapMember((m: Member) => [Route(m)], ms, r);
    var f := (m: Member) => [Route(m)];
    assert forall k :: 0 <= k < |ms| ==> (r in f(ms[k]) <==> Route(ms[k]) == r);
  }

  lemma {:induction false} ManualRoutesDistinct(comboId: string, cs: seq<Candidate>)
    ensures Distinct(Routes(ManualPass(comboId, cs).members))
    decreases |cs|
  {
    if cs != [] {
      var n := |cs| - 1;
      ManualRoutesDistinct(comboId, cs[..n]);
      var before := ManualPass(comboId, cs[..n]).members;
      var m := cs[n].member;
      RouteIn(before, Route(m));
      FlatMapLast((x: Member) => [Route(x)], before, m);
      assert Taken(before, m) <==> exists k :: 0 <= k < |before| && Route(before[k]) == Route(m) by {
        assert forall k :: 0 <= k < |before| ==> (SameRoute(before[k], m) <==> Route(before[k]) == Route(m));
      }
    }
  }

  /** Managed members: one per account, none of them manual or excluded. */
  lemma {:induction false} ManagedMembersAre(q: Query, ids: set<string>, model: string, accounts: seq<Account>)
    requires Distinct(AccountIds(accounts))
    ensures var ms := ManagedMembers(q, ids, model, accounts);
            && Distinct(Routes(ms))
            && forall m :: m in ms ==>
                 m.source == Managed && m.accountId in AccountIds(accounts) && m.accountId !in ids
                   && !IsExcluded(q, m.accountId)
    decreases |accounts|
  {
    hide IsExcluded, Outcomes, AccountIds, Routes;
    if accounts != [] {
      var n := |accounts| - 1;
      var a := accounts[n];
      var o := Outcomes(q, ids, model, a);
      var before := ManagedMembers(q, ids, model, accounts[..n]);
      LastAccount(accounts);
      ManagedMembersAre(q, ids, model, accounts[..n]);
      OneOutcome(q, ids, model, a);
      assert ManagedMembers(q, ids, model, accounts) == before + OutcomeMembers(o);
      if o.Admitted? {
        AddRoute(before, o.m);
      } else {
        assert before + [] == before;
      }
    } else {
      NoRoutes();
    }
  }

  lemma NoRoutes()
    ensures Routes([]) == []
  {}

  lemma LastAccount(accounts: seq<Account>)
    requires accounts != [] && Distinct(AccountIds(accounts))
    ensures var n := |accounts| - 1;
            var front := AccountIds(accounts[..n]);
            AccountIds(accounts) == front + [accounts[n].id] && Distinct(front) && accounts[n].id !in front
  {
    var n := |accounts| - 1;
    var all, front := AccountIds(accounts), AccountIds(accounts[..n]);
    assert forall k :: 0 <= k < |front| ==> front[k] == all[k];
    assert all[|front|] == accounts[n].id;
  }

  lemma AddRoute(ms: seq<Member>, m: Member)
    requires Distinct(Routes(ms)) && forall k :: 0 <= k < |ms| ==> ms[k].accountId != m.accountId
    ensures Distinct(Routes(ms + [m]))
  {
    FlatMapLast((x: Member) => [Route(x)], ms, m);
    RouteIn(ms, Route(m));
  }

  lemma CollectedMembersAre(q: Query)
    requires Distinct(AccountIds(q.accounts))
    ensures var ms := Collected(q).members;
            && Distinct(Routes(ms))
            && forall m, m' :: m in ms && m' in ms && m.source == Managed ==>
                 !IsExcluded(q, m.accountId) && (m'.source == Manual ==> m'.accountId != m.accountId)
  {
    hide Sort, ManualPass, ManagedMembers, ManagedDecisions, DisabledDecisions, IsExcluded, FlatMap;
    var cs := Candidates(q);
    var manual := ManualPass(q.comboId, cs).members;
    CandidatesAreOk(q);
    ManualPassDecides(q.comboId, cs);
    ManualRoutesDistinct(q.comboId, cs);
    assert forall m :: m in manual ==> m.source == Manual;
    if q.snap.assignment.mode == ManagedMode && ManagedModel(q).Some? {
      var ids, model := ManualIds(manual), ManagedModel(q).value;
      var sorted := Sort(q.accounts, ByAccount(q.host.rank));
      SortPermutes(q.accounts, ByAccount(q.host.rank));
      FlatMapPermutes((a: Account) => [a.id], sorted, q.accounts);
      DistinctPermutes(AccountIds(sorted), AccountIds(q.accounts));
      ManagedMembersAre(q, ids, model, sorted);
      var managed := ManagedMembers(q, ids, model, sorted);
      FlatMapAppend((x: Member) => [Route(x)], manual, managed);
      forall i, j | 0 <= i < |Routes(manual)| && 0 <= j < |Routes(managed)|
        ensures Routes(manual)[i] != Routes(managed)[j] {
        RouteIn(manual, Routes(manual)[i]);
        RouteIn(managed, Routes(managed)[j]);
      }
    }
  }

  /** No two members share account and model; a managed member is neither excluded nor already served by a slot. */
  lemma MembersAreSeparate(q: Query)
    requires Distinct(AccountIds(q.accounts))
    ensures var ms := ActiveMembership(q).members;
            && Distinct(Routes(ms))
            && forall m, m' :: m in ms && m' in ms && m.source == Managed ==>
                 !IsExcluded(q, m.accountId) && (m'.source == Manual ==> m'.accountId != m.accountId)
  {
    hide Collected, ActiveMembership, IsExcluded;
    var ms, collected := ActiveMembership(q).members, Collected(q).members;
    CollectedMembersAre(q);
    SortedAlike(q);
    FlatMapPermutes((x: Member) => [Route(x)], ms, collected);
    DistinctPermutes(Routes(ms), Routes(collected));
    MembersByMultiset(ms, collected);
  }

  // ---- one enabled slot is enough ----

  lemma NothingRejectedWithoutRequest(q: Query, slot: Slot)
    requires q.requested.None? || q.requested.value == ""
    ensures CreateManual(q, slot).rejected.None?
  {}

  lemma {:induction false} FirstUnrejectedStays(comboId: string, cs: seq<Candidate>, k: nat)
    requires k < |cs| && cs[k].rejected.None?
    ensures ManualPass(comboId, cs).members != []
    decreases |cs|
  {
    if k < |cs| - 1 { FirstUnrejectedStays(comboId, cs[..|cs| - 1], k); }
  }

  lemma MembersIncludeManual(q: Query)
    requires ManualPass(q.comboId, Candidates(q)).members != []
    ensures ActiveMembership(q).members != []
  {
    hide Sort, ManualPass, ManagedMembers, ManagedDecisions;
    SortPermutes(Collected(q).members, ByMember(q.host.rank));
  }

  /** With an enabled slot in the combo, somebody serves every requested model. */
  lemma OneEnabledSlotSuffices(snap: Snapshot, accounts: seq<Account>, host: Host, requested: Option<string>, i: nat)
    requires IsActive(snap) && i < |snap.slots| && snap.slots[i].enabled
    requires Some(snap.slots[i].comboId) == snap.assignment.comboId
    ensures Resolve(snap, accounts, host, requested).members != []
  {
    hide ActiveMembership, ManualPass, CreateManual, Sort;
    var plain := if requested.Some? && requested.value != "" then None else requested;
    var q := Query(snap, accounts, host, snap.assignment.comboId.value, plain);
    var c := CreateManual(q, snap.slots[i]);
    var f := (slot: Slot) => EnabledSlot(q, slot);
    assert c in f(snap.slots[i]);
    FlatMapMember(f, snap.slots, c);
    CandidatesAreOk(q);
    MembersByMultiset(Candidates(q), Unsorted(q));
    assert c in Candidates(q);
    var k :| 0 <= k < |Candidates(q)| && Candidates(q)[k] == c;
    NothingRejectedWithoutRequest(q, snap.slots[i]);
    FirstUnrejectedStays(q.comboId, Candidates(q), k);
    MembersIncludeManual(q);
  }
}
