/** The resolution does not depend on the order in which slots, rules, exclusions and accounts are listed. */
module ComboOrder {
  import opened Units
  import opened Sorting
  import opened StableSorting
  import opened Seqs
  import opened ModelAliases
  import opened ComboMembership
  import opened ComboDecisions

  /** No two of these names share a place in the collation. */
  ghost predicate SeparatesOn(rank: string -> real, names: set<string>) {
    forall a, b :: a in names && b in names && rank(a) == rank(b) ==> a == b
  }

  /** What a decision may name as its slot: the id of a slot, or nothing. */
  ghost function SlotNames(slots: seq<Slot>): set<string> { (set s | s in slots :: s.id) + {""} }

  ghost function AccountNames(accounts: seq<Account>): set<string> { set a | a in accounts :: a.id }

  ghost function MemberNames(slots: seq<Slot>): set<string> {
    set s | s in slots :: "combo:" + s.comboId + ":slot:" + s.id
  }

  /** The collation tells apart the slot ids, the account ids, and the ids of manual members. */
  ghost predicate Separates(rank: string -> real, slots: seq<Slot>, accounts: seq<Account>) {
    && SeparatesOn(rank, SlotNames(slots)) && SeparatesOn(rank, AccountNames(accounts))
    && SeparatesOn(rank, MemberNames(slots))
  }

  /** Slots and accounts have distinct ids, and no slot id is empty. */
  ghost predicate Identified(slots: seq<Slot>, accounts: seq<Account>) {
    && (forall i, j :: 0 <= i < j < |slots| ==> slots[i].id != slots[j].id)
    && (forall i :: 0 <= i < |slots| ==> slots[i].id != "")
    && (forall i, j :: 0 <= i < j < |accounts| ==> accounts[i].id != accounts[j].id)
  }

  /** The same policy and accounts, listed in another order. */
  ghost predicate Rearranges(q: Query, q': Query) {
    && q.snap.assignment == q'.snap.assignment && q.snap.combo == q'.snap.combo
    && multiset(q.snap.slots) == multiset(q'.snap.slots) && multiset(q.snap.rules) == multiset(q'.snap.rules)
    && multiset(q.snap.exclusions) == multiset(q'.snap.exclusions) && multiset(q.accounts) == multiset(q'.accounts)
    && q.host == q'.host && q.comboId == q'.comboId && q.requested == q'.requested
  }

  // ---- the comparators are orders ----

  lemma Orders(rank: string -> real)
    ensures Preorder(ByMember(rank)) && Preorder(ByCandidate(rank)) && Preorder(ByDecision(rank))
      && Preorder(ByAccount(rank))
  {}

  // ---- accounts ----

  lemma {:induction false} AccountByIdFinds(accounts: seq<Account>, id: string)
    ensures var r := AccountById(accounts, id);
            if r.Some? then r.value in accounts && r.value.id == id
            else forall k :: 0 <= k < |accounts| ==> accounts[k].id != id
    decreases |accounts|
  {
    if accounts != [] {
      var n := |accounts| - 1;
      assert accounts == accounts[..n] + [accounts[n]];
      if accounts[n].id != id { AccountByIdFinds(accounts[..n], id); }
    }
  }

  lemma AccountByIdPermutes(a: seq<Account>, b: seq<Account>, id: string)
    requires multiset(a) == multiset(b) && forall i, j :: 0 <= i < j < |a| ==> a[i].id != a[j].id
    ensures AccountById(a, id) == AccountById(b, id)
  {
    hide AccountById;
    AccountByIdFinds(a, id);
    AccountByIdFinds(b, id);
    MembersByMultiset(a, b);
    if AccountById(a, id).Some? {
      var k :| 0 <= k < |b| && b[k] == AccountById(a, id).value;
    }
    if AccountById(b, id).Some? {
      assert AccountById(b, id).value in a;
    }
  }

  lemma SortedAccountsAlike(a: seq<Account>, b: seq<Account>, rank: string -> real)
    requires multiset(a) == multiset(b) && SeparatesOn(rank, AccountNames(a))
    requires forall i, j :: 0 <= i < j < |a| ==> a[i].id != a[j].id
    ensures Sort(a, ByAccount(rank)) == Sort(b, ByAccount(rank))
  {
    hide Sort;
    Orders(rank);
    var le := ByAccount(rank);
    forall i, j | 0 <= i < |a| && 0 <= j < |a| && le(a[i], a[j]) && le(a[j], a[i]) ensures a[i] == a[j] {
      assert a[i] in a && a[j] in a && rank(a[i].id) == rank(a[j].id);
    }
    SortForgetsOrder(a, b, le);
  }

  // ---- manual candidates ----

  lemma CreateAlike(q: Query, q': Query, slot: Slot)
    requires Rearranges(q, q') && Identified(q.snap.slots, q.accounts)
    ensures CreateManual(q, slot) == CreateManual(q', slot)
  {
    AccountByIdPermutes(q.accounts, q'.accounts, slot.accountId);
  }

  lemma CreatedId(q: Query, slot: Slot)
    ensures CreateManual(q, slot).member.id == "combo:" + slot.comboId + ":slot:" + slot.id
  {}

  /** Candidates that compare equal come from one slot. */
  lemma CandidatesSeparate(q: Query)
    requires Separates(q.host.rank, q.snap.slots, q.accounts) && Identified(q.snap.slots, q.accounts)
    ensures Antisymmetric(Unsorted(q), ByCandidate(q.host.rank))
  {
    hide CreateManual;
    var cs, le := Unsorted(q), ByCandidate(q.host.rank);
    forall i, j | 0 <= i < |cs| && 0 <= j < |cs| && le(cs[i], cs[j]) && le(cs[j], cs[i]) ensures cs[i] == cs[j] {
      var s := SlotOf(q, cs[i]);
      var s' := SlotOf(q, cs[j]);
      CreatedId(q, s);
      CreatedId(q, s');
      assert q.host.rank(cs[i].member.id) == q.host.rank(cs[j].member.id);
      assert cs[i].member.id in MemberNames(q.snap.slots) && cs[j].member.id in MemberNames(q.snap.slots);
      var p := "combo:" + q.comboId + ":slot:";
      assert s.id == (p + s.id)[|p|..] && s'.id == (p + s'.id)[|p|..];
    }
  }

  lemma SlotOf(q: Query, c: Candidate) returns (s: Slot)
    requires c in Unsorted(q)
    ensures s in q.snap.slots && s.comboId == q.comboId && c == CreateManual(q, s)
  {
    hide CreateManual;
    FlatMapMember((slot: Slot) => EnabledSlot(q, slot), q.snap.slots, c);
    var k :| 0 <= k < |q.snap.slots| && c in EnabledSlot(q, q.snap.slots[k]);
    s := q.snap.slots[k];
  }

  lemma CandidatesAlike(q: Query, q': Query)
    requires Rearranges(q, q') && Separates(q.host.rank, q.snap.slots, q.accounts)
      && Identified(q.snap.slots, q.accounts)
    ensures Candidates(q) == Candidates(q')
  {
    hide CreateManual, Sort, FlatMap;
    var f, f' := (slot: Slot) => EnabledSlot(q, slot), (slot: Slot) => EnabledSlot(q', slot);
    forall k | 0 <= k < |q.snap.slots| ensures f(q.snap.slots[k]) == f'(q.snap.slots[k]) {
      CreateAlike(q, q', q.snap.slots[k]);
    }
    FlatMapSame(f, f', q.snap.slots);
    FlatMapPermutes(f', q.snap.slots, q'.snap.slots);
    Orders(q.host.rank);
    CandidatesSeparate(q);
    SortForgetsOrder(Unsorted(q), Unsorted(q'), ByCandidate(q.host.rank));
  }

  // ---- managed outcomes ----

  lemma RulesAlike(q: Query, q': Query, provider: string, routeClass: string)
    requires Rearranges(q, q')
    ensures var a, b := MatchingRules(q, provider, routeClass), MatchingRules(q', provider, routeClass);
            |a| == |b| && (|a| == 1 ==> a[0] == b[0])
  {
    hide FlatMap;
    var f := (rule: Rule) => ApplicableRule(q, rule, provider, routeClass);
    var f' := (rule: Rule) => ApplicableRule(q', rule, provider, routeClass);
    FlatMapSame(f, f', q.snap.rules);
    FlatMapPermutes(f', q.snap.rules, q'.snap.rules);
    var a, b := MatchingRules(q, provider, routeClass), MatchingRules(q', provider, routeClass);
    MembersByMultiset(a, b);
    if |a| == 1 { assert b[0] in a; }
  }

  lemma ExcludedAlike(q: Query, q': Query, id: string)
    requires Rearranges(q, q')
    ensures IsExcluded(q, id) <==> IsExcluded(q', id)
  {
    MembersByMultiset(q.snap.exclusions, q'.snap.exclusions);
    if k :| 0 <= k < |q.snap.exclusions| && Excludes(q, q.snap.exclusions[k], id) {
      assert q.snap.exclusions[k] in q'.snap.exclusions;
      var j :| 0 <= j < |q'.snap.exclusions| && q'.snap.exclusions[j] == q.snap.exclusions[k];
      assert Excludes(q', q'.snap.exclusions[j], id);
    }
    if k :| 0 <= k < |q'.snap.exclusions| && Excludes(q', q'.snap.exclusions[k], id) {
      assert q'.snap.exclusions[k] in q.snap.exclusions;
      var j :| 0 <= j < |q.snap.exclusions| && q.snap.exclusions[j] == q'.snap.exclusions[k];
      assert Excludes(q, q.snap.exclusions[j], id);
    }
  }

  lemma OutcomesAlike(q: Query, q': Query, ids: set<string>, model: string, a: Account)
    requires Rearranges(q, q')
    ensures Outcomes(q, ids, model, a) == Outcomes(q', ids, model, a)
  {
    hide MatchingRules, IsExcluded;
    if q.host.routeClass(a).Some? { RulesAlike(q, q', a.provider, q.host.routeClass(a).value); }
    ExcludedAlike(q, q', a.id);
  }

  lemma ManagedAlike(q: Query, q': Query, ids: set<string>, model: string, accounts: seq<Account>)
    requires Rearranges(q, q')
    ensures ManagedMembers(q, ids, model, accounts) == ManagedMembers(q', ids, model, accounts)
    ensures ManagedDecisions(q, ids, model, accounts) == ManagedDecisions(q', ids, model, accounts)
  {
    hide Outcomes, FlatMap;
    forall k | 0 <= k < |accounts| ensures Outcomes(q, ids, model, accounts[k]) ==
      Outcomes(q', ids, model, accounts[k]) {
      OutcomesAlike(q, q', ids, model, accounts[k]);
    }
    FlatMapSame((a: Account) => OutcomeMembers(Outcomes(q, ids, model, a)),
                (a: Account) => OutcomeMembers(Outcomes(q', ids, model, a)), accounts);
    FlatMapSame((a: Account) => OutcomeDecisions(Outcomes(q, ids, model, a)),
                (a: Account) => OutcomeDecisions(Outcomes(q', ids, model, a)), accounts);
  }

  // ---- the collected lists ----

  lemma DisabledAlike(q: Query, q': Query)
    requires Rearranges(q, q')
    ensures multiset(DisabledDecisions(q)) == multiset(DisabledDecisions(q'))
  {
    FlatMapPermutes((slot: Slot) => DisabledSlot(q.comboId, slot), q.snap.slots, q'.snap.slots);
  }

  lemma CollectedAlike(q: Query, q': Query)
    requires Rearranges(q, q') && Separates(q.host.rank, q.snap.slots, q.accounts)
      && Identified(q.snap.slots, q.accounts)
    ensures Collected(q).members == Collected(q').members
    ensures multiset(Collected(q).decisions) == multiset(Collected(q').decisions)
  {
    hide Sort, ManualPass, Candidates, DisabledDecisions, ManagedMembers, ManagedDecisions, FlatMap;
    CandidatesAlike(q, q');
    DisabledAlike(q, q');
    var manual := ManualPass(q.comboId, Candidates(q));
    if q.snap.assignment.mode == ManagedMode && ManagedModel(q).Some? {
      SortedAccountsAlike(q.accounts, q'.accounts, q.host.rank);
      ManagedAlike(q, q', ManualIds(manual.members), ManagedModel(q).value, Sort(q.accounts, ByAccount(q.host.rank)));
    }
  }

  // ---- no two decisions tie ----

  lemma {:induction false} DistinctPieces<T, U>(f: T -> seq<U>, xs: seq<T>, i: nat, j: nat, y: U)
    requires Distinct(FlatMap(f, xs)) && i < j < |xs|
    ensures !(y in f(xs[i]) && y in f(xs[j]))
    decreases |xs|
  {
    var n := |xs| - 1;
    var front, last := FlatMap(f, xs[..n]), f(xs[n]);
    assert FlatMap(f, xs) == front + last;
    assert forall k :: 0 <= k < |front| ==> front[k] == (front + last)[k];
    if j < n {
      DistinctPieces(f, xs[..n], i, j, y);
    } else {
      FlatMapMember(f, xs[..n], y);
      assert xs[..n][i] == xs[i];
      assert forall k, m :: 0 <= k < |front| && 0 <= m < |last| ==> front[k] != last[m] by {
        forall k, m | 0 <= k < |front| && 0 <= m < |last| ensures front[k] != last[m] {
          assert (front + last)[|front| + m] == last[m];
        }
      }
    }
  }

  /** Picking from elements with distinct ids at most their ids picks nothing twice. */
  lemma {:induction false} PickedIdsDistinct<T>(f: T -> seq<string>, id: T -> string, xs: seq<T>)
    requires forall i, j :: 0 <= i < j < |xs| ==> id(xs[i]) != id(xs[j])
    requires forall k :: 0 <= k < |xs| ==> f(xs[k]) == [] || f(xs[k]) == [id(xs[k])]
    ensures Distinct(FlatMap(f, xs))
    ensures forall y :: y in FlatMap(f, xs) ==> exists k :: 0 <= k < |xs| && id(xs[k]) == y
    decreases |xs|
  {
    if xs != [] {
      var n := |xs| - 1;
      var front := FlatMap(f, xs[..n]);
      PickedIdsDistinct(f, id, xs[..n]);
      forall y | y in front ensures y != id(xs[n]) && exists k :: 0 <= k < |xs| && id(xs[k]) == y {
        var k :| 0 <= k < n && id(xs[..n][k]) == y;
        assert id(xs[k]) == y;
      }
      assert FlatMap(f, xs) == front + f(xs[n]);
      assert forall i :: 0 <= i < |front| ==> front[i] in front;
      forall y | y in f(xs[n]) ensures exists k :: 0 <= k < |xs| && id(xs[k]) == y {
        assert id(xs[n]) == y;
      }
    }
  }

  lemma ComboIdsDistinct(comboId: string, slots: seq<Slot>)
    requires forall i, j :: 0 <= i < j < |slots| ==> slots[i].id != slots[j].id
    ensures Distinct(ComboSlotIds(comboId, slots))
    ensures forall id :: id in ComboSlotIds(comboId, slots) ==> exists k :: 0 <= k < |slots| && slots[k].id == id
  {
    PickedIdsDistinct((slot: Slot) => ComboSlotId(comboId, slot), (slot: Slot) => slot.id, slots);
  }

  lemma AccountIdsDistinct(accounts: seq<Account>)
    requires forall i, j :: 0 <= i < j < |accounts| ==> accounts[i].id != accounts[j].id
    ensures Distinct(AccountIds(accounts))
  {
    PickedIdsDistinct((a: Account) => [a.id], (a: Account) => a.id, accounts);
  }

  lemma DecisionsSeparate(q: Query)
    requires Separates(q.host.rank, q.snap.slots, q.accounts) && Identified(q.snap.slots, q.accounts)
    ensures Antisymmetric(Collected(q).decisions, ByDecision(q.host.rank))
  {
    hide Collected, FlatMap;
    var ds, rank := Collected(q).decisions, q.host.rank;
    var le := ByDecision(rank);
    CollectedDecides(q);
    ComboIdsDistinct(q.comboId, q.snap.slots);
    AccountIdsDistinct(q.accounts);
    DistinctPermutes(SlotIds(ds), ComboSlotIds(q.comboId, q.snap.slots));
    MembersByMultiset(SlotIds(ds), ComboSlotIds(q.comboId, q.snap.slots));
    WithinDistinct(ManagedAccounts(ds), AccountIds(q.accounts));
    forall i, j | 0 <= i < |ds| && 0 <= j < |ds| && le(ds[i], ds[j]) && le(ds[j], ds[i]) ensures ds[i] == ds[j] {
      assert rank(ds[i].accountId) == rank(ds[j].accountId);
      assert rank(OrEmpty(ds[i].slotId)) == rank(OrEmpty(ds[j].slotId));
      SlotIdNotEmpty(q, ds, i);
      SlotIdNotEmpty(q, ds, j);
      SlotNamed(q, ds, i);
      SlotNamed(q, ds, j);
      if i < j { TiedDecisions(ds, i, j); }
      if j < i { TiedDecisions(ds, j, i); }
    }
  }

  lemma SlotIdNotEmpty(q: Query, ds: seq<Decision>, i: nat)
    requires Identified(q.snap.slots, q.accounts) && i < |ds|
    requires forall id :: id in SlotIds(ds) ==> exists k :: 0 <= k < |q.snap.slots| && q.snap.slots[k].id == id
    ensures ds[i].slotId != Some("")
  {
    SlotIdListed(ds, i);
  }

  /** Every decision names a slot or none, and one without a slot names an account. */
  lemma SlotNamed(q: Query, ds: seq<Decision>, i: nat)
    requires i < |ds|
    requires forall id :: id in SlotIds(ds) ==> exists k :: 0 <= k < |q.snap.slots| && q.snap.slots[k].id == id
    requires forall id :: id in ManagedAccounts(ds) ==> id in AccountIds(q.accounts)
    ensures OrEmpty(ds[i].slotId) in SlotNames(q.snap.slots)
    ensures ds[i].slotId.None? ==> ds[i].accountId in AccountNames(q.accounts)
  {
    hide FlatMap;
    SlotIdListed(ds, i);
    if ds[i].slotId.Some? {
      var k :| 0 <= k < |q.snap.slots| && q.snap.slots[k].id == ds[i].slotId.value;
      assert q.snap.slots[k] in q.snap.slots;
    } else {
      FlatMapMember(ManagedAccountOf, ds, ds[i].accountId);
      assert ds[i].accountId in ManagedAccountOf(ds[i]);
      AccountNamed(q.accounts, ds[i].accountId);
    }
  }

  lemma {:induction false} AccountNamed(accounts: seq<Account>, id: string)
    requires id in AccountIds(accounts)
    ensures id in AccountNames(accounts)
  {
    var f := (a: Account) => [a.id];
    assert AccountIds(accounts) == FlatMap(f, accounts);
    FlatMapMember(f, accounts, id);
    var k :| 0 <= k < |accounts| && id in f(accounts[k]);
    assert accounts[k] in accounts;
  }

  lemma SlotIdListed(ds: seq<Decision>, i: nat)
    requires i < |ds|
    ensures ds[i].slotId.Some? ==> ds[i].slotId.value in SlotIds(ds)
  {
    if ds[i].slotId.Some? {
      var f := SlotIdOf;
      FlatMapMember(f, ds, ds[i].slotId.value);
      assert ds[i].slotId.value in f(ds[i]);
    }
  }

  /** Two different decisions differ in account or slot. */
  lemma TiedDecisions(ds: seq<Decision>, i: nat, j: nat)
    requires Distinct(SlotIds(ds)) && Distinct(ManagedAccounts(ds)) && i < j < |ds|
    ensures ds[i].slotId != ds[j].slotId || (ds[i].slotId.None? && ds[i].accountId != ds[j].accountId)
  {
    if ds[i].slotId.Some? { DistinctPieces(SlotIdOf, ds, i, j, ds[i].slotId.value); }
    DistinctPieces(ManagedAccountOf, ds, i, j, ds[i].accountId);
  }

  // ---- the theorem ----

  lemma ActiveAlike(q: Query, q': Query)
    requires Rearranges(q, q') && Separates(q.host.rank, q.snap.slots, q.accounts)
      && Identified(q.snap.slots, q.accounts)
    ensures ActiveMembership(q) == ActiveMembership(q')
  {
    hide Collected, Sort;
    CollectedAlike(q, q');
    DecisionsSeparate(q);
    Orders(q.host.rank);
    SortForgetsOrder(Collected(q).decisions, Collected(q').decisions, ByDecision(q.host.rank));
  }

  lemma InactiveAlike(snap: Snapshot, snap': Snapshot, rank: string -> real)
    requires snap.assignment == snap'.assignment && snap.combo == snap'.combo
      && multiset(snap.slots) == multiset(snap'.slots)
    requires SeparatesOn(rank, SlotNames(snap.slots))
    requires forall i, j :: 0 <= i < j < |snap.slots| ==> snap.slots[i].id != snap.slots[j].id
    ensures Sort(InactiveDecisions(snap), ByDecision(rank)) == Sort(InactiveDecisions(snap'), ByDecision(rank))
  {
    hide Sort;
    var f := (slot: Slot) =>
        [Rejection(InactiveComboId(snap), slot.accountId, "disabled", None, None, Some(slot.id), None)];
    var f' := (slot: Slot) =>
        [Rejection(InactiveComboId(snap'), slot.accountId, "disabled", None, None, Some(slot.id), None)];
    FlatMapSame(f, f', snap.slots);
    FlatMapPermutes(f', snap.slots, snap'.slots);
    Orders(rank);
    InactiveSeparate(snap, rank);
    SortForgetsOrder(InactiveDecisions(snap), InactiveDecisions(snap'), ByDecision(rank));
  }

  lemma InactiveSeparate(snap: Snapshot, rank: string -> real)
    requires SeparatesOn(rank, SlotNames(snap.slots))
    requires forall i, j :: 0 <= i < j < |snap.slots| ==> snap.slots[i].id != snap.slots[j].id
    ensures Antisymmetric(InactiveDecisions(snap), ByDecision(rank))
  {
    var ds, le := InactiveDecisions(snap), ByDecision(rank);
    forall i, j | 0 <= i < |ds| && 0 <= j < |ds| && le(ds[i], ds[j]) && le(ds[j], ds[i]) ensures ds[i] == ds[j] {
      var s := InactiveSlot(snap, ds[i]);
      var s' := InactiveSlot(snap, ds[j]);
      assert rank(OrEmpty(ds[i].slotId)) == rank(OrEmpty(ds[j].slotId));
    }
  }

  lemma InactiveSlot(snap: Snapshot, d: Decision) returns (s: Slot)
    requires d in InactiveDecisions(snap)
    ensures s in snap.slots
    ensures d == Rejection(InactiveComboId(snap), s.accountId, "disabled", None, None, Some(s.id), None)
  {
    var f := (slot: Slot) =>
        [Rejection(InactiveComboId(snap), slot.accountId, "disabled", None, None, Some(slot.id), None)];
    FlatMapMember(f, snap.slots, d);
    var k :| 0 <= k < |snap.slots| && d in f(snap.slots[k]);
    s := snap.slots[k];
  }

  /** Listing slots, rules, exclusions and accounts in another order gives the identical resolution. */
  lemma OrderDoesNotMatter(
    snap: Snapshot, snap': Snapshot, accounts: seq<Account>, accounts': seq<Account>, host: Host,
      requested: Option<string>)
    requires Rearranges(Query(snap, accounts, host, "", requested), Query(snap', accounts', host, "", requested))
    requires Separates(host.rank, snap.slots, accounts) && Identified(snap.slots, accounts)
    ensures Resolve(snap, accounts, host, requested) == Resolve(snap', accounts', host, requested)
  {
    hide ActiveMembership, Sort, InactiveDecisions;
    if IsActive(snap) {
      var comboId := snap.assignment.comboId.value;
      ActiveAlike(Query(snap, accounts, host, comboId, requested), Query(snap', accounts', host, comboId, requested));
      ActiveAlike(Query(snap, accounts, host, comboId, None), Query(snap', accounts', host, comboId, None));
    } else {
      InactiveAlike(snap, snap', host.rank);
    }
  }

  // ---- inactive combos, exactly ----

  /** Two slots tie in the report of an inactive combo, and are reported differently. */
  predicate SlotsTie(s: Slot, s': Slot, rank: string -> real) {
    && rank(s.accountId) == rank(s'.accountId) && rank(s.id) == rank(s'.id)
    && (s.accountId != s'.accountId || s.id != s'.id)
  }

  ghost predicate NoSlotsTie(slots: seq<Slot>, rank: string -> real) {
    forall i, j :: 0 <= i < j < |slots| ==> !SlotsTie(slots[i], slots[j], rank)
  }

  function InactiveDecision(snap: Snapshot, slot: Slot): Decision {
    Rejection(InactiveComboId(snap), slot.accountId, "disabled", None, None, Some(slot.id), None)
  }

  lemma InactiveAt(snap: Snapshot)
    ensures |InactiveDecisions(snap)| == |snap.slots|
    ensures forall k :: 0 <= k < |snap.slots| ==> InactiveDecisions(snap)[k] == InactiveDecision(snap, snap.slots[k])
  {
    var f := (slot: Slot) =>
        [Rejection(InactiveComboId(snap), slot.accountId, "disabled", None, None, Some(slot.id), None)];
    FlatMapSingle(f, (slot: Slot) => InactiveDecision(snap, slot), snap.slots);
  }

  lemma DecisionsTie(snap: Snapshot, s: Slot, s': Slot, rank: string -> real)
    ensures var d, d' := InactiveDecision(snap, s), InactiveDecision(snap, s');
      (LeDecision(rank, d, d') && LeDecision(rank, d', d) && d != d') <==> SlotsTie(s, s', rank)
  {}

  lemma InactiveIndependent(snap: Snapshot, slots: seq<Slot>, rank: string -> real)
    requires NoSlotsTie(snap.slots, rank) && multiset(slots) == multiset(snap.slots)
    ensures Sort(InactiveDecisions(snap.(slots := slots)), ByDecision(rank)) ==
      Sort(InactiveDecisions(snap), ByDecision(rank))
  {
    hide Sort, LeDecision, Rejection, SlotsTie;
    var snap', ds, le := snap.(slots := slots), InactiveDecisions(snap), ByDecision(rank);
    InactiveAt(snap);
    forall i, j | 0 <= i < |ds| && 0 <= j < |ds| && le(ds[i], ds[j]) && le(ds[j], ds[i]) ensures ds[i] == ds[j] {
      DecisionsTie(snap, snap.slots[i], snap.slots[j], rank);
      DecisionsTie(snap, snap.slots[j], snap.slots[i], rank);
    }
    Orders(rank);
    var f := (slot: Slot) =>
        [Rejection(InactiveComboId(snap), slot.accountId, "disabled", None, None, Some(slot.id), None)];
    var f' := (slot: Slot) =>
        [Rejection(InactiveComboId(snap'), slot.accountId, "disabled", None, None, Some(slot.id), None)];
    FlatMapSame(f, f', snap.slots);
    FlatMapPermutes(f', snap.slots, slots);
    SortForgetsOrder(ds, InactiveDecisions(snap'), le);
  }

  lemma TieShowsInactive(snap: Snapshot, i: nat, j: nat, rank: string -> real)
    requires i < j < |snap.slots| && SlotsTie(snap.slots[i], snap.slots[j], rank)
    ensures Sort(InactiveDecisions(snap.(slots := Swapped(snap.slots, i, j))), ByDecision(rank))
         != Sort(InactiveDecisions(snap), ByDecision(rank))
  {
    hide Sort, LeDecision, Rejection, SlotsTie;
    var snap' := snap.(slots := Swapped(snap.slots, i, j));
    InactiveAt(snap);
    InactiveAt(snap');
    DecisionsTie(snap, snap.slots[i], snap.slots[j], rank);
    Orders(rank);
    SameComboId(snap, snap'.slots);
    assert InactiveDecisions(snap') == Swapped(InactiveDecisions(snap), i, j);
    SwapShows(InactiveDecisions(snap), i, j, ByDecision(rank));
  }

  lemma SameComboId(snap: Snapshot, slots: seq<Slot>)
    ensures InactiveComboId(snap.(slots := slots)) == InactiveComboId(snap)
  {}

  /**
   The resolution of an inactive combo is the same for every order of its slots if and only if no two slots tie on both
   account id and slot id without being reported alike.
   */
  lemma InactiveOrderHidden(snap: Snapshot, accounts: seq<Account>, host: Host, requested: Option<string>)
    requires !IsActive(snap)
    ensures (forall slots :: multiset(slots) == multiset(snap.slots) ==>
              Resolve(snap.(slots := slots), accounts, host, requested) ==
                Resolve(snap, accounts, host, requested)) <==>
      NoSlotsTie(snap.slots, host.rank)
  {
    hide Sort, InactiveDecisions, SlotsTie;
    if NoSlotsTie(snap.slots, host.rank) {
      forall slots | multiset(slots) == multiset(snap.slots)
        ensures Resolve(snap.(slots := slots), accounts, host, requested) == Resolve(snap, accounts, host, requested)
      {
        InactiveIndependent(snap, slots, host.rank);
      }
    } else {
      var i, j :| 0 <= i < j < |snap.slots| && SlotsTie(snap.slots[i], snap.slots[j], host.rank);
      SwapPermutes(snap.slots, i, j);
      TieShowsInactive(snap, i, j, host.rank);
      assert multiset(Swapped(snap.slots, i, j)) == multiset(snap.slots);
    }
  }

  // ---- which duplicate is kept ----

  lemma {:induction false} KeptEarlier(comboId: string, cs: seq<Candidate>, k: nat) returns (i: nat)
    requires k < |cs| && cs[k].rejected.None?
    ensures i <= k && cs[i].member in ManualPass(comboId, cs).members && SameRoute(cs[i].member, cs[k].member)
    decreases |cs|
  {
    var n := |cs| - 1;
    var before := ManualPass(comboId, cs[..n]);
    if k < n {
      i := KeptEarlier(comboId, cs[..n], k);
    } else if Taken(before.members, cs[n].member) {
      var m :| 0 <= m < |before.members| && SameRoute(before.members[m], cs[n].member);
      i := MemberIsCandidate(comboId, cs[..n], before.members[m]);
    } else {
      i := n;
    }
  }

  lemma {:induction false} MemberIsCandidate(comboId: string, cs: seq<Candidate>, m: Member) returns (i: nat)
    requires m in ManualPass(comboId, cs).members
    ensures i < |cs| && cs[i].member == m
    decreases |cs|
  {
    assert cs != [];
    var n := |cs| - 1;
    if m in ManualPass(comboId, cs[..n]).members {
      i := MemberIsCandidate(comboId, cs[..n], m);
    } else {
      i := n;
    }
  }

  /** Among the slots of one account and model, the one kept comes first in member order. */
  lemma KeptComesFirst(q: Query, k: nat)
    requires k < |Candidates(q)| && Candidates(q)[k].rejected.None?
    ensures exists m :: m in ManualPass(q.comboId, Candidates(q)).members &&
              SameRoute(m, Candidates(q)[k].member) && LeMember(q.host.rank, m, Candidates(q)[k].member)
  {
    hide Sort, ManualPass, Unsorted;
    var cs := Candidates(q);
    var i := KeptEarlier(q.comboId, cs, k);
    Orders(q.host.rank);
    SortSorts(Unsorted(q), ByCandidate(q.host.rank));
    assert ByCandidate(q.host.rank)(cs[i], cs[k]);
  }
}
