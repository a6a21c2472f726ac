/** Who is admitted to a combo, and why each of the others is not, told from the policy alone. */
module ComboAdmission {
  import opened Units
  import opened Sorting
  import opened Seqs
  import opened ModelAliases
  import opened ComboMembership
  import opened ComboDecisions
  import opened ComboOrder

  // ---- the policy, read directly ----

  /** The rule at this position is for the account's provider and route class, in this combo and family. */
  predicate RuleFor(q: Query, a: Account, i: nat) {
    && i < |q.snap.rules|
    && var rule := q.snap.rules[i];
       && rule.comboId == q.comboId && rule.family == q.snap.assignment.family && rule.provider == a.provider
       && q.host.routeClass(a) == Some(rule.routeClass)
  }

  ghost predicate OneRule(q: Query, a: Account, i: nat) {
    RuleFor(q, a, i) && forall j: nat :: RuleFor(q, a, j) ==> j == i
  }

  ghost predicate NoRule(q: Query, a: Account) { forall i: nat :: !RuleFor(q, a, i) }

  ghost predicate Barred(q: Query, id: string) {
    exists k :: 0 <= k < |q.snap.exclusions| && Bars(q, q.snap.exclusions[k], id)
  }

  predicate Bars(q: Query, e: Exclusion, id: string) {
    e.accountId == id && e.comboId == q.comboId && e.family == q.snap.assignment.family
  }

  predicate IsTier(x: real, n: int) { 0 <= n <= 100 && x == n as real }

  /** A whole number from 0 to 100. */
  ghost predicate WholeTier(x: real) { exists n: int :: IsTier(x, n) }

  ghost predicate ServedBySlot(members: seq<Member>, id: string) {
    exists k :: 0 <= k < |members| && members[k].source == Origin.Manual && members[k].accountId == id
  }

  /** All that an account needs to be admitted by the rule at `i`. */
  ghost predicate Qualifies(q: Query, a: Account, model: string, i: nat) {
    && OneRule(q, a, i) && q.snap.rules[i].enabled
    && !ServedBySlot(ActiveMembership(q).members, a.id) && !Barred(q, a.id)
    && WholeTier(a.priority) && q.host.capability(a, model) == Supported
  }

  // ---- rules, exclusions and tiers as the resolver reads them ----

  function PickRule(q: Query, provider: string, routeClass: string): Rule -> seq<Rule> {
    (rule: Rule) => ApplicableRule(q, rule, provider, routeClass)
  }

  lemma PickAt(q: Query, a: Account, i: nat)
    requires q.host.routeClass(a).Some? && i < |q.snap.rules|
    ensures PickRule(q, a.provider, q.host.routeClass(a).value)(q.snap.rules[i]) != [] <==> RuleFor(q, a, i)
  {}

  lemma RulesRead(q: Query, a: Account)
    requires q.host.routeClass(a).Some?
    ensures var rules := MatchingRules(q, a.provider, q.host.routeClass(a).value);
      && (rules == [] <==> NoRule(q, a))
      && (|rules| == 1 <==> exists i: nat :: OneRule(q, a, i))
      && (forall i: nat :: OneRule(q, a, i) ==> rules == [q.snap.rules[i]])
  {
    hide FlatMap, RuleFor, ApplicableRule;
    var f, rules := PickRule(q, a.provider, q.host.routeClass(a).value), q.snap.rules;
    assert Picks(f) by { PicksRules(q, a.provider, q.host.routeClass(a).value); }
    NothingPicked(f, rules);
    OnePicked(f, rules);
    assert MatchingRules(q, a.provider, q.host.routeClass(a).value) == FlatMap(f, rules);
    forall i: nat | i < |rules| ensures f(rules[i]) != [] <==> RuleFor(q, a, i) { PickAt(q, a, i); }
    forall i: nat | i >= |rules| ensures !RuleFor(q, a, i) { NoRuleBeyond(q, a, i); }
    forall i: nat ensures OnlyPick(f, rules, i) <==> OneRule(q, a, i) {}
  }

  lemma PicksRules(q: Query, provider: string, routeClass: string)
    ensures Picks(PickRule(q, provider, routeClass))
  {}

  lemma NoRuleBeyond(q: Query, a: Account, i: nat)
    requires i >= |q.snap.rules|
    ensures !RuleFor(q, a, i)
  {}

  lemma NoRouteNoRule(q: Query, a: Account)
    requires q.host.routeClass(a).None?
    ensures NoRule(q, a)
  {}

  lemma ExclusionsRead(q: Query, id: string)
    ensures IsExcluded(q, id) <==> Barred(q, id)
  {
    if IsExcluded(q, id) {
      var k :| 0 <= k < |q.snap.exclusions| && Excludes(q, q.snap.exclusions[k], id);
      assert Bars(q, q.snap.exclusions[k], id);
    }
    if Barred(q, id) {
      var k :| 0 <= k < |q.snap.exclusions| && Bars(q, q.snap.exclusions[k], id);
      assert Excludes(q, q.snap.exclusions[k], id);
    }
  }

  lemma TierRead(x: real)
    ensures IsManagedTier(x) <==> WholeTier(x)
  {
    if IsManagedTier(x) { assert IsTier(x, x.Floor); }
    if n: int :| IsTier(x, n) { assert x.Floor == n; }
  }

  // ---- one account ----

  /** The refusals an account with one rule can meet, in the order they are tested. */
  ghost function Refusal(q: Query, a: Account, model: string, rule: Rule, manual: bool): Option<(string,
    Option<real>)> {
    if !rule.enabled then Some(("disabled", Some(a.priority)))
    else if manual then Some(("manual_override", Some(a.priority)))
    else if Barred(q, a.id) then Some(("excluded", Some(a.priority)))
    else if !WholeTier(a.priority) then Some(("ambiguous", None))
    else match q.host.capability(a, model)
      case Supported => None
      case Unsupported(reason) => Some((reason, Some(a.priority)))
  }

  lemma OutcomeRead(q: Query, ids: set<string>, model: string, a: Account)
    ensures var o := Outcomes(q, ids, model, a);
      && (NoRule(q, a) <==> o.NoRule?)
      && (forall i: nat :: OneRule(q, a, i) ==>
            var rule := q.snap.rules[i];
            var refusal := Refusal(q, a, model, rule, a.id in ids);
            if refusal.Some?
            then o == Refused(Decision(a.id, q.comboId, false, Some(model), refusal.value.1, None, refusal.value.0,
              None,
                                       Some(rule.id)))
            else o.Admitted? && o.m == ManagedAs(q, a, model, rule))
      && (!NoRule(q, a) && (forall i: nat :: !OneRule(q, a, i)) ==>
            o == Refused(Decision(a.id, q.comboId, false, Some(model), Some(a.priority), None, "ambiguous", None,
              None)))
  {
    hide MatchingRules, IsExcluded, IsManagedTier, Barred, WholeTier, RuleFor;
    ExclusionsRead(q, a.id);
    TierRead(a.priority);
    if q.host.routeClass(a).None? { NoRouteNoRule(q, a); } else { RulesRead(q, a); }
  }

  /** The member a rule makes of an account. */
  function ManagedAs(q: Query, a: Account, model: string, rule: Rule): Member {
    Member("combo:" + q.comboId + ":managed:" + Name(q.snap.assignment.family) + ":rule:" + rule.id + ":account:" +
      a.id,
           a.id, q.comboId, model, a.priority, Managed, None, Some(rule.id))
  }

  // ---- the managed pass ----

  function Pieces(q: Query, ids: set<string>, model: string): Account -> seq<Member> {
    (a: Account) => OutcomeMembers(Outcomes(q, ids, model, a))
  }

  function DecisionPieces(q: Query, ids: set<string>, model: string): Account -> seq<Decision> {
    (a: Account) => OutcomeDecisions(Outcomes(q, ids, model, a))
  }

  lemma PieceIsOwn(q: Query, ids: set<string>, model: string, a: Account)
    ensures forall m :: m in Pieces(q, ids, model)(a) ==> m.accountId == a.id && m.source == Managed
    ensures forall d :: d in DecisionPieces(q, ids, model)(a) ==> d.accountId == a.id && d.slotId.None?
  {
    hide MatchingRules, IsExcluded;
  }

  lemma SameAccount(accounts: seq<Account>, a: Account, b: Account)
    requires Distinct(AccountIds(accounts)) && a in accounts && b in accounts && a.id == b.id
    ensures a == b
  {
    FlatMapSingle((x: Account) => [x.id], (x: Account) => x.id, accounts);
    var i :| 0 <= i < |accounts| && accounts[i] == a;
    var j :| 0 <= j < |accounts| && accounts[j] == b;
    assert AccountIds(accounts)[i] == AccountIds(accounts)[j];
  }

  /** The managed members and decisions of an account are those of its own outcome. */
  lemma ManagedOf(q: Query, ids: set<string>, model: string, accounts: seq<Account>, a: Account)
    requires Distinct(AccountIds(accounts)) && a in accounts
    ensures forall m :: m in ManagedMembers(q, ids, model, accounts) && m.accountId == a.id <==>
      m in Pieces(q, ids, model)(a)
    ensures forall d :: d in ManagedDecisions(q, ids, model, accounts) && d.accountId == a.id <==>
      d in DecisionPieces(q, ids, model)(a)
  {
    hide Outcomes, FlatMap, Distinct;
    var f, g := Pieces(q, ids, model), DecisionPieces(q, ids, model);
    var i :| 0 <= i < |accounts| && accounts[i] == a;
    forall m: Member ensures m in FlatMap(f, accounts) && m.accountId == a.id <==> m in f(a) {
      FlatMapMember(f, accounts, m);
      PieceIsOwn(q, ids, model, a);
      if m in FlatMap(f, accounts) && m.accountId == a.id {
        var k :| 0 <= k < |accounts| && m in f(accounts[k]);
        PieceIsOwn(q, ids, model, accounts[k]);
        SameAccount(accounts, a, accounts[k]);
      }
    }
    forall d: Decision ensures d in FlatMap(g, accounts) && d.accountId == a.id <==> d in g(a) {
      FlatMapMember(g, accounts, d);
      PieceIsOwn(q, ids, model, a);
      if d in FlatMap(g, accounts) && d.accountId == a.id {
        var k :| 0 <= k < |accounts| && d in g(accounts[k]);
        PieceIsOwn(q, ids, model, accounts[k]);
        SameAccount(accounts, a, accounts[k]);
      }
    }
    assert ManagedMembers(q, ids, model, accounts) == FlatMap(f, accounts);
    assert ManagedDecisions(q, ids, model, accounts) == FlatMap(g, accounts);
  }

  /** What the slots contribute, before the managed pass. */
  ghost function FromSlots(q: Query): Pass { ManualPass(q.comboId, Candidates(q)) }

  lemma ManualSources(q: Query)
    ensures forall m :: m in FromSlots(q).members ==> m.source == Origin.Manual
    ensures forall d :: d in FromSlots(q).decisions + DisabledDecisions(q) ==> d.slotId.Some?
  {
    hide Sort, ManualPass, FlatMap;
    CandidatesAreOk(q);
    ManualPassDecides(q.comboId, Candidates(q));
    SlotsDecide(q);
    forall d | d in FromSlots(q).decisions + DisabledDecisions(q) ensures d.slotId.Some? {
      SlotlessIsManaged(FromSlots(q).decisions + DisabledDecisions(q), d);
    }
  }

  lemma SlotlessIsManaged(ds: seq<Decision>, d: Decision)
    requires d in ds
    ensures d.slotId.None? ==> d.accountId in ManagedAccounts(ds)
  {
    hide FlatMap;
    var k :| 0 <= k < |ds| && ds[k] == d;
    if d.slotId.None? {
      assert d.accountId in ManagedAccountOf(ds[k]);
      FlatMapMember(ManagedAccountOf, ds, d.accountId);
    }
  }

  /** The managed part of a resolution, for an account of the list. */
  lemma ManagedPart(q: Query, model: string, a: Account)
    requires Distinct(AccountIds(q.accounts)) && a in q.accounts
    requires q.snap.assignment.mode == ManagedMode && ManagedModel(q) == Some(model)
    ensures var ids, r := ManualIds(FromSlots(q).members), ActiveMembership(q);
      && (forall m :: m in r.members && m.source == Managed && m.accountId == a.id <==> m in Pieces(q, ids, model)(a))
      && (forall d :: d in r.decisions && d.slotId.None? && d.accountId == a.id <==>
        d in DecisionPieces(q, ids, model)(a))
      && (a.id in ids <==> ServedBySlot(r.members, a.id))
  {
    hide Sort, ManualPass, Candidates, DisabledDecisions, ManagedMembers, ManagedDecisions, FlatMap, Outcomes;
    hide ManagedModel;
    hide Distinct, ActiveMembership;
    var manual, p, r := FromSlots(q), Collected(q), ActiveMembership(q);
    var ids, sorted := ManualIds(manual.members), Sort(q.accounts, ByAccount(q.host.rank));
    SortPermutes(q.accounts, ByAccount(q.host.rank));
    MembersByMultiset(sorted, q.accounts);
    FlatMapPermutes((x: Account) => [x.id], sorted, q.accounts);
    DistinctPermutes(AccountIds(sorted), AccountIds(q.accounts));
    ManagedOf(q, ids, model, sorted, a);
    SortedAlike(q);
    MembersByMultiset(r.members, p.members);
    MembersByMultiset(r.decisions, p.decisions);
    ManualSources(q);
    PieceIsOwn(q, ids, model, a);
    ManagedSources(q, ids, model, sorted);
    forall m ensures m in r.members && m.source == Managed && m.accountId == a.id <==> m in Pieces(q, ids, model)(a) {
      assert m in p.members <==> m in manual.members || m in ManagedMembers(q, ids, model, sorted);
    }
    forall d
      ensures d in r.decisions && d.slotId.None? && d.accountId == a.id <==> d in DecisionPieces(q, ids, model)(a)
    {
      var slots := manual.decisions + DisabledDecisions(q);
      assert d in p.decisions <==> d in slots || d in ManagedDecisions(q, ids, model, sorted);
    }
    if a.id in ids {
      var m :| m in manual.members && m.accountId == a.id;
      assert m in p.members;
      var k :| 0 <= k < |r.members| && r.members[k] == m;
      assert ServedBySlot(r.members, a.id);
    }
    if ServedBySlot(r.members, a.id) {
      var k :| 0 <= k < |r.members| && r.members[k].source == Origin.Manual && r.members[k].accountId == a.id;
      assert r.members[k] in p.members;
      assert r.members[k] in manual.members;
    }
  }

  lemma ManagedSources(q: Query, ids: set<string>, model: string, accounts: seq<Account>)
    ensures forall m :: m in ManagedMembers(q, ids, model, accounts) ==>
      m.source == Managed && exists a :: a in accounts && a.id == m.accountId
    ensures forall d :: d in ManagedDecisions(q, ids, model, accounts) ==> d.slotId.None?
  {
    hide Outcomes, FlatMap;
    var f, g := Pieces(q, ids, model), DecisionPieces(q, ids, model);
    forall m: Member | m in FlatMap(f, accounts)
      ensures m.source == Managed && exists a :: a in accounts && a.id == m.accountId
    {
      FlatMapMember(f, accounts, m);
      var k :| 0 <= k < |accounts| && m in f(accounts[k]);
      PieceIsOwn(q, ids, model, accounts[k]);
      assert accounts[k] in accounts;
    }
    forall d: Decision | d in FlatMap(g, accounts) ensures d.slotId.None? {
      FlatMapMember(g, accounts, d);
      var k :| 0 <= k < |accounts| && d in g(accounts[k]);
      PieceIsOwn(q, ids, model, accounts[k]);
    }
    assert ManagedMembers(q, ids, model, accounts) == FlatMap(f, accounts);
    assert ManagedDecisions(q, ids, model, accounts) == FlatMap(g, accounts);
  }

  // ---- the theorems ----

  /**
   A managed combo has a managed member for an account if and only if exactly one rule is for its provider and route
   class, that rule is enabled, no slot serves the account, nothing excludes it, its priority is a whole number from 0
   to 100, and it can serve the model; the member then carries that rule.
   */
  lemma AdmittedIffQualified(q: Query, model: string, a: Account)
    requires Distinct(AccountIds(q.accounts)) && a in q.accounts
    requires q.snap.assignment.mode == ManagedMode && ManagedModel(q) == Some(model)
    ensures var members := ActiveMembership(q).members;
      && ((exists m :: m in members && m.source == Managed && m.accountId == a.id) <==>
            exists i: nat :: Qualifies(q, a, model, i))
      && (forall m, i: nat :: m in members && m.source == Managed && m.accountId == a.id && OneRule(q, a, i) ==>
            m == ManagedAs(q, a, model, q.snap.rules[i]))
  {
    hide Outcomes, ActiveMembership, ManagedModel, OneRule, Barred, WholeTier, Distinct, ServedBySlot, FromSlots;
    var ids := ManualIds(FromSlots(q).members);
    ManagedPart(q, model, a);
    OutcomeRead(q, ids, model, a);
    QualifiesIsUnrefused(q, model, a, ids);
    var o := Outcomes(q, ids, model, a);
    if o.Admitted? { assert o.m in Pieces(q, ids, model)(a); }
  }

  lemma QualifiesIsUnrefused(q: Query, model: string, a: Account, ids: set<string>)
    requires a.id in ids <==> ServedBySlot(ActiveMembership(q).members, a.id)
    ensures forall i: nat :: OneRule(q, a, i) ==>
      (Qualifies(q, a, model, i) <==> Refusal(q, a, model, q.snap.rules[i], a.id in ids).None?)
  {
    hide ActiveMembership, OneRule, Barred, WholeTier, ServedBySlot;
    forall i: nat | OneRule(q, a, i)
      ensures i < |q.snap.rules|
      ensures Qualifies(q, a, model, i) <==> Refusal(q, a, model, q.snap.rules[i], a.id in ids).None?
    {
      RuleExists(q, a, i);
    }
  }

  lemma RuleExists(q: Query, a: Account, i: nat)
    requires OneRule(q, a, i)
    ensures i < |q.snap.rules|
  {}

  /** A decision about the account that belongs to no slot. */
  ghost predicate ManagedDecision(q: Query, a: Account, d: Decision) {
    d in ActiveMembership(q).decisions && d.slotId.None? && d.accountId == a.id
  }

  /**
   The managed decision of an account: none without a rule; "ambiguous" with several; and with one rule the first that
   applies of a disabled rule, a slot that serves it, an exclusion, a priority that is no tier, and what the account
   cannot serve, each with its own reason.
   */
  lemma WhyNot(q: Query, model: string, a: Account, d: Decision)
    requires Distinct(AccountIds(q.accounts)) && a in q.accounts
    requires q.snap.assignment.mode == ManagedMode && ManagedModel(q) == Some(model)
    ensures NoRule(q, a) ==> !ManagedDecision(q, a, d)
    ensures !NoRule(q, a) && (forall i: nat :: !OneRule(q, a, i)) ==>
      (ManagedDecision(q, a, d) <==>
        d == Decision(a.id, q.comboId, false, Some(model), Some(a.priority), None, "ambiguous", None, None))
    ensures forall i: nat :: OneRule(q, a, i) ==>
      var rule, refusal := q.snap.rules[i], WhyRefused(q, a, model, i);
      (ManagedDecision(q, a, d) <==>
        d == if refusal.None? then ToDecision(ManagedAs(q, a, model, rule))
             else Decision(a.id, q.comboId, false, Some(model), refusal.value.1, None, refusal.value.0, None,
               Some(rule.id)))
  {
    hide Outcomes, ActiveMembership, ManagedModel, OneRule, Barred, WholeTier, Distinct, ServedBySlot, FromSlots;
    hide NoRule, Refusal;
    var ids := ManualIds(FromSlots(q).members);
    ManagedPart(q, model, a);
    OutcomeRead(q, ids, model, a);
    forall i: nat | OneRule(q, a, i)
      ensures i < |q.snap.rules| && WhyRefused(q, a, model, i) == Refusal(q, a, model, q.snap.rules[i], a.id in ids)
    {
      RuleExists(q, a, i);
    }
  }

  ghost function WhyRefused(q: Query, a: Account, model: string, i: nat): Option<(string, Option<real>)>
    requires i < |q.snap.rules|
  {
    Refusal(q, a, model, q.snap.rules[i], ServedBySlot(ActiveMembership(q).members, a.id))
  }

  /** Without managed mode, or without a managed model, nobody is admitted or decided by rules. */
  lemma NobodyManaged(q: Query)
    requires q.snap.assignment.mode == ManualMode || ManagedModel(q).None?
    ensures forall m :: m in ActiveMembership(q).members ==> m.source == Origin.Manual
    ensures forall d :: d in ActiveMembership(q).decisions ==> d.slotId.Some?
  {
    hide Sort, ManualPass, Candidates, DisabledDecisions, ManagedModel;
    SortedAlike(q);
    MembersByMultiset(ActiveMembership(q).members, Collected(q).members);
    MembersByMultiset(ActiveMembership(q).decisions, Collected(q).decisions);
    ManualSources(q);
  }

  /** Every managed member belongs to an account of the list. */
  lemma ManagedMembersAreAccounts(q: Query)
    ensures forall m :: m in ActiveMembership(q).members && m.source == Managed ==>
      exists a :: a in q.accounts && a.id == m.accountId
  {
    hide Sort, ManualPass, Candidates, DisabledDecisions, ManagedMembers, ManagedDecisions, ManagedModel;
    SortedAlike(q);
    MembersByMultiset(ActiveMembership(q).members, Collected(q).members);
    ManualSources(q);
    if q.snap.assignment.mode == ManagedMode && ManagedModel(q).Some? {
      var sorted := Sort(q.accounts, ByAccount(q.host.rank));
      SortPermutes(q.accounts, ByAccount(q.host.rank));
      MembersByMultiset(sorted, q.accounts);
      ManagedSources(q, ManualIds(FromSlots(q).members), ManagedModel(q).value, sorted);
    }
  }
}
