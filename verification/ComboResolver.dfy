/** The resolver as its callers run it: lists, sets and a table of rules filled by loops. */
module ComboResolver {
  import opened Units
  import opened Sorting
  import opened Seqs
  import opened ComboMembership
  import opened ComboDecisions

  function RouteSet(ms: seq<Member>): set<(string, string)> { set m | m in ms :: Route(m) }

  lemma TakenIsInRouteSet(ms: seq<Member>, m: Member)
    ensures Taken(ms, m) <==> Route(m) in RouteSet(ms)
  {
    if k :| 0 <= k < |ms| && SameRoute(ms[k], m) { assert ms[k] in ms && Route(ms[k]) == Route(m); }
    if Route(m) in RouteSet(ms) {
      var x :| x in ms && Route(x) == Route(m);
      var k :| 0 <= k < |ms| && ms[k] == x;
      assert SameRoute(ms[k], m);
    }
  }

  /** The loop over the sorted manual resolutions. */
  method DecideManual(comboId: string, resolutions: seq<Candidate>)
    returns (members: seq<Member>, decisions: seq<Decision>)
    ensures Pass(members, decisions) == ManualPass(comboId, resolutions)
  {
    members, decisions := [], [];
    var seen: set<(string, string)> := {};
    for k := 0 to |resolutions|
      invariant Pass(members, decisions) == ManualPass(comboId, resolutions[..k])
      invariant seen == RouteSet(members)
    {
      hide Taken;
      var Candidate(candidate, rejected) := resolutions[k];
      assert resolutions[..k + 1][..k] == resolutions[..k];
      TakenIsInRouteSet(members, candidate);
      if rejected.Some? {
        decisions := decisions + [rejected.value];
        continue;
      }
      if Route(candidate) in seen {
        decisions := decisions +
          [Rejection(comboId, candidate.accountId, "manual_override", Some(candidate.logicalModel),
                     Some(candidate.tier), candidate.slotId, None)];
        continue;
      }
      seen := seen + {Route(candidate)};
      members := members + [candidate];
      decisions := decisions + [ToDecision(candidate)];
    }
    assert resolutions[..|resolutions|] == resolutions;
  }

  method DecideDisabled(q: Query, before: seq<Decision>) returns (decisions: seq<Decision>)
    ensures decisions == before + DisabledDecisions(q)
  {
    decisions := before;
    for k := 0 to |q.snap.slots|
      invariant decisions == before + FlatMap((slot: Slot) => DisabledSlot(q.comboId, slot), q.snap.slots[..k])
    {
      var slot := q.snap.slots[k];
      assert q.snap.slots[..k + 1] == q.snap.slots[..k] + [slot];
      FlatMapLast((s: Slot) => DisabledSlot(q.comboId, s), q.snap.slots[..k], slot);
      if !slot.enabled && slot.comboId == q.comboId {
        decisions := decisions + [Rejection(q.comboId, slot.accountId, "disabled", None, None, Some(slot.id), None)];
      }
    }
    assert q.snap.slots[..|q.snap.slots|] == q.snap.slots;
  }

  function Lookup(table: map<(string, string), seq<Rule>>, provider: string, routeClass: string): seq<Rule> {
    if (provider, routeClass) in table then table[(provider, routeClass)] else []
  }

  /** The rules of the combo and family, grouped by provider and route class. */
  method GroupRules(q: Query) returns (table: map<(string, string), seq<Rule>>)
    ensures forall p, c :: Lookup(table, p, c) == MatchingRules(q, p, c)
  {
    table := map[];
    for k := 0 to |q.snap.rules|
      invariant forall p, c :: Lookup(table, p, c) == RulesAmong(q, q.snap.rules[..k], p, c)
    {
      var rule := q.snap.rules[k];
      forall p, c
        ensures RulesAmong(q, q.snap.rules[..k + 1], p, c) ==
          RulesAmong(q, q.snap.rules[..k], p, c) + ApplicableRule(q, rule, p, c)
      {
        assert q.snap.rules[..k + 1] == q.snap.rules[..k] + [rule];
        FlatMapLast((r: Rule) => ApplicableRule(q, r, p, c), q.snap.rules[..k], rule);
      }
      if rule.comboId != q.comboId || rule.family != q.snap.assignment.family { continue; }
      var key := (rule.provider, rule.routeClass);
      if key in table {
        table := table[key := table[key] + [rule]];
      } else {
        table := table[key := [rule]];
      }
    }
    assert q.snap.rules[..|q.snap.rules|] == q.snap.rules;
  }

  function ExcludedIds(q: Query): set<string> {
    set e | e in q.snap.exclusions && e.comboId == q.comboId && e.family == q.snap.assignment.family :: e.accountId
  }

  lemma ExcludedIdsAre(q: Query, id: string)
    ensures id in ExcludedIds(q) <==> IsExcluded(q, id)
  {
    if k :| 0 <= k < |q.snap.exclusions| && Excludes(q, q.snap.exclusions[k], id) {
      assert q.snap.exclusions[k] in q.snap.exclusions;
    }
    if id in ExcludedIds(q) {
      var e :| e in q.snap.exclusions && e.comboId == q.comboId && e.family == q.snap.assignment.family
        && e.accountId == id;
      var k :| 0 <= k < |q.snap.exclusions| && q.snap.exclusions[k] == e;
      assert Excludes(q, q.snap.exclusions[k], id);
    }
  }

  /** One round of the loop over the accounts. */
  method DecideAccount(
    q: Query, table: map<(string, string), seq<Rule>>, manualIds: set<string>, excludedIds: set<string>,
      model: string, a: Account)
    returns (o: Outcome)
    requires excludedIds == ExcludedIds(q) && forall p, c :: Lookup(table, p, c) == MatchingRules(q, p, c)
    ensures o == Outcomes(q, manualIds, model, a)
  {
    hide MatchingRules, IsExcluded, ExcludedIds, IsManagedTier;
    ExcludedIdsAre(q, a.id);
    var routeClass := q.host.routeClass(a);
    if routeClass.None? { return NoRule; }
    var rules := Lookup(table, a.provider, routeClass.value);
    if |rules| == 0 { return NoRule; }
    if |rules| > 1 {
      return Refused(Rejection(q.comboId, a.id, "ambiguous", Some(model), Some(a.priority), None, None));
    }
    var rule := rules[0];
    if !rule.enabled {
      return Refused(Rejection(q.comboId, a.id, "disabled", Some(model), Some(a.priority), None, Some(rule.id)));
    }
    if a.id in manualIds {
      return Refused(Rejection(q.comboId, a.id, "manual_override", Some(model), Some(a.priority), None, Some(rule.id)));
    }
    if a.id in excludedIds {
      return Refused(Rejection(q.comboId, a.id, "excluded", Some(model), Some(a.priority), None, Some(rule.id)));
    }
    if !IsManagedTier(a.priority) {
      return Refused(Rejection(q.comboId, a.id, "ambiguous", Some(model), None, None, Some(rule.id)));
    }
    var capability := q.host.capability(a, model);
    if capability.Unsupported? {
      return Refused(Rejection(q.comboId, a.id, capability.reason, Some(model), Some(a.priority), None, Some(rule.id)));
    }
    return Admitted(Member(ManagedMemberId(q, rule, a), a.id, q.comboId, model, a.priority, Managed, None,
      Some(rule.id)));
  }

  /** The loop over the sorted accounts. */
  method DecideManaged(q: Query, manual: seq<Member>, model: string, accounts: seq<Account>)
    returns (members: seq<Member>, decisions: seq<Decision>)
    ensures members == ManagedMembers(q, ManualIds(manual), model, accounts)
    ensures decisions == ManagedDecisions(q, ManualIds(manual), model, accounts)
  {
    hide Outcomes, ExcludedIds, MatchingRules;
    var manualIds := ManualIds(manual);
    var excludedIds := ExcludedIds(q);
    var table := GroupRules(q);
    members, decisions := [], [];
    for k := 0 to |accounts|
      invariant members == ManagedMembers(q, manualIds, model, accounts[..k])
      invariant decisions == ManagedDecisions(q, manualIds, model, accounts[..k])
    {
      var current := accounts[k];
      assert accounts[..k + 1] == accounts[..k] + [current];
      FlatMapLast((a: Account) => OutcomeMembers(Outcomes(q, manualIds, model, a)), accounts[..k], current);
      FlatMapLast((a: Account) => OutcomeDecisions(Outcomes(q, manualIds, model, a)), accounts[..k], current);
      var outcome := DecideAccount(q, table, manualIds, excludedIds, model, current);
      members := members + OutcomeMembers(outcome);
      decisions := decisions + OutcomeDecisions(outcome);
    }
    assert accounts[..|accounts|] == accounts;
  }

  method ComputeActiveMembership(q: Query) returns (r: Resolution)
    ensures r == ActiveMembership(q)
  {
    hide Sort, ManualPass, DisabledDecisions, ManagedMembers, ManagedDecisions, Candidates, ManagedModel;
    var rank := q.host.rank;
    var members, decisions := DecideManual(q.comboId, Candidates(q));
    decisions := DecideDisabled(q, decisions);
    if q.snap.assignment.mode == ManualMode {
      return Resolution(Some(q.comboId), true, "included", Sort(members, ByMember(rank)),
        Sort(decisions, ByDecision(rank)));
    }
    var model := ManagedModel(q);
    if model.None? {
      return Resolution(Some(q.comboId), true, "ambiguous", Sort(members, ByMember(rank)),
        Sort(decisions, ByDecision(rank)));
    }
    var managed, refused := DecideManaged(q, members, model.value, Sort(q.accounts, ByAccount(rank)));
    members, decisions := members + managed, decisions + refused;
    r := Resolution(Some(q.comboId), true, "included", Sort(members, ByMember(rank)),
      Sort(decisions, ByDecision(rank)));
  }

  method ResolveEffectiveComboMembership(snap: Snapshot, accounts: seq<Account>, host: Host, requested: Option<string>)
    returns (r: Resolution)
    ensures r == Resolve(snap, accounts, host, requested)
  {
    hide ActiveMembership, Sort;
    if !IsActive(snap) {
      return Resolution(snap.assignment.comboId, false, "disabled", [],
        Sort(InactiveDecisions(snap), ByDecision(host.rank)));
    }
    var comboId := snap.assignment.comboId.value;
    r := ComputeActiveMembership(Query(snap, accounts, host, comboId, requested));
    if requested.Some? && requested.value != "" && |r.members| == 0 {
      r := ComputeActiveMembership(Query(snap, accounts, host, comboId, None));
    }
  }
}
