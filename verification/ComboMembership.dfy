/** Which accounts serve a model family through a combo, and why each of the others does not. */
module ComboMembership {
  import opened Units
  import opened Sorting
  import opened Seqs
  import opened ModelAliases

  // ---- the policy ----

  datatype Account = Account(id: string, provider: string, priority: real)

  datatype Slot = Slot(id: string, comboId: string, accountId: string, model: string, priority: real, enabled: bool)

  datatype Rule = Rule(id: string, comboId: string, family: Family, provider: string, routeClass: string, enabled: bool)

  datatype Exclusion = Exclusion(comboId: string, family: Family, accountId: string)

  datatype Mode = ManualMode | ManagedMode

  datatype Assignment = Assignment(
    family: Family, comboId: Option<string>, enabled: bool, mode: Mode, managedModel: Option<string>)

  datatype ComboRow = ComboRow(id: string, enabled: bool)

  datatype Snapshot = Snapshot(
    assignment: Assignment, combo: Option<ComboRow>, slots: seq<Slot>, rules: seq<Rule>, exclusions: seq<Exclusion>)

  datatype Capability = Supported | Unsupported(reason: string)

  /** What the resolver is given: the model catalog, the host's collation, and two dependencies. */
  datatype Host = Host(
    latest: Family -> string,
    rank: string -> real,
    routeClass: Account -> Option<string>,
    capability: (Account, string) -> Capability)

  // ---- the result ----

  datatype Origin = Manual | Managed

  datatype Member = Member(
    id: string, accountId: string, comboId: string, logicalModel: string, tier: real, source: Origin,
    slotId: Option<string>, ruleId: Option<string>)

  datatype Decision = Decision(
    accountId: string, comboId: string, included: bool, logicalModel: Option<string>, tier: Option<real>,
    source: Option<Origin>, reason: string, slotId: Option<string>, ruleId: Option<string>)

  datatype Resolution = Resolution(
    comboId: Option<string>, active: bool, reason: string, members: seq<Member>, decisions: seq<Decision>)

  function ToDecision(m: Member): Decision {
    Decision(m.accountId, m.comboId, true, Some(m.logicalModel), Some(m.tier), Some(m.source), "included", m.slotId,
      m.ruleId)
  }

  function Rejection(
    comboId: string, accountId: string, reason: string, model: Option<string>, tier: Option<real>,
    slotId: Option<string>, ruleId: Option<string>): Decision
  {
    Decision(accountId, comboId, false, model, tier, None, reason, slotId, ruleId)
  }

  // ---- the comparators ----

  predicate LeMember(rank: string -> real, a: Member, b: Member) {
    a.tier < b.tier || (a.tier == b.tier &&
      ((a.source == Manual && b.source == Managed) || (a.source == b.source && rank(a.id) <= rank(b.id))))
  }

  function OrEmpty(s: Option<string>): string { if s.Some? then s.value else "" }

  predicate LeDecision(rank: string -> real, a: Decision, b: Decision) {
    var a1, b1 := rank(a.accountId), rank(b.accountId);
    var a2, b2 := rank(OrEmpty(a.slotId)), rank(OrEmpty(b.slotId));
    var a3, b3 := rank(OrEmpty(a.ruleId)), rank(OrEmpty(b.ruleId));
    a1 < b1 || (a1 == b1 && (a2 < b2 || (a2 == b2 && (a3 < b3 || (a3 == b3 && rank(a.reason) <= rank(b.reason))))))
  }

  function ByMember(rank: string -> real): (Member, Member) -> bool { (a, b) => LeMember(rank, a, b) }
  function ByCandidate(rank: string -> real): (Candidate, Candidate) -> bool {
    (a: Candidate, b: Candidate) => LeMember(rank, a.member, b.member)
  }
  function ByDecision(rank: string -> real): (Decision, Decision) -> bool { (a, b) => LeDecision(rank, a, b) }
  function ByAccount(rank: string -> real): (Account, Account) -> bool {
    (a: Account, b: Account) => rank(a.id) <= rank(b.id)
  }

  // ---- manual slots ----

  /** One resolution under way: the policy, the accounts, the host, the combo and the client's model. */
  datatype Query = Query(snap: Snapshot, accounts: seq<Account>, host: Host, comboId: string, requested: Option<string>)

  /** A slot's member, and the decision that rejects it if its substituted model is not supported. */
  datatype Candidate = Candidate(member: Member, rejected: Option<Decision>)

  function AccountById(accounts: seq<Account>, id: string): Option<Account> {
    if accounts == [] then None
    else if accounts[|accounts| - 1].id == id then Some(accounts[|accounts| - 1])
    else AccountById(accounts[..|accounts| - 1], id)
  }

  function CreateManual(q: Query, slot: Slot): Candidate {
    var plain := ResolveStoredAlias(slot.model, None, q.host.latest);
    var model := ResolveStoredAlias(slot.model, q.requested, q.host.latest);
    var member := Member("combo:" + slot.comboId + ":slot:" + slot.id, slot.accountId, slot.comboId, model,
                         slot.priority, Manual, Some(slot.id), None);
    if model == plain then Candidate(member, None) else
    var account := AccountById(q.accounts, slot.accountId);
    if account.None? then Candidate(member, None) else
    match q.host.capability(account.value, model)
    case Supported => Candidate(member, None)
    case Unsupported(reason) =>
      Candidate(member, Some(Rejection(q.comboId, slot.accountId, reason, Some(model), Some(slot.priority),
        Some(slot.id), None)))
  }

  function EnabledSlot(q: Query, slot: Slot): seq<Candidate> {
    if slot.enabled && slot.comboId == q.comboId then [CreateManual(q, slot)] else []
  }

  function Unsorted(q: Query): seq<Candidate> { FlatMap((slot: Slot) => EnabledSlot(q, slot), q.snap.slots) }

  function Candidates(q: Query): seq<Candidate> { Sort(Unsorted(q), ByCandidate(q.host.rank)) }

  datatype Pass = Pass(members: seq<Member>, decisions: seq<Decision>)

  predicate SameRoute(a: Member, b: Member) { a.accountId == b.accountId && a.logicalModel == b.logicalModel }

  predicate Taken(members: seq<Member>, m: Member) { exists k :: 0 <= k < |members| && SameRoute(members[k], m) }

  /** Keep the first candidate of each account and model; every candidate leaves one decision. */
  function ManualPass(comboId: string, cands: seq<Candidate>): Pass {
    if cands == [] then Pass([], []) else
    var n := |cands| - 1;
    var p := ManualPass(comboId, cands[..n]);
    var Candidate(m, rejected) := cands[n];
    if rejected.Some? then Pass(p.members, p.decisions + [rejected.value])
    else if Taken(p.members, m) then
      Pass(p.members, p.decisions +
           [Rejection(comboId, m.accountId, "manual_override", Some(m.logicalModel), Some(m.tier), m.slotId, None)])
    else Pass(p.members + [m], p.decisions + [ToDecision(m)])
  }

  function DisabledSlot(comboId: string, slot: Slot): seq<Decision> {
    if !slot.enabled && slot.comboId == comboId
    then [Rejection(comboId, slot.accountId, "disabled", None, None, Some(slot.id), None)] else []
  }

  function DisabledDecisions(q: Query): seq<Decision> {
    FlatMap((slot: Slot) => DisabledSlot(q.comboId, slot), q.snap.slots)
  }

  // ---- managed accounts ----

  function ManagedModel(q: Query): Option<string> {
    var a := q.snap.assignment;
    var raw := if a.managedModel.Some? then a.managedModel.value else q.host.latest(a.family);
    var model := ResolveFamilyAlias(raw, a.family, q.requested, q.host.latest);
    if ModelFamily(model) == Some(a.family) then Some(model) else None
  }

  predicate RuleApplies(q: Query, rule: Rule, provider: string, routeClass: string) {
    && rule.comboId == q.comboId && rule.family == q.snap.assignment.family
    && rule.provider == provider && rule.routeClass == routeClass
  }

  function ApplicableRule(q: Query, rule: Rule, provider: string, routeClass: string): seq<Rule> {
    if RuleApplies(q, rule, provider, routeClass) then [rule] else []
  }

  function RulesAmong(q: Query, rules: seq<Rule>, provider: string, routeClass: string): seq<Rule> {
    FlatMap((rule: Rule) => ApplicableRule(q, rule, provider, routeClass), rules)
  }

  function MatchingRules(q: Query, provider: string, routeClass: string): seq<Rule> {
    RulesAmong(q, q.snap.rules, provider, routeClass)
  }

  predicate IsExcluded(q: Query, accountId: string) {
    exists k :: 0 <= k < |q.snap.exclusions| && Excludes(q, q.snap.exclusions[k], accountId)
  }

  predicate Excludes(q: Query, e: Exclusion, accountId: string) {
    e.comboId == q.comboId && e.family == q.snap.assignment.family && e.accountId == accountId
  }

  predicate IsManagedTier(x: real) { x.Floor as real == x && 0.0 <= x <= 100.0 }

  function ManagedMemberId(q: Query, rule: Rule, a: Account): string {
    "combo:" + q.comboId + ":managed:" + Name(q.snap.assignment.family) + ":rule:" + rule.id + ":account:" + a.id
  }

  datatype Outcome = NoRule | Refused(d: Decision) | Admitted(m: Member)

  /** What becomes of one account, given the accounts that manual slots already serve. */
  function Outcomes(q: Query, manualIds: set<string>, model: string, a: Account): Outcome {
    var routeClass := q.host.routeClass(a);
    if routeClass.None? then NoRule else
    var rules := MatchingRules(q, a.provider, routeClass.value);
    if rules == [] then NoRule
    else if |rules| > 1 then Refused(Rejection(q.comboId, a.id, "ambiguous", Some(model), Some(a.priority), None, None))
    else
      var rule := rules[0];
      if !rule.enabled then
        Refused(Rejection(q.comboId, a.id, "disabled", Some(model), Some(a.priority), None, Some(rule.id)))
      else if a.id in manualIds then
        Refused(Rejection(q.comboId, a.id, "manual_override", Some(model), Some(a.priority), None, Some(rule.id)))
      else if IsExcluded(q, a.id) then
        Refused(Rejection(q.comboId, a.id, "excluded", Some(model), Some(a.priority), None, Some(rule.id)))
      else if !IsManagedTier(a.priority) then
        Refused(Rejection(q.comboId, a.id, "ambiguous", Some(model), None, None, Some(rule.id)))
      else
        match q.host.capability(a, model)
        case Unsupported(reason) =>
          Refused(Rejection(q.comboId, a.id, reason, Some(model), Some(a.priority), None, Some(rule.id)))
        case Supported =>
          Admitted(Member(ManagedMemberId(q, rule, a), a.id, q.comboId, model, a.priority, Managed, None,
            Some(rule.id)))
  }

  function OutcomeMembers(o: Outcome): seq<Member> { if o.Admitted? then [o.m] else [] }

  function OutcomeDecisions(o: Outcome): seq<Decision> {
    match o case NoRule => [] case Refused(d) => [d] case Admitted(m) => [ToDecision(m)]
  }

  function ManualIds(members: seq<Member>): set<string> { set m | m in members :: m.accountId }

  function ManagedMembers(q: Query, manualIds: set<string>, model: string, accounts: seq<Account>): seq<Member> {
    FlatMap((a: Account) => OutcomeMembers(Outcomes(q, manualIds, model, a)), accounts)
  }

  function ManagedDecisions(q: Query, manualIds: set<string>, model: string, accounts: seq<Account>): seq<Decision> {
    FlatMap((a: Account) => OutcomeDecisions(Outcomes(q, manualIds, model, a)), accounts)
  }

  // ---- the resolution ----

  /** Members and decisions before the final sort. */
  function Collected(q: Query): Pass {
    var manual := ManualPass(q.comboId, Candidates(q));
    var decisions := manual.decisions + DisabledDecisions(q);
    if q.snap.assignment.mode == ManualMode then Pass(manual.members, decisions) else
    var model := ManagedModel(q);
    if model.None? then Pass(manual.members, decisions) else
    var accounts := Sort(q.accounts, ByAccount(q.host.rank));
    var ids := ManualIds(manual.members);
    Pass(manual.members + ManagedMembers(q, ids, model.value, accounts),
         decisions + ManagedDecisions(q, ids, model.value, accounts))
  }

  function ActiveMembership(q: Query): Resolution {
    var p := Collected(q);
    var reason := if q.snap.assignment.mode == ManagedMode && ManagedModel(q).None? then "ambiguous" else "included";
    Resolution(Some(q.comboId), true, reason, Sort(p.members, ByMember(q.host.rank)),
      Sort(p.decisions, ByDecision(q.host.rank)))
  }

  predicate IsActive(snap: Snapshot) {
    && snap.assignment.enabled && snap.assignment.comboId.Some? && snap.assignment.comboId.value != ""
    && snap.combo.Some? && snap.combo.value.enabled && snap.combo.value.id == snap.assignment.comboId.value
  }

  function InactiveComboId(snap: Snapshot): string {
    if snap.assignment.comboId.Some? then snap.assignment.comboId.value
    else if snap.combo.Some? then snap.combo.value.id else ""
  }

  function InactiveDecisions(snap: Snapshot): seq<Decision> {
    FlatMap((slot: Slot) =>
        [Rejection(InactiveComboId(snap), slot.accountId, "disabled", None, None, Some(slot.id), None)], snap.slots)
  }

  /** Resolve with the client's model; if that leaves nobody, resolve once more without it. */
  function Resolve(snap: Snapshot, accounts: seq<Account>, host: Host, requested: Option<string>): Resolution {
    if !IsActive(snap) then
      Resolution(snap.assignment.comboId, false, "disabled", [], Sort(InactiveDecisions(snap), ByDecision(host.rank)))
    else
      var comboId := snap.assignment.comboId.value;
      var primary := ActiveMembership(Query(snap, accounts, host, comboId, requested));
      if requested.Some? && requested.value != "" && primary.members == []
      then ActiveMembership(Query(snap, accounts, host, comboId, None))
      else primary
  }
}
