/** What becomes of every manual slot of a combo, in what order members and decisions come, and when to ask again. */
module ComboSlots {
  import opened Units
  import opened Sorting
  import opened Seqs
  import opened ModelAliases
  import opened AliasResolution
  import opened ComboMembership
  import opened ComboDecisions
  import opened ComboOrder
  import opened ComboAdmission

  // ---- the policy, read directly ----

  /** The model a slot stands for, with the client's model in the place of an alias. */
  function SlotModel(q: Query, s: Slot): string { ResolveStoredAlias(s.model, q.requested, q.host.latest) }

  /** The client's model takes the place of the slot's alias, and the account cannot serve it. */
  ghost predicate Blocked(q: Query, s: Slot, reason: string) {
    && SlotModel(q, s) != ResolveStoredAlias(s.model, None, q.host.latest)
    && exists a ::
         a in q.accounts && a.id == s.accountId && q.host.capability(a, SlotModel(q, s)) == Unsupported(reason)
  }

  /** A slot that could serve. */
  ghost predicate Live(q: Query, s: Slot) {
    s in q.snap.slots && s.enabled && s.comboId == q.comboId && forall reason :: !Blocked(q, s, reason)
  }

  function SlotMember(q: Query, s: Slot): Member {
    Member("combo:" + s.comboId + ":slot:" + s.id, s.accountId, s.comboId, SlotModel(q, s), s.priority, Origin.Manual,
           Some(s.id), None)
  }

  /** Slots for the same account and model. */
  predicate OneRoute(q: Query, s: Slot, t: Slot) { s.accountId == t.accountId && SlotModel(q, s) == SlotModel(q, t) }

  /** By tier, then by the place of the id in the collation. */
  predicate NoLater(q: Query, s: Slot, t: Slot) {
    || s.priority < t.priority
    || (s.priority == t.priority && q.host.rank(SlotMember(q, s).id) <= q.host.rank(SlotMember(q, t).id))
  }

  ghost predicate DistinctIds(q: Query) {
    && (forall i, j :: 0 <= i < j < |q.snap.slots| ==> q.snap.slots[i].id != q.snap.slots[j].id)
    && (forall i, j :: 0 <= i < j < |q.accounts| ==> q.accounts[i].id != q.accounts[j].id)
  }

  lemma SameSlot(q: Query, s: Slot, t: Slot)
    requires DistinctIds(q) && s in q.snap.slots && t in q.snap.slots && s.id == t.id
    ensures s == t
  {
    var i :| 0 <= i < |q.snap.slots| && q.snap.slots[i] == s;
    var j :| 0 <= j < |q.snap.slots| && q.snap.slots[j] == t;
  }

  // ---- one slot ----

  function Blocking(q: Query, s: Slot, reason: string): Decision {
    Decision(s.accountId, q.comboId, false, Some(SlotModel(q, s)), Some(s.priority), None, reason, Some(s.id), None)
  }

  /** What the resolver makes of an enabled slot. */
  lemma CreateMeans(q: Query, s: Slot)
    requires DistinctIds(q)
    ensures CreateManual(q, s).member == SlotMember(q, s)
    ensures forall reason :: Blocked(q, s, reason) ==> CreateManual(q, s).rejected == Some(Blocking(q, s, reason))
    ensures (forall reason :: !Blocked(q, s, reason)) ==> CreateManual(q, s).rejected.None?
  {
    hide AccountById, ResolveStoredAlias;
    AccountByIdFinds(q.accounts, s.accountId);
    var found := AccountById(q.accounts, s.accountId);
    forall a | a in q.accounts && a.id == s.accountId ensures found == Some(a) {
      var k :| 0 <= k < |q.accounts| && q.accounts[k] == a;
      var j :| 0 <= j < |q.accounts| && q.accounts[j] == found.value;
    }
    if CreateManual(q, s).rejected.Some? {
      assert Blocked(q, s, q.host.capability(found.value, SlotModel(q, s)).reason);
    }
  }

  // ---- the pass over the candidates ----

  ghost predicate TakenBefore(cs: seq<Candidate>, k: nat)
    requires k < |cs|
  {
    exists j :: 0 <= j < k && cs[j].rejected.None? && SameRoute(cs[j].member, cs[k].member)
  }

  ghost predicate Kept(cs: seq<Candidate>, k: nat) {
    k < |cs| && cs[k].rejected.None? && !TakenBefore(cs, k)
  }

  ghost function DecisionAt(comboId: string, cs: seq<Candidate>, k: nat): Decision
    requires k < |cs|
  {
    var m := cs[k].member;
    if cs[k].rejected.Some? then cs[k].rejected.value
    else if TakenBefore(cs, k)
    then Decision(m.accountId, comboId, false, Some(m.logicalModel), Some(m.tier), None, "manual_override", m.slotId,
                  None)
    else ToDecision(m)
  }

  lemma PrefixAlike(comboId: string, cs: seq<Candidate>, c: Candidate, k: nat)
    requires k < |cs|
    ensures DecisionAt(comboId, cs + [c], k) == DecisionAt(comboId, cs, k) && (Kept(cs + [c], k) <==> Kept(cs, k))
  {
    var all := cs + [c];
    assert forall j :: 0 <= j < |cs| ==> all[j] == cs[j];
    if TakenBefore(cs, k) {
      var j :| 0 <= j < k && cs[j].rejected.None? && SameRoute(cs[j].member, cs[k].member);
      assert all[j].rejected.None?;
    }
    if TakenBefore(all, k) {
      var j :| 0 <= j < k && all[j].rejected.None? && SameRoute(all[j].member, all[k].member);
      assert cs[j].rejected.None?;
    }
  }

  /** A route that a live candidate has is kept for the first of them. */
  lemma {:induction false} FirstIsKept(cs: seq<Candidate>, k: nat) returns (j: nat)
    requires k < |cs| && cs[k].rejected.None?
    ensures j <= k && Kept(cs, j) && SameRoute(cs[j].member, cs[k].member)
  {
    j := k;
    if TakenBefore(cs, k) {
      var i :| 0 <= i < k && cs[i].rejected.None? && SameRoute(cs[i].member, cs[k].member);
      j := FirstIsKept(cs, i);
    }
  }

  ghost predicate KeptMember(cs: seq<Candidate>, m: Member) { exists k: nat :: Kept(cs, k) && cs[k].member == m }

  lemma TakenMeans(cs: seq<Candidate>, c: Candidate, members: seq<Member>)
    requires forall m :: m in members <==> KeptMember(cs, m)
    ensures Taken(members, c.member) <==> TakenBefore(cs + [c], |cs|)
  {
    var all := cs + [c];
    assert all[|cs|] == c && forall j :: 0 <= j < |cs| ==> all[j] == cs[j];
    if Taken(members, c.member) {
      var i :| 0 <= i < |members| && SameRoute(members[i], c.member);
      assert members[i] in members;
      var k: nat :| Kept(cs, k) && cs[k].member == members[i];
      assert all[k].rejected.None?;
    }
    if TakenBefore(all, |cs|) {
      var j :| 0 <= j < |cs| && all[j].rejected.None? && SameRoute(all[j].member, c.member);
      var k := FirstIsKept(cs, j);
      assert KeptMember(cs, cs[k].member);
      var i :| 0 <= i < |members| && members[i] == cs[k].member;
      assert SameRoute(members[i], c.member);
    }
  }

  lemma KeptLast(cs: seq<Candidate>, c: Candidate, m: Member)
    ensures KeptMember(cs + [c], m) <==>
      KeptMember(cs, m) || (c.member == m && c.rejected.None? && !TakenBefore(cs + [c], |cs|))
  {
    hide TakenBefore;
    var all := cs + [c];
    assert all[|cs|] == c && forall j :: 0 <= j < |cs| ==> all[j] == cs[j];
    forall k: nat | k < |cs| ensures Kept(all, k) <==> Kept(cs, k) { PrefixAlike("", cs, c, k); }
    if k: nat :| Kept(cs, k) && cs[k].member == m { assert Kept(all, k) && all[k].member == m; }
    if k: nat :| Kept(all, k) && all[k].member == m {
      if k < |cs| { assert Kept(cs, k) && cs[k].member == m; }
    }
    if c.member == m && c.rejected.None? && !TakenBefore(all, |cs|) { assert Kept(all, |cs|); }
  }

  /** Candidate by candidate: one decision each, and a member for the first live one of each route. */
  lemma {:induction false} PassMeans(comboId: string, cs: seq<Candidate>)
    ensures var p := ManualPass(comboId, cs);
      && |p.decisions| == |cs| && (forall k :: 0 <= k < |cs| ==> p.decisions[k] == DecisionAt(comboId, cs, k))
      && forall m :: m in p.members <==> KeptMember(cs, m)
    decreases |cs|
  {
    hide KeptMember, TakenBefore, DecisionAt, Taken;
    if cs == [] {
      NothingKept();
    } else {
      var front, c := cs[..|cs| - 1], cs[|cs| - 1];
      assert cs == front + [c];
      PassMeans(comboId, front);
      var p := ManualPass(comboId, front);
      TakenMeans(front, c, p.members);
      forall k | 0 <= k < |front| ensures DecisionAt(comboId, cs, k) == DecisionAt(comboId, front, k) {
        PrefixAlike(comboId, front, c, k);
      }
      forall m ensures KeptMember(cs, m) <==>
        KeptMember(front, m) || (c.member == m && c.rejected.None? && !TakenBefore(cs, |front|)) {
        KeptLast(front, c, m);
      }
      LastDecision(comboId, cs);
    }
  }

  lemma NothingKept()
    ensures forall m :: !KeptMember([], m)
  {}

  lemma LastDecision(comboId: string, cs: seq<Candidate>)
    requires cs != []
    ensures var n := |cs| - 1; var m := cs[n].member;
      DecisionAt(comboId, cs, n) ==
        if cs[n].rejected.Some? then cs[n].rejected.value
        else if TakenBefore(cs, n)
        then Rejection(comboId, m.accountId, "manual_override", Some(m.logicalModel), Some(m.tier), m.slotId, None)
        else ToDecision(m)
  {}

  // ---- candidates and slots ----

  predicate IsCandidate(q: Query, s: Slot) { s in q.snap.slots && s.enabled && s.comboId == q.comboId }

  lemma CandidateFrom(q: Query, c: Candidate)
    ensures c in Candidates(q) <==> exists s :: IsCandidate(q, s) && c == CreateManual(q, s)
  {
    hide Sort, FlatMap, CreateManual;
    var f := (slot: Slot) => EnabledSlot(q, slot);
    SortPermutes(Unsorted(q), ByCandidate(q.host.rank));
    MembersByMultiset(Candidates(q), Unsorted(q));
    FlatMapMember(f, q.snap.slots, c);
    if c in Candidates(q) {
      var k :| 0 <= k < |q.snap.slots| && c in f(q.snap.slots[k]);
      assert IsCandidate(q, q.snap.slots[k]);
    }
    if s :| IsCandidate(q, s) && c == CreateManual(q, s) {
      var k :| 0 <= k < |q.snap.slots| && q.snap.slots[k] == s;
      assert c in f(q.snap.slots[k]);
    }
  }

  /** No two candidates are about one slot. */
  lemma CandidatesOnce(q: Query, i: nat, j: nat)
    requires DistinctIds(q) && i < j < |Candidates(q)|
    ensures Candidates(q)[i].member.slotId != Candidates(q)[j].member.slotId
  {
    hide Sort, FlatMap, CreateManual;
    var cs := Candidates(q);
    CandidatesAreOk(q);
    EnabledAndDisabled(q, q.snap.slots);
    FlatMapPermutes(CandidateSlot, cs, Unsorted(q));
    ComboIdsDistinct(q.comboId, q.snap.slots);
    WithinDistinct(FlatMap(CandidateSlot, cs), ComboSlotIds(q.comboId, q.snap.slots));
    assert CandidateOk(cs[i]) && CandidateOk(cs[j]);
    DistinctPieces(CandidateSlot, cs, i, j, cs[i].member.slotId.value);
  }

  lemma PlaceOf(q: Query, s: Slot) returns (k: nat)
    requires DistinctIds(q) && IsCandidate(q, s)
    ensures k < |Candidates(q)| && Candidates(q)[k] == CreateManual(q, s)
    ensures forall j :: 0 <= j < |Candidates(q)| && Candidates(q)[j].member.slotId == Some(s.id) ==> j == k
  {
    hide Candidates, CreateManual;
    CandidateFrom(q, CreateManual(q, s));
    CreateMeans(q, s);
    k :| 0 <= k < |Candidates(q)| && Candidates(q)[k] == CreateManual(q, s);
    forall j | 0 <= j < |Candidates(q)| && Candidates(q)[j].member.slotId == Some(s.id) ensures j == k {
      if j < k { CandidatesOnce(q, j, k); }
      if k < j { CandidatesOnce(q, k, j); }
    }
  }

  /** A candidate without rejection is a live slot. */
  lemma LiveMeans(q: Query, s: Slot)
    requires DistinctIds(q) && IsCandidate(q, s)
    ensures Live(q, s) <==> CreateManual(q, s).rejected.None?
  {
    hide CreateManual, Blocked;
    CreateMeans(q, s);
  }

  // ---- members that come from slots ----

  lemma KeptIs(q: Query, s: Slot, k: nat)
    requires DistinctIds(q) && IsCandidate(q, s)
    requires k < |Candidates(q)| && Candidates(q)[k] == CreateManual(q, s)
    ensures KeptMember(Candidates(q), SlotMember(q, s)) <==> Kept(Candidates(q), k)
  {
    hide Candidates, CreateManual, TakenBefore;
    CreateMeans(q, s);
    var place := PlaceOf(q, s);
    var cs, m := Candidates(q), SlotMember(q, s);
    if KeptMember(cs, m) {
      var i: nat :| Kept(cs, i) && cs[i].member == m;
      assert i == place == k;
    }
  }

  /** The members a resolution has from slots. */
  lemma SlotMembers(q: Query, m: Member)
    ensures m in ActiveMembership(q).members && m.source == Origin.Manual <==> KeptMember(Candidates(q), m)
  {
    hide Sort, ManualPass, Candidates, DisabledDecisions, ManagedMembers, ManagedDecisions, ManagedModel, KeptMember;
    SortedAlike(q);
    MembersByMultiset(ActiveMembership(q).members, Collected(q).members);
    ManualSources(q);
    PassMeans(q.comboId, Candidates(q));
    if q.snap.assignment.mode == ManagedMode && ManagedModel(q).Some? {
      var accounts := Sort(q.accounts, ByAccount(q.host.rank));
      ManagedSources(q, ManualIds(FromSlots(q).members), ManagedModel(q).value, accounts);
    }
  }

  lemma SlotDecisions(q: Query, d: Decision)
    ensures d in ActiveMembership(q).decisions && d.slotId.Some? <==>
      d in DisabledDecisions(q) || exists k :: 0 <= k < |Candidates(q)| && d == DecisionAt(q.comboId, Candidates(q), k)
  {
    hide Sort, ManualPass, Candidates, DisabledDecisions, ManagedMembers, ManagedDecisions, ManagedModel, DecisionAt;
    SortedAlike(q);
    MembersByMultiset(ActiveMembership(q).decisions, Collected(q).decisions);
    ManualSources(q);
    PassMeans(q.comboId, Candidates(q));
    var cs, ds := Candidates(q), FromSlots(q).decisions;
    assert d in ds <==> exists k :: 0 <= k < |cs| && d == DecisionAt(q.comboId, cs, k) by {
      if d in ds { var k :| 0 <= k < |ds| && ds[k] == d; }
      if k :| 0 <= k < |cs| && d == DecisionAt(q.comboId, cs, k) { assert ds[k] == d; }
    }
    if q.snap.assignment.mode == ManagedMode && ManagedModel(q).Some? {
      var accounts := Sort(q.accounts, ByAccount(q.host.rank));
      ManagedSources(q, ManualIds(FromSlots(q).members), ManagedModel(q).value, accounts);
    }
    assert d in FromSlots(q).decisions + DisabledDecisions(q) ==> d.slotId.Some?;
  }

  // ---- what becomes of a slot ----

  /** The one decision about a slot: disabled, blocked, included, or overridden by a slot on the same route. */
  ghost predicate IsSlotDecision(q: Query, members: seq<Member>, s: Slot, d: Decision) {
    if !s.enabled then d == Decision(s.accountId, q.comboId, false, None, None, None, "disabled", Some(s.id), None)
    else if !Live(q, s) then exists reason :: Blocked(q, s, reason) && d == Blocking(q, s, reason)
    else if SlotMember(q, s) in members then
      d == Decision(s.accountId, s.comboId, true, Some(SlotModel(q, s)), Some(s.priority), Some(Origin.Manual),
                    "included", Some(s.id), None)
    else d == Blocking(q, s, "manual_override")
  }

  lemma DisabledMeans(q: Query, d: Decision)
    ensures d in DisabledDecisions(q) <==> exists s :: s in q.snap.slots && d in DisabledSlot(q.comboId, s)
  {
    hide FlatMap, DisabledSlot;
    var f := (slot: Slot) => DisabledSlot(q.comboId, slot);
    FlatMapMember(f, q.snap.slots, d);
    assert DisabledDecisions(q) == FlatMap(f, q.snap.slots);
    if s :| s in q.snap.slots && d in DisabledSlot(q.comboId, s) {
      var k :| 0 <= k < |q.snap.slots| && q.snap.slots[k] == s;
      assert d in f(q.snap.slots[k]);
    }
    if k :| 0 <= k < |q.snap.slots| && d in f(q.snap.slots[k]) { assert q.snap.slots[k] in q.snap.slots; }
  }

  lemma DecisionSlot(q: Query, k: nat)
    requires k < |Candidates(q)|
    ensures DecisionAt(q.comboId, Candidates(q), k).slotId == Candidates(q)[k].member.slotId
    ensures Candidates(q)[k].member.slotId.Some?
  {
    hide Candidates, TakenBefore;
    CandidatesAreOk(q);
    assert CandidateOk(Candidates(q)[k]);
  }

  /** The decision of a disabled slot. */
  lemma DisabledSlotMeans(q: Query, s: Slot, d: Decision)
    requires DistinctIds(q) && s in q.snap.slots && s.comboId == q.comboId && !s.enabled
    ensures d in ActiveMembership(q).decisions && d.slotId == Some(s.id) <==>
      d == Decision(s.accountId, q.comboId, false, None, None, None, "disabled", Some(s.id), None)
  {
    hide ActiveMembership, DecisionAt, Candidates, CreateManual, DisabledDecisions, Blocked;
    SlotDecisions(q, d);
    DisabledMeans(q, d);
    forall t | t in q.snap.slots && d in DisabledSlot(q.comboId, t) && d.slotId == Some(s.id) ensures t == s {
      SameSlot(q, s, t);
    }
    forall k | 0 <= k < |Candidates(q)| ensures DecisionAt(q.comboId, Candidates(q), k).slotId != Some(s.id) {
      DecisionSlot(q, k);
      CandidateFrom(q, Candidates(q)[k]);
      var t :| IsCandidate(q, t) && Candidates(q)[k] == CreateManual(q, t);
      CreateMeans(q, t);
      if t.id == s.id { SameSlot(q, s, t); }
    }
  }

  /** The decision of an enabled slot is the one at its place among the candidates. */
  lemma EnabledSlotMeans(q: Query, s: Slot, d: Decision, k: nat)
    requires DistinctIds(q) && IsCandidate(q, s)
    requires k < |Candidates(q)| && Candidates(q)[k] == CreateManual(q, s)
    ensures d in ActiveMembership(q).decisions && d.slotId == Some(s.id) <==>
      d == DecisionAt(q.comboId, Candidates(q), k)
  {
    hide ActiveMembership, DecisionAt, Candidates, CreateManual, DisabledDecisions, Blocked;
    var cs := Candidates(q);
    SlotDecisions(q, d);
    DisabledMeans(q, d);
    forall t | t in q.snap.slots && d in DisabledSlot(q.comboId, t) ensures d.slotId != Some(s.id) {
      if t.id == s.id { SameSlot(q, s, t); }
    }
    CreateMeans(q, s);
    DecisionSlot(q, k);
    var place := PlaceOf(q, s);
    forall j | 0 <= j < |cs| && d == DecisionAt(q.comboId, cs, j) && d.slotId == Some(s.id) ensures j == k {
      DecisionSlot(q, j);
    }
  }

  /** Every slot of a combo has the one decision that its own state and the members account for. */
  lemma SlotMeans(q: Query, s: Slot, d: Decision)
    requires DistinctIds(q) && s in q.snap.slots && s.comboId == q.comboId
    ensures d in ActiveMembership(q).decisions && d.slotId == Some(s.id) <==>
      IsSlotDecision(q, ActiveMembership(q).members, s, d)
  {
    hide ActiveMembership, Candidates, CreateManual, Blocked, TakenBefore, KeptMember, SlotModel;
    if !s.enabled {
      DisabledSlotMeans(q, s, d);
    } else {
      var k := PlaceOf(q, s);
      EnabledSlotMeans(q, s, d, k);
      CreateMeans(q, s);
      LiveMeans(q, s);
      KeptIs(q, s, k);
      SlotMembers(q, SlotMember(q, s));
    }
  }

  /** Every manual member is the member of a live slot. */
  lemma ManualMembersAreSlots(q: Query, m: Member)
    requires DistinctIds(q) && m in ActiveMembership(q).members && m.source == Origin.Manual
    ensures exists s :: Live(q, s) && m == SlotMember(q, s)
  {
    hide ActiveMembership, Candidates, CreateManual, Blocked, TakenBefore;
    SlotMembers(q, m);
    var cs := Candidates(q);
    var k: nat :| Kept(cs, k) && cs[k].member == m;
    CandidateFrom(q, cs[k]);
    var s :| IsCandidate(q, s) && cs[k] == CreateManual(q, s);
    CreateMeans(q, s);
    LiveMeans(q, s);
  }

  lemma CandidatesSorted(q: Query, i: nat, j: nat)
    requires i < j < |Candidates(q)|
    ensures LeMember(q.host.rank, Candidates(q)[i].member, Candidates(q)[j].member)
  {
    hide Sort;
    Orders(q.host.rank);
    SortSorts(Unsorted(q), ByCandidate(q.host.rank));
    assert ByCandidate(q.host.rank)(Candidates(q)[i], Candidates(q)[j]);
  }

  /** Of the live slots on one route, one is a member and none of the others comes before it. */
  lemma OnePerRoute(q: Query, s: Slot) returns (t: Slot)
    requires DistinctIds(q) && Live(q, s)
    ensures Live(q, t) && OneRoute(q, s, t) && SlotMember(q, t) in ActiveMembership(q).members && NoLater(q, t, s)
    ensures SlotMember(q, s) in ActiveMembership(q).members <==> t == s
  {
    hide ActiveMembership, Candidates, CreateManual, Blocked, KeptMember, SlotModel, ResolveStoredAlias;
    var cs := Candidates(q);
    var k := PlaceOf(q, s);
    CreateMeans(q, s);
    LiveMeans(q, s);
    var j := FirstIsKept(cs, k);
    CandidateFrom(q, cs[j]);
    t :| IsCandidate(q, t) && cs[j] == CreateManual(q, t);
    CreateMeans(q, t);
    LiveMeans(q, t);
    KeptIs(q, t, j);
    KeptIs(q, s, k);
    SlotMembers(q, SlotMember(q, t));
    SlotMembers(q, SlotMember(q, s));
    if j < k {
      CandidatesSorted(q, j, k);
      assert TakenBefore(cs, k);
      assert t != s by { var place := PlaceOf(q, s); }
    }
  }

  // ---- order ----

  /** Members come by tier, slots before rules, then by id; decisions by account, slot, rule and reason. */
  lemma ResultsInOrder(q: Query)
    ensures var ms, rank := ActiveMembership(q).members, q.host.rank;
      forall i, j :: 0 <= i < j < |ms| ==>
        || ms[i].tier < ms[j].tier
        || (ms[i].tier == ms[j].tier && ms[i].source == Origin.Manual && ms[j].source == Managed)
        || (ms[i].tier == ms[j].tier && ms[i].source == ms[j].source && rank(ms[i].id) <= rank(ms[j].id))
    ensures var ds, rank := ActiveMembership(q).decisions, q.host.rank;
      forall i, j :: 0 <= i < j < |ds| ==>
        Ranks(rank, ds[i]) == Ranks(rank, ds[j]) || Smaller(Ranks(rank, ds[i]), Ranks(rank, ds[j]))
  {
    hide Sort, Collected;
    Orders(q.host.rank);
    var rank := q.host.rank;
    SortSorts(Collected(q).members, ByMember(rank));
    SortSorts(Collected(q).decisions, ByDecision(rank));
    var ms, ds := ActiveMembership(q).members, ActiveMembership(q).decisions;
    forall i, j | 0 <= i < j < |ms| ensures LeMember(rank, ms[i], ms[j]) { assert ByMember(rank)(ms[i], ms[j]); }
    forall i, j | 0 <= i < j < |ds|
      ensures Ranks(rank, ds[i]) == Ranks(rank, ds[j]) || Smaller(Ranks(rank, ds[i]), Ranks(rank, ds[j]))
    {
      assert ByDecision(rank)(ds[i], ds[j]);
      DecisionOrder(rank, ds[i], ds[j]);
    }
  }

  function Ranks(rank: string -> real, d: Decision): seq<real> {
    [rank(d.accountId), rank(if d.slotId.Some? then d.slotId.value else ""),
     rank(if d.ruleId.Some? then d.ruleId.value else ""), rank(d.reason)]
  }

  /** Lists of one length in lexicographic order. */
  ghost predicate Smaller(a: seq<real>, b: seq<real>) {
    exists k :: 0 <= k < |a| && k < |b| && a[..k] == b[..k] && a[k] < b[k]
  }

  lemma DecisionOrder(rank: string -> real, d: Decision, e: Decision)
    requires LeDecision(rank, d, e)
    ensures Ranks(rank, d) == Ranks(rank, e) || Smaller(Ranks(rank, d), Ranks(rank, e))
  {
    var a, b := Ranks(rank, d), Ranks(rank, e);
    if a[0] < b[0] {
      assert a[..0] == b[..0];
    } else if a[1] < b[1] {
      assert a[..1] == b[..1];
    } else if a[2] < b[2] {
      assert a[..2] == b[..2];
    } else if a[3] < b[3] {
      assert a[..3] == b[..3];
    } else {
      assert a == b;
    }
  }

  // ---- the managed model and the second attempt ----

  /** The family is the first that the model mentions. */
  ghost predicate OfFamily(model: string, f: Family) {
    Mentions(model, f) && forall g: Family :: Turn(g) < Turn(f) ==> !Mentions(model, g)
  }

  /** The stored model, or the latest of the family, with an alias replaced; and only if it is of the family. */
  lemma ManagedModelMeans(q: Query, core: string)
    requires var a := q.snap.assignment;
      IsCore(core, if a.managedModel.Some? then a.managedModel.value else q.host.latest(a.family))
    ensures var f := q.snap.assignment.family;
      var model := if Lower(core) != Name(f) then core
                   else if q.requested.Some? && IsModelOf(q.requested.value, f) then q.requested.value
                   else q.host.latest(f);
      ManagedModel(q) == if OfFamily(model, f) then Some(model) else None
  {
    hide IsCore, IsModelOf, Mentions, ResolveFamilyAlias, ModelFamily, Lower;
    var a := q.snap.assignment;
    var raw := if a.managedModel.Some? then a.managedModel.value else q.host.latest(a.family);
    FamilyAliasMeans(raw, core, a.family, q.requested, q.host.latest);
    FamilyMeans(ResolveFamilyAlias(raw, a.family, q.requested, q.host.latest), a.family);
  }

  /** An active combo resolves for the client's model, or without it where that leaves nobody. */
  lemma SecondAttempt(snap: Snapshot, accounts: seq<Account>, host: Host, requested: Option<string>)
    requires IsActive(snap)
    ensures var comboId := snap.assignment.comboId.value;
      var asked, plain := Query(snap, accounts, host, comboId, requested), Query(snap, accounts, host, comboId, None);
      var r := Resolve(snap, accounts, host, requested);
      && r.active && r.comboId == Some(comboId)
      && (r == ActiveMembership(asked) || r == ActiveMembership(plain))
      && (ActiveMembership(asked).members != [] ==> r == ActiveMembership(asked))
      && (r.members == [] && requested.Some? && requested.value != "" ==>
            ActiveMembership(asked).members == [] && ActiveMembership(plain).members == [])
  {
    hide Sort, Collected;
  }

  /** A combo is active exactly if it and its assignment are enabled and the assignment names it. */
  lemma ActiveMeans(snap: Snapshot, accounts: seq<Account>, host: Host, requested: Option<string>)
    ensures var r := Resolve(snap, accounts, host, requested);
      && r.comboId == snap.assignment.comboId
      && (r.active <==>
            && snap.assignment.enabled
            && exists c :: snap.combo == Some(c) && c.enabled && c.id != "" && snap.assignment.comboId == Some(c.id))
  {
    hide Sort, Collected, InactiveDecisions, ManagedModel;
  }

  /** The combo id that decisions about an inactive combo carry. */
  function NamedCombo(snap: Snapshot): string {
    match (snap.assignment.comboId, snap.combo)
    case (Some(id), _) => id
    case (None, Some(c)) => c.id
    case (None, None) => ""
  }

  function Inactive(snap: Snapshot, s: Slot): Decision {
    Decision(s.accountId, NamedCombo(snap), false, None, None, None, "disabled", Some(s.id), None)
  }

  /** An inactive combo has no members, and every slot is decided as disabled. */
  lemma InactiveMeans(snap: Snapshot, accounts: seq<Account>, host: Host, requested: Option<string>, d: Decision)
    requires !Resolve(snap, accounts, host, requested).active
    ensures var r := Resolve(snap, accounts, host, requested);
      && r.members == [] && r.reason == "disabled" && |r.decisions| == |snap.slots|
      && (d in r.decisions <==> exists s :: s in snap.slots && d == Inactive(snap, s))
  {
    hide Sort, Collected, FlatMap, ManagedModel;
    var f := (slot: Slot) =>
      [Rejection(InactiveComboId(snap), slot.accountId, "disabled", None, None, Some(slot.id), None)];
    assert InactiveDecisions(snap) == FlatMap(f, snap.slots);
    assert !IsActive(snap);
    SortPermutes(InactiveDecisions(snap), ByDecision(host.rank));
    MembersByMultiset(Resolve(snap, accounts, host, requested).decisions, InactiveDecisions(snap));
    FlatMapSingle(f, (s: Slot) => f(s)[0], snap.slots);
    FlatMapMember(f, snap.slots, d);
    if s :| s in snap.slots && d in f(s) {
      var k :| 0 <= k < |snap.slots| && snap.slots[k] == s;
      assert d in f(snap.slots[k]);
    }
  }

  /** An active resolution is ambiguous exactly if it is managed and has no managed model. */
  lemma ReasonMeans(q: Query)
    ensures ActiveMembership(q).reason == "ambiguous" <==>
      q.snap.assignment.mode == ManagedMode && ManagedModel(q).None?
    ensures ActiveMembership(q).reason == "ambiguous" || ActiveMembership(q).reason == "included"
  {
    hide Sort, Collected, ManagedModel;
    assert "ambiguous"[0] != "included"[0];
  }
}
