/** What stands in the way of comparing the cohorts with each other. */
module CohortSelection {
  import opened Units
  import opened FlightTimeline
  import opened CohortSeal
  import opened CohortAnalysis

  datatype SafeIds = SafeIds(epoch: Text, occurrence: Option<Text>, partition: Text)

  datatype Summary = Summary(
    cohortId: Text, ids: SafeIds, first: Text, last: Text, visible: seq<Visible>, count: nat, counts: Counts,
    sealsComplete: bool, completeness: Completeness, eligible: bool, blockers: seq<Blocker>,
      contributors: seq<Contributor>)

  /** Which comparison a blocker speaks of, where two could be meant. */
  datatype Scope = WithinInstance | AcrossInstances

  datatype Scoped = Scoped(blocker: Blocker, scope: Option<Scope>)

  function Unscoped(b: Blocker): Scoped { Scoped(b, None) }

  function NotComparableBlocker(d: SealDimension): Blocker { Blocker(OfSeal(d), NotComparable, Plain) }

  const UNSEALED_BLOCKER: Blocker := Blocker(HistoricalUnsealed, ValueUnknown, NoSealReference)

  // ---- what the summaries show ----

  /** The value a summary shows for a dimension. */
  function Shown(vs: seq<Visible>, d: SealDimension): Option<SealValue> {
    if vs == [] then None else if vs[0].dimension == d then vs[0].value else Shown(vs[1..], d)
  }

  function ShownBy(s: Summary, d: SealDimension): Option<SealValue> { Shown(s.visible, d) }

  ghost predicate SomeHidden(ss: seq<Summary>, d: SealDimension) {
    exists k :: 0 <= k < |ss| && ShownBy(ss[k], d).None?
  }

  /** Two summaries show different values. */
  ghost predicate ShownDiffer(a: Summary, b: Summary, d: SealDimension) {
    ShownBy(a, d).Some? && ShownBy(b, d).Some? && ShownBy(a, d) != ShownBy(b, d)
  }

  ghost predicate SomeDiffer(ss: seq<Summary>, d: SealDimension) {
    exists i, j :: 0 <= i < |ss| && 0 <= j < |ss| && ShownDiffer(ss[i], ss[j], d)
  }

  /** Two summaries show the same service instance. */
  predicate Together(a: Summary, b: Summary) {
    ShownBy(a, ServiceInstance).Some? && ShownBy(a, ServiceInstance) == ShownBy(b, ServiceInstance)
  }

  /** The summaries do not all come from one known service instance. */
  ghost predicate Crosses(ss: seq<Summary>) {
    exists i, j :: 0 <= i < j < |ss| && !Together(ss[i], ss[j])
  }

  ghost predicate SomeDifferTogether(ss: seq<Summary>, d: SealDimension) {
    exists i, j :: 0 <= i < |ss| && 0 <= j < |ss| && Together(ss[i], ss[j]) && ShownDiffer(ss[i], ss[j], d)
  }

  // ---- which blockers there are ----

  /** A blocker that the comparison of the summaries raises about one dimension. */
  ghost predicate RaisedAt(ss: seq<Summary>, d: SealDimension, b: Blocker) {
    || (b == UnknownBlocker(d) && SomeHidden(ss, d))
    || (if Crosses(ss) && d in PARTITION_DIMENSIONS
        then b == NotComparableBlocker(d) || (b == ChangedBlocker(d) && SomeDifferTogether(ss, d))
        else b == ChangedBlocker(d) && SomeDiffer(ss, d))
  }

  ghost predicate Raised(ss: seq<Summary>, b: Blocker) {
    |ss| > 1 && exists d :: d in SELECTION_DIMENSIONS && RaisedAt(ss, d, b)
  }

  ghost predicate OwnBlocker(ss: seq<Summary>, b: Blocker) { exists k :: 0 <= k < |ss| && b in ss[k].blockers }

  ghost predicate Blocks(ss: seq<Summary>, unsealed: nat, b: Blocker) {
    OwnBlocker(ss, b) || (unsealed > 0 && b == UNSEALED_BLOCKER) || Raised(ss, b)
  }

  ghost predicate Lists(bs: seq<Scoped>, b: Blocker) { exists k :: 0 <= k < |bs| && bs[k].blocker == b }

  /** Each blocker is listed once, whatever its scope. */
  ghost predicate Once(bs: seq<Scoped>) { forall i, j :: 0 <= i < j < |bs| ==> bs[i].blocker != bs[j].blocker }

  /** Account scope and route mean something within one service instance only, so what is said of them says where. */
  ghost function RaisedScope(ss: seq<Summary>, b: Blocker): Option<Scope> {
    if b.kind == NotComparable then Some(AcrossInstances)
    else if b.kind == ValueChanged && Crosses(ss) && b.subject.OfSeal? && b.subject.dimension in PARTITION_DIMENSIONS
    then Some(WithinInstance)
    else None
  }

  ghost function ScopeIn(ss: seq<Summary>, b: Blocker): Option<Scope> {
    if OwnBlocker(ss, b) then None else RaisedScope(ss, b)
  }

  /** The list holds exactly the blockers there are, each once and with its scope. */
  ghost predicate Selects(bs: seq<Scoped>, ss: seq<Summary>, unsealed: nat) {
    && Once(bs) && (forall b :: Lists(bs, b) <==> Blocks(ss, unsealed, b))
    && forall k :: 0 <= k < |bs| ==> bs[k].scope == ScopeIn(ss, bs[k].blocker)
  }

  // ---- computing them ----

  lemma ListsLast(bs: seq<Scoped>, x: Scoped, b: Blocker)
    ensures Lists(bs + [x], b) <==> Lists(bs, b) || x.blocker == b
  {
    var all := bs + [x];
    assert all[|bs|] == x;
    if k :| 0 <= k < |bs| && bs[k].blocker == b { assert all[k].blocker == b; }
  }

  lemma ListsAppend(a: seq<Scoped>, c: seq<Scoped>, b: Blocker)
    ensures Lists(a + c, b) <==> Lists(a, b) || Lists(c, b)
  {
    var all := a + c;
    if k :| 0 <= k < |all| && all[k].blocker == b {
      if k < |a| { assert a[k].blocker == b; } else { assert c[k - |a|].blocker == b; }
    }
    if k :| 0 <= k < |a| && a[k].blocker == b { assert all[k].blocker == b; }
    if k :| 0 <= k < |c| && c[k].blocker == b { assert all[|a| + k].blocker == b; }
  }

  /** The entry stands in the list, and no earlier one is about the same blocker. */
  ghost predicate IsFirst(bs: seq<Scoped>, x: Scoped) {
    exists j :: 0 <= j < |bs| && bs[j] == x && !Lists(bs[..j], x.blocker)
  }

  lemma FirstStays(bs: seq<Scoped>, more: Scoped, x: Scoped)
    ensures IsFirst(bs, x) ==> IsFirst(bs + [more], x)
    ensures !Lists(bs, more.blocker) ==> IsFirst(bs + [more], more)
  {
    hide Lists;
    var all := bs + [more];
    if IsFirst(bs, x) {
      var j :| 0 <= j < |bs| && bs[j] == x && !Lists(bs[..j], x.blocker);
      assert all[j] == x && all[..j] == bs[..j];
    }
    assert all[|bs|] == more && all[..|bs|] == bs;
  }

  /** The first of each blocker, compared without its scope. */
  method UniqueBlockers(bs: seq<Scoped>) returns (r: seq<Scoped>)
    ensures Once(r) && forall b :: Lists(r, b) <==> Lists(bs, b)
    ensures forall k :: 0 <= k < |r| ==> IsFirst(bs, r[k])
  {
    hide Lists, IsFirst;
    r := [];
    var seen: set<Blocker> := {};
    NoneListed();
    assert bs[..0] == [];
    for k := 0 to |bs|
      invariant Once(r) && forall b :: b in seen <==> Lists(r, b)
      invariant forall b :: Lists(r, b) <==> Lists(bs[..k], b)
      invariant forall i :: 0 <= i < |r| ==> IsFirst(bs[..k], r[i])
    {
      assert bs[..k + 1] == bs[..k] + [bs[k]];
      forall x ensures IsFirst(bs[..k], x) ==> IsFirst(bs[..k + 1], x) { FirstStays(bs[..k], bs[k], x); }
      FirstStays(bs[..k], bs[k], bs[k]);
      forall b ensures Lists(bs[..k + 1], b) <==> Lists(bs[..k], b) || bs[k].blocker == b {
        ListsLast(bs[..k], bs[k], b);
      }
      if bs[k].blocker in seen { continue; }
      forall b ensures Lists(r + [bs[k]], b) <==> Lists(r, b) || bs[k].blocker == b { ListsLast(r, bs[k], b); }
      OnceLast(r, bs[k]);
      seen := seen + {bs[k].blocker};
      r := r + [bs[k]];
    }
    assert bs[..|bs|] == bs;
  }

  lemma OnceLast(bs: seq<Scoped>, x: Scoped)
    requires Once(bs) && !Lists(bs, x.blocker)
    ensures Once(bs + [x])
  {}

  /** Whether some summary hides a dimension, and whether two show different values. */
  method CompareShown(ss: seq<Summary>, d: SealDimension) returns (hidden: bool, changed: bool)
    ensures hidden <==> SomeHidden(ss, d)
    ensures changed <==> SomeDiffer(ss, d)
  {
    hide ShownBy;
    hidden := false;
    var values: set<SealValue> := {};
    for k := 0 to |ss|
      invariant hidden <==> exists j :: 0 <= j < k && ShownBy(ss[j], d).None?
      invariant forall v :: v in values <==> exists j :: 0 <= j < k && ShownBy(ss[j], d) == Some(v)
    {
      var shown := ShownBy(ss[k], d);
      if shown.None? { hidden := true; } else { values := values + {shown.value}; }
    }
    SeveralShown(ss, d, values);
    changed := |values| > 1;
  }

  lemma SeveralShown(ss: seq<Summary>, d: SealDimension, values: set<SealValue>)
    requires forall v :: v in values <==> exists j :: 0 <= j < |ss| && ShownBy(ss[j], d) == Some(v)
    ensures |values| > 1 <==> SomeDiffer(ss, d)
  {
    hide ShownBy;
    MoreThanOne(values);
    if x, y :| x in values && y in values && x != y {
      var i :| 0 <= i < |ss| && ShownBy(ss[i], d) == Some(x);
      var j :| 0 <= j < |ss| && ShownBy(ss[j], d) == Some(y);
      assert ShownDiffer(ss[i], ss[j], d);
    }
    if SomeDiffer(ss, d) {
      var i, j :| 0 <= i < |ss| && 0 <= j < |ss| && ShownDiffer(ss[i], ss[j], d);
      assert ShownBy(ss[i], d) == Some(ShownBy(ss[i], d).value) && ShownBy(ss[j], d) == Some(ShownBy(ss[j], d).value);
      assert ShownBy(ss[i], d).value in values && ShownBy(ss[j], d).value in values;
    }
  }

  /** The summaries by service instance; one whose instance is hidden stands alone. */
  datatype InstanceKey = KnownInstance(value: SealValue) | HiddenInstance(index: nat)

  function KeyAt(ss: seq<Summary>, k: nat): InstanceKey
    requires k < |ss|
  {
    var shown := ShownBy(ss[k], ServiceInstance);
    if shown.Some? then KnownInstance(shown.value) else HiddenInstance(k)
  }

  lemma SameKeyIsTogether(ss: seq<Summary>, i: nat, j: nat)
    requires i < |ss| && j < |ss|
    ensures KeyAt(ss, i) == KeyAt(ss, j) <==> i == j || Together(ss[i], ss[j])
  {
    hide ShownBy;
  }

  /** The summaries among the first `n` with a key, in order. */
  ghost function Keyed(ss: seq<Summary>, n: nat, key: InstanceKey): seq<Summary>
    requires n <= |ss|
  {
    if n == 0 then []
    else Keyed(ss, n - 1, key) + if KeyAt(ss, n - 1) == key then [ss[n - 1]] else []
  }

  lemma {:induction false} KeyedMember(ss: seq<Summary>, n: nat, key: InstanceKey, s: Summary)
    requires n <= |ss|
    ensures s in Keyed(ss, n, key) <==> exists k :: 0 <= k < n && KeyAt(ss, k) == key && ss[k] == s
  {
    hide KeyAt;
    if n > 0 {
      KeyedMember(ss, n - 1, key, s);
      if s in Keyed(ss, n, key) && s !in Keyed(ss, n - 1, key) {
        assert KeyAt(ss, n - 1) == key && ss[n - 1] == s;
      }
    }
  }

  ghost predicate Occurring(ss: seq<Summary>, n: nat, key: InstanceKey)
    requires n <= |ss|
  {
    exists k :: 0 <= k < n && KeyAt(ss, k) == key
  }

  /** The table of the first `n` summaries by key. */
  ghost predicate Grouped(groups: map<InstanceKey, seq<Summary>>, ss: seq<Summary>, n: nat) {
    && n <= |ss|
    && (forall key :: key in groups ==> groups[key] == Keyed(ss, n, key))
    && (forall key :: key in groups <==> Occurring(ss, n, key))
  }

  lemma {:induction false} NotKeyed(ss: seq<Summary>, n: nat, key: InstanceKey)
    requires n <= |ss| && !Occurring(ss, n, key)
    ensures Keyed(ss, n, key) == []
  {
    hide KeyAt;
    if n > 0 {
      OccurringStep(ss, n - 1, key);
      NotKeyed(ss, n - 1, key);
    }
  }

  lemma OccurringStep(ss: seq<Summary>, n: nat, key: InstanceKey)
    requires n < |ss|
    ensures Occurring(ss, n + 1, key) <==> Occurring(ss, n, key) || KeyAt(ss, n) == key
  {
    hide KeyAt;
    if k :| 0 <= k < n && KeyAt(ss, k) == key { assert 0 <= k < n + 1; }
  }

  lemma KeyedStep(ss: seq<Summary>, n: nat, key: InstanceKey)
    requires n < |ss|
    ensures Keyed(ss, n + 1, key) == if KeyAt(ss, n) == key then Keyed(ss, n, key) + [ss[n]] else Keyed(ss, n, key)
  {
    hide KeyAt;
  }

  method ComparabilityGroups(ss: seq<Summary>) returns (groups: map<InstanceKey, seq<Summary>>)
    ensures Grouped(groups, ss, |ss|)
  {
    hide KeyAt, Keyed;
    groups := map[];
    for k := 0 to |ss|
      invariant Grouped(groups, ss, k)
    {
      var key := KeyAt(ss, k);
      GroupedStep(groups, ss, k);
      if key in groups {
        groups := groups[key := groups[key] + [ss[k]]];
      } else {
        NotKeyed(ss, k, key);
        assert [] + [ss[k]] == [ss[k]];
        groups := groups[key := [ss[k]]];
      }
    }
  }

  lemma GroupedStep(groups: map<InstanceKey, seq<Summary>>, ss: seq<Summary>, k: nat)
    requires k < |ss| && Grouped(groups, ss, k)
    ensures Grouped(groups[KeyAt(ss, k) := Keyed(ss, k, KeyAt(ss, k)) + [ss[k]]], ss, k + 1)
  {
    hide KeyAt, Keyed, Occurring;
    var next := groups[KeyAt(ss, k) := Keyed(ss, k, KeyAt(ss, k)) + [ss[k]]];
    forall key ensures key in next <==> Occurring(ss, k + 1, key) { OccurringStep(ss, k, key); }
    forall key | key in next ensures next[key] == Keyed(ss, k + 1, key) { KeyedStep(ss, k, key); }
  }

  lemma CrossesIffSeveral(groups: map<InstanceKey, seq<Summary>>, ss: seq<Summary>)
    requires Grouped(groups, ss, |ss|)
    ensures |groups.Keys| > 1 <==> Crosses(ss)
  {
    hide KeyAt, Together, Keyed;
    MoreThanOne(groups.Keys);
    if x, y :| x in groups.Keys && y in groups.Keys && x != y {
      var i :| 0 <= i < |ss| && KeyAt(ss, i) == x;
      var j :| 0 <= j < |ss| && KeyAt(ss, j) == y;
      SameKeyIsTogether(ss, i, j);
      SameKeyIsTogether(ss, j, i);
      var a, c := if i < j then i else j, if i < j then j else i;
      assert 0 <= a < c < |ss| && !Together(ss[a], ss[c]);
    }
    if Crosses(ss) {
      var i, j :| 0 <= i < j < |ss| && !Together(ss[i], ss[j]);
      SameKeyIsTogether(ss, i, j);
      assert KeyAt(ss, i) in groups.Keys && KeyAt(ss, j) in groups.Keys;
    }
  }

  lemma KeyedAt(ss: seq<Summary>, k: nat) returns (a: nat)
    requires k < |ss|
    ensures a < |Keyed(ss, |ss|, KeyAt(ss, k))| && Keyed(ss, |ss|, KeyAt(ss, k))[a] == ss[k]
  {
    hide Keyed, KeyAt;
    var g := Keyed(ss, |ss|, KeyAt(ss, k));
    KeyedMember(ss, |ss|, KeyAt(ss, k), ss[k]);
    a :| 0 <= a < |g| && g[a] == ss[k];
  }

  /** A group of at least two that holds a difference. */
  ghost predicate DiffersAt(groups: map<InstanceKey, seq<Summary>>, key: InstanceKey, d: SealDimension) {
    key in groups && |groups[key]| >= 2 && SomeDiffer(groups[key], d)
  }

  lemma TogetherInGroup(groups: map<InstanceKey, seq<Summary>>, ss: seq<Summary>, d: SealDimension)
    requires Grouped(groups, ss, |ss|) && SomeDifferTogether(ss, d)
    ensures exists key :: DiffersAt(groups, key, d)
  {
    hide KeyAt, Together, Keyed, ShownDiffer;
    var i, j :| 0 <= i < |ss| && 0 <= j < |ss| && Together(ss[i], ss[j]) && ShownDiffer(ss[i], ss[j], d);
    SameKeyIsTogether(ss, i, j);
    var key := KeyAt(ss, i);
    assert Occurring(ss, |ss|, key);
    var g := groups[key];
    var a := KeyedAt(ss, i);
    var c := KeyedAt(ss, j);
    NotDifferentFromItself(ss[i], d);
    assert ShownDiffer(g[a], g[c], d) && a != c;
    assert DiffersAt(groups, key, d);
  }

  lemma GroupIsTogether(groups: map<InstanceKey, seq<Summary>>, ss: seq<Summary>, key: InstanceKey, d: SealDimension)
    requires Grouped(groups, ss, |ss|) && DiffersAt(groups, key, d)
    ensures SomeDifferTogether(ss, d)
  {
    hide KeyAt, Together, Keyed, ShownDiffer;
    var g := groups[key];
    var a, c :| 0 <= a < |g| && 0 <= c < |g| && ShownDiffer(g[a], g[c], d);
    KeyedMember(ss, |ss|, key, g[a]);
    KeyedMember(ss, |ss|, key, g[c]);
    var i :| 0 <= i < |ss| && KeyAt(ss, i) == key && ss[i] == g[a];
    var j :| 0 <= j < |ss| && KeyAt(ss, j) == key && ss[j] == g[c];
    NotDifferentFromItself(ss[i], d);
    SameKeyIsTogether(ss, i, j);
  }

  /** Two summaries of one instance differ exactly when some group of at least two holds a difference. */
  lemma DifferInGroup(groups: map<InstanceKey, seq<Summary>>, ss: seq<Summary>, d: SealDimension)
    requires Grouped(groups, ss, |ss|)
    ensures SomeDifferTogether(ss, d) <==> exists key :: DiffersAt(groups, key, d)
  {
    hide Grouped, SomeDifferTogether, DiffersAt;
    if SomeDifferTogether(ss, d) { TogetherInGroup(groups, ss, d); }
    if key :| DiffersAt(groups, key, d) { GroupIsTogether(groups, ss, key, d); }
  }

  lemma NotDifferentFromItself(s: Summary, d: SealDimension)
    ensures !ShownDiffer(s, s, d)
  {}

  /** Whether some group of at least two holds a difference, one blocker for each. */
  method WithinBlockers(groups: map<InstanceKey, seq<Summary>>, d: SealDimension) returns (r: seq<Scoped>)
    ensures forall k :: 0 <= k < |r| ==> r[k] == Scoped(ChangedBlocker(d), Some(WithinInstance))
    ensures r != [] <==> exists key :: DiffersAt(groups, key, d)
  {
    hide SomeDiffer;
    r := [];
    var todo := groups.Keys;
    while todo != {}
      invariant todo <= groups.Keys
      invariant forall k :: 0 <= k < |r| ==> r[k] == Scoped(ChangedBlocker(d), Some(WithinInstance))
      invariant r != [] <==> exists key :: key !in todo && DiffersAt(groups, key, d)
      decreases |todo|
    {
      var key :| key in todo;
      var group := groups[key];
      todo := todo - {key};
      if |group| < 2 { continue; }
      var _, changed := CompareShown(group, d);
      if changed {
        assert DiffersAt(groups, key, d);
        r := r + [Scoped(ChangedBlocker(d), Some(WithinInstance))];
      }
    }
  }

  lemma ListsRepeated(bs: seq<Scoped>, c: Blocker, b: Blocker)
    requires forall k :: 0 <= k < |bs| ==> bs[k].blocker == c
    ensures Lists(bs, b) <==> bs != [] && b == c
  {
    if bs != [] { assert bs[0].blocker == c; }
  }

  function OneIf(p: bool, x: Scoped): seq<Scoped> { if p then [x] else [] }

  lemma ListsOneIf(p: bool, x: Scoped, b: Blocker)
    ensures Lists(OneIf(p, x), b) <==> p && b == x.blocker
  {
    if p { assert OneIf(p, x)[0] == x; }
  }

  /** What the comparison raises about one dimension. */
  method DimensionBlockers(ss: seq<Summary>, groups: map<InstanceKey, seq<Summary>>, d: SealDimension)
    returns (r: seq<Scoped>)
    requires Grouped(groups, ss, |ss|)
    ensures forall b :: Lists(r, b) <==> RaisedAt(ss, d, b)
    ensures forall k :: 0 <= k < |r| ==> r[k].scope == RaisedScope(ss, r[k].blocker)
  {
    hide SomeHidden, SomeDiffer, Grouped, Crosses, SomeDifferTogether, Lists, DiffersAt;
    CrossesIffSeveral(groups, ss);
    DifferInGroup(groups, ss, d);
    var hidden, changed := CompareShown(ss, d);
    var unknown := OneIf(hidden, Unscoped(UnknownBlocker(d)));
    if |groups.Keys| > 1 && d in PARTITION_DIMENSIONS {
      var across := OneIf(true, Scoped(NotComparableBlocker(d), Some(AcrossInstances)));
      var within := WithinBlockers(groups, d);
      r := across + within + unknown;
      forall b ensures Lists(r, b) <==> RaisedAt(ss, d, b) {
        ListsAppend(across + within, unknown, b);
        ListsAppend(across, within, b);
        ListsOneIf(true, Scoped(NotComparableBlocker(d), Some(AcrossInstances)), b);
        ListsRepeated(within, ChangedBlocker(d), b);
        ListsOneIf(hidden, Unscoped(UnknownBlocker(d)), b);
      }
    } else {
      var different := OneIf(changed, Unscoped(ChangedBlocker(d)));
      r := unknown + different;
      forall b ensures Lists(r, b) <==> RaisedAt(ss, d, b) {
        ListsAppend(unknown, different, b);
        ListsOneIf(hidden, Unscoped(UnknownBlocker(d)), b);
        ListsOneIf(changed, Unscoped(ChangedBlocker(d)), b);
      }
    }
  }

  /** The blockers of the cohorts one by one. */
  method OwnBlockers(ss: seq<Summary>) returns (r: seq<Scoped>)
    ensures forall b :: Lists(r, b) <==> OwnBlocker(ss, b)
    ensures forall k :: 0 <= k < |r| ==> r[k].scope.None?
  {
    hide Lists;
    r := [];
    NoneListed();
    for k := 0 to |ss|
      invariant forall i :: 0 <= i < |r| ==> r[i].scope.None?
      invariant forall b :: Lists(r, b) <==> exists j :: 0 <= j < k && b in ss[j].blockers
    {
      var more := seq(|ss[k].blockers|, i requires 0 <= i < |ss[k].blockers| => Unscoped(ss[k].blockers[i]));
      forall b ensures Lists(r + more, b) <==> Lists(r, b) || b in ss[k].blockers {
        ListsAppend(r, more, b);
        ListsUnscoped(ss[k].blockers, more, b);
      }
      r := r + more;
    }
  }

  lemma NoneListed()
    ensures forall b :: !Lists([], b)
  {}

  lemma ListsUnscoped(bs: seq<Blocker>, more: seq<Scoped>, b: Blocker)
    requires |more| == |bs| && forall i :: 0 <= i < |bs| ==> more[i] == Unscoped(bs[i])
    ensures Lists(more, b) <==> b in bs
  {
    if b in bs {
      var i :| 0 <= i < |bs| && bs[i] == b;
      assert more[i].blocker == b;
    }
  }

  /** What is not about a cohort itself has the scope the comparison gives it; a cohort's own blockers come first. */
  ghost predicate Ordered(bs: seq<Scoped>, ss: seq<Summary>, n: nat) {
    && n <= |bs| && (forall b :: Lists(bs[..n], b) <==> OwnBlocker(ss, b))
    && (forall k :: 0 <= k < n ==> bs[k].scope.None?)
    && (forall k :: n <= k < |bs| ==> bs[k].scope == RaisedScope(ss, bs[k].blocker))
  }

  lemma OrderedMore(bs: seq<Scoped>, ss: seq<Summary>, n: nat, more: seq<Scoped>)
    requires Ordered(bs, ss, n) && forall k :: 0 <= k < |more| ==> more[k].scope == RaisedScope(ss, more[k].blocker)
    ensures Ordered(bs + more, ss, n)
  {
    hide Lists, OwnBlocker, RaisedScope;
    var all := bs + more;
    assert all[..n] == bs[..n];
    forall k | n <= k < |all| ensures all[k].scope == RaisedScope(ss, all[k].blocker) {
      if k < |bs| { assert all[k] == bs[k]; } else { assert all[k] == more[k - |bs|]; }
    }
  }

  lemma FirstIsScoped(bs: seq<Scoped>, ss: seq<Summary>, n: nat, x: Scoped)
    requires Ordered(bs, ss, n) && IsFirst(bs, x)
    ensures x.scope == ScopeIn(ss, x.blocker)
  {
    hide OwnBlocker, RaisedScope;
    var j :| 0 <= j < |bs| && bs[j] == x && !Lists(bs[..j], x.blocker);
    if j < n {
      assert bs[..n][j] == x;
      assert Lists(bs[..n], x.blocker);
    } else {
      assert bs[..j] == bs[..n] + bs[n..j];
      ListsAppend(bs[..n], bs[n..j], x.blocker);
    }
  }

  method SelectionBlockers(ss: seq<Summary>, unsealed: nat) returns (r: seq<Scoped>)
    ensures Selects(r, ss, unsealed)
  {
    hide Lists, RaisedAt, OwnBlocker, Grouped, Once, IsFirst, Ordered, RaisedScope, ScopeIn;
    var blockers := OwnBlockers(ss);
    ghost var own := blockers;
    OwnAreOrdered(own, ss);
    if unsealed > 0 {
      forall b ensures Lists(blockers + [Unscoped(UNSEALED_BLOCKER)], b) <==>
        Lists(blockers, b) || b == UNSEALED_BLOCKER {
        ListsLast(blockers, Unscoped(UNSEALED_BLOCKER), b);
      }
      UnsealedScope(ss);
      OrderedMore(blockers, ss, |own|, [Unscoped(UNSEALED_BLOCKER)]);
      blockers := blockers + [Unscoped(UNSEALED_BLOCKER)];
    }
    ghost var base := blockers;
    if |ss| > 1 {
      var groups := ComparabilityGroups(ss);
      for k := 0 to |SELECTION_DIMENSIONS|
        invariant Ordered(blockers, ss, |own|)
        invariant forall b :: Lists(blockers, b) <==>
          Lists(base, b) || exists j :: 0 <= j < k && RaisedAt(ss, SELECTION_DIMENSIONS[j], b)
      {
        var more := DimensionBlockers(ss, groups, SELECTION_DIMENSIONS[k]);
        forall b ensures Lists(blockers + more, b) <==> Lists(blockers, b) || Lists(more, b) {
          ListsAppend(blockers, more, b);
        }
        OrderedMore(blockers, ss, |own|, more);
        blockers := blockers + more;
      }
      forall b
        ensures Raised(ss, b) <==>
          exists j :: 0 <= j < |SELECTION_DIMENSIONS| && RaisedAt(ss, SELECTION_DIMENSIONS[j], b)
      {
        RaisedSomewhere(ss, b);
      }
    }
    r := UniqueBlockers(blockers);
    forall k | 0 <= k < |r| ensures r[k].scope == ScopeIn(ss, r[k].blocker) {
      FirstIsScoped(blockers, ss, |own|, r[k]);
    }
  }

  lemma OwnAreOrdered(own: seq<Scoped>, ss: seq<Summary>)
    requires forall b :: Lists(own, b) <==> OwnBlocker(ss, b)
    requires forall k :: 0 <= k < |own| ==> own[k].scope.None?
    ensures Ordered(own, ss, |own|)
  {
    hide Lists, OwnBlocker;
    assert own[..|own|] == own;
  }

  lemma UnsealedScope(ss: seq<Summary>)
    ensures RaisedScope(ss, UNSEALED_BLOCKER).None?
  {}

  lemma RaisedSomewhere(ss: seq<Summary>, b: Blocker)
    requires |ss| > 1
    ensures Raised(ss, b) <==> exists j :: 0 <= j < |SELECTION_DIMENSIONS| && RaisedAt(ss, SELECTION_DIMENSIONS[j], b)
  {
    hide RaisedAt;
    if Raised(ss, b) {
      var d :| d in SELECTION_DIMENSIONS && RaisedAt(ss, d, b);
      var j :| 0 <= j < |SELECTION_DIMENSIONS| && SELECTION_DIMENSIONS[j] == d;
      assert RaisedAt(ss, SELECTION_DIMENSIONS[j], b);
    }
  }

  // ---- what the list says ----

  /** All summaries show one and the same value of every selection dimension. */
  ghost predicate AllShowTheSame(ss: seq<Summary>) {
    forall d, i, j :: d in SELECTION_DIMENSIONS && 0 <= i < |ss| && 0 <= j < |ss| ==>
      ShownBy(ss[i], d).Some? && ShownBy(ss[i], d) == ShownBy(ss[j], d)
  }

  /**
   Nothing is listed exactly when no cohort is blocked, nothing is unsealed, and several cohorts all show the same
   seal.
   */
  lemma SelectionClear(bs: seq<Scoped>, ss: seq<Summary>, unsealed: nat)
    requires Selects(bs, ss, unsealed)
    ensures bs == [] <==>
      (forall k :: 0 <= k < |ss| ==> ss[k].blockers == []) && unsealed == 0 && (|ss| > 1 ==> AllShowTheSame(ss))
  {
    hide ShownBy, Selects, Once;
    EmptyIffNoBlocker(bs, ss, unsealed);
    if forall b :: !Blocks(ss, unsealed, b) {
      assert !Blocks(ss, unsealed, UNSEALED_BLOCKER);
      forall k | 0 <= k < |ss| ensures ss[k].blockers == [] {
        if ss[k].blockers != [] { assert Blocks(ss, unsealed, ss[k].blockers[0]) by { OwnBlocks(ss, unsealed, k); } }
      }
      if |ss| > 1 {
        forall d, i, j | d in SELECTION_DIMENSIONS && 0 <= i < |ss| && 0 <= j < |ss|
          ensures ShownBy(ss[i], d).Some? && ShownBy(ss[i], d) == ShownBy(ss[j], d)
        {
          assert !Blocks(ss, unsealed, UnknownBlocker(d)) && !Blocks(ss, unsealed, ChangedBlocker(d));
          assert !Blocks(ss, unsealed, NotComparableBlocker(d));
          UnraisedIsSame(ss, d, i, j);
        }
      }
    }
    if (forall k :: 0 <= k < |ss| ==> ss[k].blockers == []) && unsealed == 0 && (|ss| > 1 ==> AllShowTheSame(ss)) {
      forall b ensures !Blocks(ss, unsealed, b) {
        if |ss| > 1 { SameRaisesNothing(ss, b); }
      }
    }
  }

  lemma OwnBlocks(ss: seq<Summary>, unsealed: nat, k: nat)
    requires k < |ss| && ss[k].blockers != []
    ensures Blocks(ss, unsealed, ss[k].blockers[0])
  {
    assert ss[k].blockers[0] in ss[k].blockers;
  }

  lemma EmptyIffNoBlocker(bs: seq<Scoped>, ss: seq<Summary>, unsealed: nat)
    requires Selects(bs, ss, unsealed)
    ensures bs == [] <==> forall b :: !Blocks(ss, unsealed, b)
  {
    hide Blocks;
    if bs != [] {
      assert Lists(bs, bs[0].blocker);
    } else {
      forall b ensures !Blocks(ss, unsealed, b) { assert !Lists(bs, b); }
    }
  }

  lemma UnraisedIsSame(ss: seq<Summary>, d: SealDimension, i: nat, j: nat)
    requires |ss| > 1 && d in SELECTION_DIMENSIONS && i < |ss| && j < |ss|
    requires !Raised(ss, UnknownBlocker(d)) && !Raised(ss, ChangedBlocker(d)) && !Raised(ss, NotComparableBlocker(d))
    ensures ShownBy(ss[i], d).Some? && ShownBy(ss[i], d) == ShownBy(ss[j], d)
  {
    hide ShownBy, Crosses;
    assert !RaisedAt(ss, d, UnknownBlocker(d)) && !RaisedAt(ss, d, ChangedBlocker(d));
    assert !RaisedAt(ss, d, NotComparableBlocker(d));
    assert ShownBy(ss[i], d).Some? && ShownBy(ss[j], d).Some?;
    assert !ShownDiffer(ss[i], ss[j], d);
  }

  lemma SameRaisesNothing(ss: seq<Summary>, b: Blocker)
    requires |ss| > 1 && AllShowTheSame(ss)
    ensures !Raised(ss, b)
  {
    hide ShownBy;
    EveryDimensionListed(ServiceInstance);
    assert !Crosses(ss);
    forall d | d in SELECTION_DIMENSIONS ensures !RaisedAt(ss, d, b) {
      assert !SomeHidden(ss, d) && !SomeDiffer(ss, d);
    }
  }

  /**
   A change of account scope or route that no cohort reports by itself is listed exactly where two cohorts of one known
   service instance show different values.
   */
  lemma ChangeNeedsOneInstance(bs: seq<Scoped>, ss: seq<Summary>, unsealed: nat, d: SealDimension)
    requires Selects(bs, ss, unsealed) && d in PARTITION_DIMENSIONS && !OwnBlocker(ss, ChangedBlocker(d))
    ensures Lists(bs, ChangedBlocker(d)) <==> SomeDifferTogether(ss, d)
  {
    hide Once, OwnBlocker, SomeDifferTogether, Raised, Lists;
    assert Lists(bs, ChangedBlocker(d)) <==> Blocks(ss, unsealed, ChangedBlocker(d));
    ChangeRaised(ss, d);
  }

  lemma ChangeRaised(ss: seq<Summary>, d: SealDimension)
    requires d in PARTITION_DIMENSIONS
    ensures Raised(ss, ChangedBlocker(d)) <==> SomeDifferTogether(ss, d)
  {
    hide Together, ShownDiffer, Crosses, SomeHidden, SomeDiffer, SomeDifferTogether;
    PartitionIsSelection(d);
    SeveralTogether(ss, d);
    if Raised(ss, ChangedBlocker(d)) {
      var e :| e in SELECTION_DIMENSIONS && RaisedAt(ss, e, ChangedBlocker(d));
      assert e == d;
    }
    if SomeDifferTogether(ss, d) { assert RaisedAt(ss, d, ChangedBlocker(d)); }
  }

  lemma SeveralTogether(ss: seq<Summary>, d: SealDimension)
    ensures SomeDifferTogether(ss, d) ==> |ss| > 1 && SomeDiffer(ss, d)
    ensures !Crosses(ss) && SomeDiffer(ss, d) ==> SomeDifferTogether(ss, d)
  {
    hide Together, ShownDiffer;
    if SomeDifferTogether(ss, d) {
      var i, j :| 0 <= i < |ss| && 0 <= j < |ss| && Together(ss[i], ss[j]) && ShownDiffer(ss[i], ss[j], d);
      NotDifferentFromItself(ss[i], d);
    }
    if !Crosses(ss) && SomeDiffer(ss, d) {
      var i, j :| 0 <= i < |ss| && 0 <= j < |ss| && ShownDiffer(ss[i], ss[j], d);
      NotDifferentFromItself(ss[i], d);
      TogetherSwaps(ss[j], ss[i]);
      assert Together(ss[i], ss[j]);
    }
  }

  lemma TogetherSwaps(a: Summary, b: Summary)
    ensures Together(a, b) <==> Together(b, a)
  {}

  lemma PartitionIsSelection(d: SealDimension)
    requires d in PARTITION_DIMENSIONS
    ensures d in SELECTION_DIMENSIONS
  {}
}
