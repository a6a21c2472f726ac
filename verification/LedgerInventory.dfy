/** The inventory of a sync: one item for each expected commit, conflict, shared path and rerere application. */
module LedgerInventory {
  import opened Units
  import opened Seqs
  import opened Sorting
  import opened TextOrder

  datatype Kind = UpstreamCommit | Conflict | SharedPath | Rerere

  /** A field that is missing reads as the empty text, which every check refuses. */
  datatype Source = Source(sha: Text, path: Text, preimage: Text, conflictClass: Text)

  datatype Item = Item(id: Text, kind: Kind, source: Source)

  datatype ConflictEntry = ConflictEntry(path: Text, conflictClass: Text)
  datatype Application = Application(path: Text, preimage: Text)

  /** Whether the Qwen provider must be compared, and because of which paths. */
  datatype Trigger = Trigger(active: bool, paths: seq<Text>)

  datatype CaptureState = PreMergeEmpty | Capturing | CaptureComplete | UnknownState

  datatype Phase = PreMerge | MergeInProgress | Final

  /** What a sync must account for, with the phase of the inventory. */
  datatype Expected = Expected(
    commits: seq<Text>,
    conflicts: seq<ConflictEntry>,
    sharedPaths: seq<Text>,
    applications: seq<Application>,
    trigger: Trigger,
    capture: CaptureState,
    phase: Phase)

  // ---- checks on single values ----

  const SLASH: Unit := 0x2f
  const COLON: Unit := 0x3a

  predicate IsLowerHex(c: Unit) { 0x30 <= c <= 0x39 || 0x61 <= c <= 0x66 }

  predicate IsHash(t: Text, length: nat) { |t| == length && forall k :: 0 <= k < |t| ==> IsLowerHex(t[k]) }

  /** `0123456789abcdef` */
  const HEX_DIGITS: Text := [
    0x30, 0x31, 0x32, 0x33, 0x34, 0x35, 0x36, 0x37, 0x38, 0x39, 0x61, 0x62, 0x63, 0x64, 0x65, 0x66]

  /** A hash is so many of these digits. */
  lemma HashMeans(t: Text, length: nat)
    ensures IsHash(t, length) <==> |t| == length && forall k :: 0 <= k < |t| ==> t[k] in HEX_DIGITS
  {
    forall c: Unit ensures IsLowerHex(c) <==> c in HEX_DIGITS {
      if 0x30 <= c <= 0x39 { assert HEX_DIGITS[c - 0x30] == c; }
      if 0x61 <= c <= 0x66 { assert HEX_DIGITS[c - 0x61 + 10] == c; }
    }
  }

  predicate IsBlankUnit(c: Unit) {
    || 0x09 <= c <= 0x0d || c == 0x20 || c == 0xa0 || c == 0xfeff || c == 0x1680 || 0x2000 <= c <= 0x200a
    || c == 0x2028 || c == 0x2029 || c == 0x202f || c == 0x205f || c == 0x3000
  }

  predicate IsBlank(t: Text) { forall k :: 0 <= k < |t| ==> IsBlankUnit(t[k]) }

  /** The parts of a path between slashes. */
  function Parts(path: Text): (r: seq<Text>)
    ensures r != []
  {
    if path == [] then [[]]
    else
      var rest := Parts(path[1..]);
      if path[0] == SLASH then [[]] + rest else [[path[0]] + rest[0]] + rest[1..]
  }

  function Joined(parts: seq<Text>): Text
    requires parts != []
  {
    if |parts| == 1 then parts[0] else parts[0] + ([SLASH] + Joined(parts[1..]))
  }

  /** The parts hold no slash, and joined by slashes they are the path. */
  lemma {:induction false} PartsMean(path: Text)
    ensures Joined(Parts(path)) == path && forall k :: 0 <= k < |Parts(path)| ==> SLASH !in Parts(path)[k]
    decreases |path|
  {
    if path != [] {
      var rest := Parts(path[1..]);
      PartsMean(path[1..]);
      assert path == [path[0]] + path[1..];
      if path[0] == SLASH {
        assert ([[]] + rest)[1..] == rest;
      } else {
        var first := [path[0]] + rest[0];
        assert ([first] + rest[1..])[1..] == rest[1..];
      }
    }
  }

  /** A normalized path relative to the repository. */
  predicate SafePath(path: Text) {
    && (forall k :: 0 <= k < |path| ==> path[k] != 0x5c && path[k] != 0 && path[k] != 0x0a && path[k] != 0x0d)
    && forall k :: 0 <= k < |Parts(path)| ==>
         Parts(path)[k] != [] && Parts(path)[k] != [0x2e] && Parts(path)[k] != [0x2e, 0x2e]
  }

  predicate ValidSource(kind: Kind, s: Source) {
    match kind
    case UpstreamCommit => IsHash(s.sha, 40)
    case Conflict => SafePath(s.path) && !IsBlank(s.conflictClass)
    case SharedPath => SafePath(s.path)
    case Rerere => SafePath(s.path) && IsHash(s.preimage, 64)
  }

  /** `commit:`, `conflict:`, `shared-path:`, `rerere:` */
  function Prefix(kind: Kind): Text {
    match kind
    case UpstreamCommit => [0x63, 0x6f, 0x6d, 0x6d, 0x69, 0x74, COLON]
    case Conflict => [0x63, 0x6f, 0x6e, 0x66, 0x6c, 0x69, 0x63, 0x74, COLON]
    case SharedPath => [0x73, 0x68, 0x61, 0x72, 0x65, 0x64, 0x2d, 0x70, 0x61, 0x74, 0x68, COLON]
    case Rerere => [0x72, 0x65, 0x72, 0x65, 0x72, 0x65, COLON]
  }

  function ApplicationKey(path: Text, preimage: Text): Text { path + ([COLON] + preimage) }

  /** What identifies a source within its kind. */
  function SourceKey(kind: Kind, s: Source): Text {
    match kind
    case UpstreamCommit => s.sha
    case Rerere => ApplicationKey(s.path, s.preimage)
    case _ => s.path
  }

  function CanonicalId(kind: Kind, s: Source): Text { Prefix(kind) + SourceKey(kind, s) }

  predicate ValidItem(i: Item) { ValidSource(i.kind, i.source) && i.id == CanonicalId(i.kind, i.source) }

  // ---- what the validators accept ----

  function Ids(items: seq<Item>): seq<Text> { seq(|items|, k requires 0 <= k < |items| => items[k].id) }

  function ConflictPaths(es: seq<ConflictEntry>): seq<Text> { seq(|es|, k requires 0 <= k < |es| => es[k].path) }

  function ApplicationKeys(apps: seq<Application>): seq<Text> {
    seq(|apps|, k requires 0 <= k < |apps| => ApplicationKey(apps[k].path, apps[k].preimage))
  }

  /** `packages/providers/src/providers/qwen.ts` */
  const QWEN_FILE: Text := [
    0x70, 0x61, 0x63, 0x6b, 0x61, 0x67, 0x65, 0x73, 0x2f, 0x70, 0x72, 0x6f, 0x76, 0x69, 0x64, 0x65, 0x72, 0x73,
    0x2f, 0x73, 0x72, 0x63, 0x2f, 0x70, 0x72, 0x6f, 0x76, 0x69, 0x64, 0x65, 0x72, 0x73, 0x2f, 0x71, 0x77, 0x65,
    0x6e, 0x2e, 0x74, 0x73]

  /** `packages/providers/src/providers/qwen/` */
  const QWEN_FOLDER: Text := [
    0x70, 0x61, 0x63, 0x6b, 0x61, 0x67, 0x65, 0x73, 0x2f, 0x70, 0x72, 0x6f, 0x76, 0x69, 0x64, 0x65, 0x72, 0x73,
    0x2f, 0x73, 0x72, 0x63, 0x2f, 0x70, 0x72, 0x6f, 0x76, 0x69, 0x64, 0x65, 0x72, 0x73, 0x2f, 0x71, 0x77, 0x65,
    0x6e, 0x2f]

  predicate IsQwen(path: Text) { path == QWEN_FILE || QWEN_FOLDER <= path }

  function KeepQwen(): Text -> seq<Text> { (path: Text) => if IsQwen(path) then [path] else [] }

  /** The Qwen paths among conflicts and shared paths, each once, in the order of texts. */
  function DerivedTrigger(conflicts: seq<ConflictEntry>, sharedPaths: seq<Text>): Trigger {
    var paths := Sort(Dedup(FlatMap(KeepQwen(), ConflictPaths(conflicts) + sharedPaths)), ByText());
    Trigger(paths != [], paths)
  }

  predicate ValidTrigger(x: Expected) {
    && (forall k :: 0 <= k < |x.trigger.paths| ==> SafePath(x.trigger.paths[k]))
    && x.trigger == DerivedTrigger(x.conflicts, x.sharedPaths)
  }

  /** A known capture state, and before the merge the explicit empty one. */
  predicate ValidCapture(x: Expected) {
    !x.capture.UnknownState? && (x.phase == PreMerge ==> x.capture == PreMergeEmpty && x.applications == [])
  }

  ghost predicate ValidExpected(x: Expected) {
    && (forall k :: 0 <= k < |x.commits| ==> IsHash(x.commits[k], 40)) && Distinct(x.commits)
    && (forall k :: 0 <= k < |x.conflicts| ==> SafePath(x.conflicts[k].path) && !IsBlank(x.conflicts[k].conflictClass))
    && Distinct(ConflictPaths(x.conflicts))
    && (forall k :: 0 <= k < |x.sharedPaths| ==>
      SafePath(x.sharedPaths[k]) && x.sharedPaths[k] !in ConflictPaths(x.conflicts))
    && Distinct(x.sharedPaths)
    && (forall k :: 0 <= k < |x.applications| ==>
      SafePath(x.applications[k].path) && IsHash(x.applications[k].preimage, 64))
    && Distinct(ApplicationKeys(x.applications))
    && ValidTrigger(x) && ValidCapture(x)
  }

  /** The items of one kind, in order. */
  function OfKind(items: seq<Item>, kind: Kind): (r: seq<Item>)
    ensures forall k :: 0 <= k < |r| ==> r[k].kind == kind
  {
    if items == [] then []
    else if items[0].kind == kind then [items[0]] + OfKind(items[1..], kind)
    else OfKind(items[1..], kind)
  }

  function Keys(items: seq<Item>): seq<Text> {
    seq(|items|, k requires 0 <= k < |items| => SourceKey(items[k].kind, items[k].source))
  }

  /** The first item with this path, as `find` returns it. */
  function FirstWithPath(items: seq<Item>, path: Text): Option<Item> {
    if items == [] then None
    else if items[0].source.path == path then Some(items[0])
    else FirstWithPath(items[1..], path)
  }

  ghost predicate Includes(all: seq<Text>, some: seq<Text>) { forall k :: 0 <= k < |some| ==> some[k] in all }

  /** The comparison of items with what is expected: inclusion one way, and equal counts. */
  ghost predicate MatchesExpected(x: Expected, items: seq<Item>) {
    && Includes(Keys(OfKind(items, UpstreamCommit)), x.commits) && |OfKind(items, UpstreamCommit)| == |x.commits|
    && (forall k :: 0 <= k < |x.conflicts| ==>
          var found := FirstWithPath(OfKind(items, Conflict), x.conflicts[k].path);
          found.Some? && found.value.source.conflictClass == x.conflicts[k].conflictClass)
    && |OfKind(items, Conflict)| == |x.conflicts|
    && Includes(Keys(OfKind(items, SharedPath)), x.sharedPaths) && |OfKind(items, SharedPath)| == |x.sharedPaths|
    && Includes(Keys(OfKind(items, Rerere)), ApplicationKeys(x.applications))
    && |OfKind(items, Rerere)| == |x.applications|
  }

  ghost predicate Accepted(x: Expected, items: seq<Item>) {
    && ValidExpected(x) && Distinct(Ids(items))
    && (forall k :: 0 <= k < |items| ==> ValidItem(items[k]))
    && MatchesExpected(x, items)
  }

  // ---- the validators ----

  /** Fills a set while it reads, and fails on the first repetition. */
  method CheckDistinct(keys: seq<Text>) returns (ok: bool)
    ensures ok <==> Distinct(keys)
  {
    var seen: set<Text> := {};
    for k := 0 to |keys|
      invariant Distinct(keys[..k])
      invariant forall t :: t in seen <==> t in keys[..k]
    {
      if keys[k] in seen {
        var j :| 0 <= j < k && keys[j] == keys[k];
        return false;
      }
      assert keys[..k + 1] == keys[..k] + [keys[k]];
      seen := seen + {keys[k]};
    }
    assert keys[..|keys|] == keys;
    return true;
  }

  method CheckIncludes(all: seq<Text>, some: seq<Text>) returns (ok: bool)
    ensures ok <==> Includes(all, some)
  {
    var sources := set t | t in all;
    for k := 0 to |some|
      invariant forall j :: 0 <= j < k ==> some[j] in all
    {
      if some[k] !in sources { return false; }
    }
    return true;
  }

  method ValidateExpected(x: Expected) returns (ok: bool)
    ensures ok <==> ValidExpected(x)
  {
    hide SafePath, IsHash, IsBlank, DerivedTrigger, ConflictPaths, ApplicationKeys;
    if exists k :: 0 <= k < |x.commits| && !IsHash(x.commits[k], 40) { return false; }
    var commits := CheckDistinct(x.commits);
    if !commits { return false; }
    if exists k :: 0 <= k < |x.conflicts| && (!SafePath(x.conflicts[k].path) || IsBlank(x.conflicts[k].conflictClass)) {
      return false;
    }
    var paths := ConflictPaths(x.conflicts);
    var conflicts := CheckDistinct(paths);
    if !conflicts { return false; }
    if exists k ::
      0 <= k < |x.sharedPaths| && (!SafePath(x.sharedPaths[k]) || x.sharedPaths[k] in paths) { return false; }
    var shared := CheckDistinct(x.sharedPaths);
    if !shared { return false; }
    if exists k :: 0 <= k < |x.trigger.paths| && !SafePath(x.trigger.paths[k]) { return false; }
    if x.trigger != DerivedTrigger(x.conflicts, x.sharedPaths) { return false; }
    if x.capture.UnknownState? { return false; }
    if exists k ::
      0 <= k < |x.applications| && (!SafePath(x.applications[k].path) || !IsHash(x.applications[k].preimage, 64)) {
      return false;
    }
    var applications := CheckDistinct(ApplicationKeys(x.applications));
    if !applications { return false; }
    ok := !(x.phase == PreMerge && (x.capture != PreMergeEmpty || |x.applications| != 0));
  }

  /** A valid trigger lists the Qwen paths among conflicts and shared paths, sorted, and is active when there is one. */
  lemma TriggerMeans(x: Expected)
    requires ValidTrigger(x)
    ensures x.trigger.active <==> exists p :: IsQwenPath(x, p)
    ensures (forall p :: p in x.trigger.paths <==> IsQwenPath(x, p)) && Distinct(x.trigger.paths)
    ensures Sorted(x.trigger.paths, ByText())
  {
    hide IsQwen, FlatMap, Sort, Dedup, TextLe, SafePath;
    var all := ConflictPaths(x.conflicts) + x.sharedPaths;
    var kept := Dedup(FlatMap(KeepQwen(), all));
    DedupMembers(FlatMap(KeepQwen(), all));
    TextsOrdered();
    SortSorts(kept, ByText());
    MembersByMultiset(x.trigger.paths, kept);
    DistinctPermutes(x.trigger.paths, kept);
    forall p ensures p in x.trigger.paths <==> IsQwenPath(x, p) { QwenPathKept(x, p); }
    if x.trigger.active { assert x.trigger.paths[0] in x.trigger.paths; }
  }

  ghost predicate IsQwenPath(x: Expected, p: Text) {
    IsQwen(p) && (p in ConflictPaths(x.conflicts) || p in x.sharedPaths)
  }

  lemma QwenPathKept(x: Expected, p: Text)
    ensures p in FlatMap(KeepQwen(), ConflictPaths(x.conflicts) + x.sharedPaths) <==> IsQwenPath(x, p)
  {
    hide IsQwen, FlatMap;
    var all := ConflictPaths(x.conflicts) + x.sharedPaths;
    FlatMapMember(KeepQwen(), all, p);
    if IsQwenPath(x, p) {
      assert p in all;
      var k :| 0 <= k < |all| && all[k] == p;
      assert p in KeepQwen()(all[k]);
    }
  }

  method CompareExpectedItems(x: Expected, items: seq<Item>) returns (ok: bool)
    ensures ok <==> MatchesExpected(x, items)
  {
    var commitItems, conflictItems := OfKind(items, UpstreamCommit), OfKind(items, Conflict);
    var sharedItems, rerereItems := OfKind(items, SharedPath), OfKind(items, Rerere);
    ok := CheckIncludes(Keys(commitItems), x.commits);
    if !ok || |commitItems| != |x.commits| { return false; }
    for k := 0 to |x.conflicts|
      invariant forall j :: 0 <= j < k ==>
        var found := FirstWithPath(conflictItems, x.conflicts[j].path);
        found.Some? && found.value.source.conflictClass == x.conflicts[j].conflictClass
    {
      var found := FirstWithPath(conflictItems, x.conflicts[k].path);
      if found.None? || found.value.source.conflictClass != x.conflicts[k].conflictClass { return false; }
    }
    if |conflictItems| != |x.conflicts| { return false; }
    ok := CheckIncludes(Keys(sharedItems), x.sharedPaths);
    if !ok || |sharedItems| != |x.sharedPaths| { return false; }
    ok := CheckIncludes(Keys(rerereItems), ApplicationKeys(x.applications));
    ok := ok && |rerereItems| == |x.applications|;
  }

  /** Accepts exactly the inventories whose items are the expected ones. */
  method ValidateInventory(x: Expected, items: seq<Item>) returns (ok: bool)
    ensures ok <==> Accepted(x, items)
    ensures ok <==> ValidExpected(x) && (forall k :: 0 <= k < |items| ==> ValidItem(items[k])) && Exact(x, items)
  {
    hide ValidExpected, MatchesExpected, ValidItem, Exact;
    AcceptedIffExact(x, items);
    ok := ValidateExpected(x);
    if !ok { return; }
    ok := CheckDistinct(Ids(items));
    if !ok { return; }
    if exists k :: 0 <= k < |items| && !ValidItem(items[k]) { return false; }
    ok := CompareExpectedItems(x, items);
  }

  // ---- acceptance is exactness ----

  function ConflictsOf(items: seq<Item>): seq<ConflictEntry> {
    var own := OfKind(items, Conflict);
    seq(|own|, k requires 0 <= k < |own| => ConflictEntry(own[k].source.path, own[k].source.conflictClass))
  }

  function ApplicationsOf(items: seq<Item>): seq<Application> {
    var own := OfKind(items, Rerere);
    seq(|own|, k requires 0 <= k < |own| => Application(own[k].source.path, own[k].source.preimage))
  }

  /** One item for each expected entry, and no other item. */
  ghost predicate Exact(x: Expected, items: seq<Item>) {
    && multiset(Keys(OfKind(items, UpstreamCommit))) == multiset(x.commits)
    && multiset(ConflictsOf(items)) == multiset(x.conflicts)
    && multiset(Keys(OfKind(items, SharedPath))) == multiset(x.sharedPaths)
    && multiset(ApplicationsOf(items)) == multiset(x.applications)
  }

  lemma AcceptedIffExact(x: Expected, items: seq<Item>)
    ensures Accepted(x, items) <==>
              ValidExpected(x) && (forall k :: 0 <= k < |items| ==> ValidItem(items[k])) && Exact(x, items)
  {
    hide ValidItem, MatchesExpected, Exact, ValidExpected;
    if ValidExpected(x) && forall k :: 0 <= k < |items| ==> ValidItem(items[k]) {
      if Distinct(Ids(items)) && MatchesExpected(x, items) { MatchedIsExact(x, items); }
      if Exact(x, items) { ExactIsMatched(x, items); }
    }
  }

  ghost predicate AllValid(items: seq<Item>) { forall k :: 0 <= k < |items| ==> ValidItem(items[k]) }

  lemma {:induction false} OfKindKeeps(items: seq<Item>, kind: Kind)
    requires AllValid(items)
    ensures AllValid(OfKind(items, kind)) && forall i :: i in OfKind(items, kind) <==> i in items && i.kind == kind
    decreases |items|
  {
    hide ValidItem;
    if items != [] {
      OfKindKeeps(items[1..], kind);
      assert items == [items[0]] + items[1..];
    }
  }

  lemma {:induction false} OfKindDistinct(items: seq<Item>, kind: Kind)
    requires AllValid(items) && Distinct(Ids(items))
    ensures Distinct(Keys(OfKind(items, kind)))
    decreases |items|
  {
    hide ValidItem, CanonicalId, OfKind, SourceKey;
    if items == [] {
      assert OfKind(items, kind) == [] by { EmptyKind(kind); }
    } else {
      var rest := items[1..];
      var own := OfKind(rest, kind);
      assert Distinct(Ids(rest)) by {
        assert forall k :: 0 <= k < |rest| ==> Ids(rest)[k] == Ids(items)[k + 1];
      }
      OfKindDistinct(rest, kind);
      OfKindKeeps(rest, kind);
      if items[0].kind == kind {
        forall k | 0 <= k < |own| ensures Keys(own)[k] != SourceKey(kind, items[0].source) {
          assert own[k] in rest;
          var j :| 0 <= j < |rest| && rest[j] == own[k];
          assert Ids(items)[0] != Ids(items)[j + 1];
          SameKeySameId(items[0], own[k]);
        }
      }
      TailKeys(items, kind);
    }
  }

  lemma EmptyKind(kind: Kind)
    ensures OfKind([], kind) == []
  {}

  lemma SameKeySameId(a: Item, b: Item)
    requires ValidItem(a) && ValidItem(b) && a.kind == b.kind
    ensures SourceKey(a.kind, a.source) == SourceKey(b.kind, b.source) ==> a.id == b.id
  {}

  /** A key splits in one way, because the digest has a fixed length. */
  lemma ApplicationKeySplits(p: Text, d: Text, p': Text, d': Text)
    requires |d| == |d'|
    ensures ApplicationKey(p, d) == ApplicationKey(p', d') <==> p == p' && d == d'
  {
    var k, k' := ApplicationKey(p, d), ApplicationKey(p', d');
    assert p == k[..|p|] && d == k[|p| + 1..];
    assert p' == k'[..|p'|] && d' == k'[|p'| + 1..];
  }

  lemma {:induction false} FirstWithPathIn(items: seq<Item>, path: Text)
    ensures var r := FirstWithPath(items, path);
            if r.Some? then r.value in items && r.value.source.path == path
            else forall k :: 0 <= k < |items| ==> items[k].source.path != path
    decreases |items|
  {
    if items != [] && items[0].source.path != path {
      FirstWithPathIn(items[1..], path);
      assert items == [items[0]] + items[1..];
    }
  }

  lemma KeysInclude(expected: seq<Text>, own: seq<Text>)
    requires Distinct(expected) && Distinct(own) && Includes(own, expected) && |own| == |expected|
    ensures multiset(own) == multiset(expected)
  {
    Rearranged(expected, own);
  }

  lemma ConflictsMatch(x: Expected, items: seq<Item>)
    requires AllValid(items) && Distinct(Ids(items)) && Distinct(ConflictPaths(x.conflicts))
    requires |OfKind(items, Conflict)| == |x.conflicts|
    requires forall k :: 0 <= k < |x.conflicts| ==>
               var found := FirstWithPath(OfKind(items, Conflict), x.conflicts[k].path);
               found.Some? && found.value.source.conflictClass == x.conflicts[k].conflictClass
    ensures multiset(ConflictsOf(items)) == multiset(x.conflicts)
  {
    hide OfKind;
    var own := OfKind(items, Conflict);
    var entries := ConflictsOf(items);
    OfKindDistinct(items, Conflict);
    forall i, j | 0 <= i < j < |own| ensures entries[i] != entries[j] { assert Keys(own)[i] != Keys(own)[j]; }
    forall i, j | 0 <= i < j < |x.conflicts| ensures x.conflicts[i] != x.conflicts[j] {
      assert ConflictPaths(x.conflicts)[i] != ConflictPaths(x.conflicts)[j];
    }
    forall k | 0 <= k < |x.conflicts| ensures x.conflicts[k] in entries {
      FirstWithPathIn(own, x.conflicts[k].path);
      var found := FirstWithPath(own, x.conflicts[k].path).value;
      var j :| 0 <= j < |own| && own[j] == found;
      assert entries[j] == x.conflicts[k];
    }
    Rearranged(x.conflicts, entries);
  }

  lemma ApplicationsMatch(x: Expected, items: seq<Item>)
    requires AllValid(items) && Distinct(Ids(items)) && Distinct(ApplicationKeys(x.applications))
    requires forall k :: 0 <= k < |x.applications| ==> |x.applications[k].preimage| == 64
    requires Includes(Keys(OfKind(items, Rerere)), ApplicationKeys(x.applications))
    requires |OfKind(items, Rerere)| == |x.applications|
    ensures multiset(ApplicationsOf(items)) == multiset(x.applications)
  {
    hide OfKind, ApplicationKey;
    var own, apps := OfKind(items, Rerere), x.applications;
    var entries := ApplicationsOf(items);
    OfKindKeeps(items, Rerere);
    OfKindDistinct(items, Rerere);
    forall i, j | 0 <= i < j < |own| ensures entries[i] != entries[j] { assert Keys(own)[i] != Keys(own)[j]; }
    forall i, j | 0 <= i < j < |apps| ensures apps[i] != apps[j] {
      assert ApplicationKeys(apps)[i] != ApplicationKeys(apps)[j];
    }
    forall k | 0 <= k < |apps| ensures apps[k] in entries {
      assert ApplicationKeys(apps)[k] in Keys(own);
      var j :| 0 <= j < |own| && Keys(own)[j] == ApplicationKeys(apps)[k];
      assert ValidItem(own[j]);
      ApplicationKeySplits(own[j].source.path, own[j].source.preimage, apps[k].path, apps[k].preimage);
      assert entries[j] == apps[k];
    }
    Rearranged(apps, entries);
  }

  lemma MatchedIsExact(x: Expected, items: seq<Item>)
    requires ValidExpected(x) && AllValid(items) && Distinct(Ids(items)) && MatchesExpected(x, items)
    ensures Exact(x, items)
  {
    hide OfKind, ValidItem, SafePath, IsBlank;
    OfKindDistinct(items, UpstreamCommit);
    KeysInclude(x.commits, Keys(OfKind(items, UpstreamCommit)));
    OfKindDistinct(items, SharedPath);
    KeysInclude(x.sharedPaths, Keys(OfKind(items, SharedPath)));
    ConflictsMatch(x, items);
    ApplicationsMatch(x, items);
  }

  // ---- and back ----

  /** The kind and the key can be read off a canonical id. */
  lemma IdsSeparate(a: Item, b: Item)
    requires ValidItem(a) && ValidItem(b)
    ensures a.id == b.id ==> a.kind == b.kind && SourceKey(a.kind, a.source) == SourceKey(b.kind, b.source)
  {
    if a.id == b.id {
      var p, q := Prefix(a.kind), Prefix(b.kind);
      assert forall k :: 0 <= k < 3 ==> a.id[k] == p[k] && b.id[k] == q[k];
      assert p[0] == q[0] && p[2] == q[2];
      assert a.kind == b.kind;
      assert a.id[|p|..] == SourceKey(a.kind, a.source) && b.id[|p|..] == SourceKey(b.kind, b.source);
    }
  }

  lemma {:induction false} IdsDistinct(items: seq<Item>)
    requires AllValid(items) && forall kind :: Distinct(Keys(OfKind(items, kind)))
    ensures Distinct(Ids(items))
    decreases |items|
  {
    hide ValidItem, SourceKey, OfKind;
    if items != [] {
      var rest, first := items[1..], items[0];
      forall kind ensures Distinct(Keys(OfKind(rest, kind))) { TailKeys(items, kind); }
      IdsDistinct(rest);
      forall j | 0 <= j < |rest| ensures rest[j].id != first.id {
        IdsSeparate(first, rest[j]);
        OfKindKeeps(rest, first.kind);
        TailKeys(items, first.kind);
        if rest[j].kind == first.kind {
          var own := OfKind(rest, first.kind);
          assert rest[j] in own;
          var m :| 0 <= m < |own| && own[m] == rest[j];
          var keys := Keys(OfKind(items, first.kind));
          assert keys[0] == SourceKey(first.kind, first.source) && keys[m + 1] == Keys(own)[m];
          assert keys[0] != keys[m + 1];
        }
      }
      assert Ids(items) == [first.id] + Ids(rest);
    }
  }

  lemma TailKeys(items: seq<Item>, kind: Kind)
    requires items != []
    ensures var own := Keys(OfKind(items[1..], kind));
            Keys(OfKind(items, kind)) ==
              if items[0].kind == kind then [SourceKey(kind, items[0].source)] + own else own
    ensures Distinct(Keys(OfKind(items, kind))) ==> Distinct(Keys(OfKind(items[1..], kind)))
  {
    hide SourceKey;
    var own := Keys(OfKind(items[1..], kind));
    if items[0].kind == kind {
      assert Keys(OfKind(items, kind)) == [SourceKey(kind, items[0].source)] + own;
      assert forall k :: 0 <= k < |own| ==> own[k] == Keys(OfKind(items, kind))[k + 1];
    }
  }

  lemma ExactConflicts(x: Expected, items: seq<Item>)
    requires AllValid(items) && Distinct(ConflictPaths(x.conflicts))
      && multiset(ConflictsOf(items)) == multiset(x.conflicts)
    ensures Distinct(Keys(OfKind(items, Conflict))) && |OfKind(items, Conflict)| == |x.conflicts|
    ensures forall k :: 0 <= k < |x.conflicts| ==>
              var found := FirstWithPath(OfKind(items, Conflict), x.conflicts[k].path);
              found.Some? && found.value.source.conflictClass == x.conflicts[k].conflictClass
  {
    hide OfKind;
    var own, es := OfKind(items, Conflict), x.conflicts;
    var entries := ConflictsOf(items);
    MembersByMultiset(entries, es);
    assert forall i, j :: 0 <= i < j < |es| ==> es[i].path != es[j].path by {
      forall i, j | 0 <= i < j < |es| ensures es[i].path != es[j].path {
        assert ConflictPaths(es)[i] != ConflictPaths(es)[j];
      }
    }
    DistinctPermutes(entries, es);
    forall i, j | 0 <= i < j < |own| ensures Keys(own)[i] != Keys(own)[j] {
      assert entries[i] in es && entries[j] in es && entries[i] != entries[j];
    }
    forall k | 0 <= k < |es|
      ensures var found := FirstWithPath(own, es[k].path);
        found.Some? && found.value.source.conflictClass == es[k].conflictClass
    {
      assert es[k] in entries;
      var j :| 0 <= j < |own| && entries[j] == es[k];
      FirstWithPathIn(own, es[k].path);
      var found := FirstWithPath(own, es[k].path).value;
      var m :| 0 <= m < |own| && own[m] == found;
      assert entries[m] in es;
    }
  }

  lemma ExactApplications(x: Expected, items: seq<Item>)
    requires AllValid(items) && Distinct(ApplicationKeys(x.applications))
    requires multiset(ApplicationsOf(items)) == multiset(x.applications)
    ensures Distinct(Keys(OfKind(items, Rerere))) && |OfKind(items, Rerere)| == |x.applications|
    ensures Includes(Keys(OfKind(items, Rerere)), ApplicationKeys(x.applications))
  {
    hide OfKind, ApplicationKey;
    var own, apps := OfKind(items, Rerere), x.applications;
    var entries := ApplicationsOf(items);
    MembersByMultiset(entries, apps);
    forall i, j | 0 <= i < j < |apps| ensures apps[i] != apps[j] {
      assert ApplicationKeys(apps)[i] != ApplicationKeys(apps)[j];
    }
    DistinctPermutes(entries, apps);
    OfKindKeeps(items, Rerere);
    forall i, j | 0 <= i < j < |own| ensures Keys(own)[i] != Keys(own)[j] {
      assert ValidItem(own[i]) && ValidItem(own[j]) && entries[i] != entries[j];
      ApplicationKeySplits(own[i].source.path, own[i].source.preimage, own[j].source.path, own[j].source.preimage);
    }
    forall k | 0 <= k < |apps| ensures ApplicationKeys(apps)[k] in Keys(own) {
      assert apps[k] in entries;
      var j :| 0 <= j < |own| && entries[j] == apps[k];
      assert Keys(own)[j] == ApplicationKeys(apps)[k];
    }
  }

  lemma ExactKeys(own: seq<Text>, expected: seq<Text>)
    requires multiset(own) == multiset(expected) && Distinct(expected)
    ensures Distinct(own) && |own| == |expected| && Includes(own, expected)
  {
    MembersByMultiset(own, expected);
    DistinctPermutes(own, expected);
  }

  lemma ExactIsMatched(x: Expected, items: seq<Item>)
    requires ValidExpected(x) && AllValid(items) && Exact(x, items)
    ensures Distinct(Ids(items)) && MatchesExpected(x, items)
  {
    hide OfKind, ValidItem, SafePath, IsBlank;
    ExactKeys(Keys(OfKind(items, UpstreamCommit)), x.commits);
    ExactKeys(Keys(OfKind(items, SharedPath)), x.sharedPaths);
    ExactConflicts(x, items);
    ExactApplications(x, items);
    forall kind ensures Distinct(Keys(OfKind(items, kind))) {
      match kind
      case UpstreamCommit =>
      case Conflict =>
      case SharedPath =>
      case Rerere =>
    }
    IdsDistinct(items);
  }
}
