/** What a stored alias resolves to, said by the shape of the texts. */
module AliasResolution {
  import opened Units
  import opened ModelAliases

  // ---- shapes ----

  predicate Blank(s: string) { forall k :: 0 <= k < |s| ==> IsSpace(s[k]) }

  predicate Digits(s: string) { |s| > 0 && forall k :: 0 <= k < |s| ==> '0' <= s[k] <= '9' }

  /** The text without the white space around it. */
  ghost predicate IsCore(core: string, s: string) {
    && (exists before, after :: Blank(before) && Blank(after) && s == before + core + after)
    && (core != "" ==> !IsSpace(core[0]) && !IsSpace(core[|core| - 1]))
  }

  /** Numbers joined by dashes. */
  function Joined(numbers: seq<string>): string
    requires numbers != []
  {
    if |numbers| == 1 then numbers[0] else numbers[0] + ("-" + Joined(numbers[1..]))
  }

  ghost predicate IsVersion(s: string) {
    exists numbers :: IsVersionOf(s, numbers)
  }

  ghost predicate IsVersionOf(s: string, numbers: seq<string>) {
    numbers != [] && (forall k :: 0 <= k < |numbers| ==> Digits(numbers[k])) && s == Joined(numbers)
  }

  /** In any case: `claude`, the family and a version, joined by dashes, and perhaps white space behind. */
  ghost predicate IsModelOf(id: string, f: Family) {
    exists version, after ::
      IsVersion(version) && Blank(after) && Lower(id) == "claude-" + Name(f) + "-" + version + after
  }

  const UPPER := "ABCDEFGHIJKLMNOPQRSTUVWXYZ"
  const LOWER := "abcdefghijklmnopqrstuvwxyz"

  /** The letters of the Latin alphabet are lowered and nothing else changes. */
  lemma LowerMeans(s: string, k: nat)
    requires k < |s|
    ensures |Lower(s)| == |s|
    ensures forall n :: 0 <= n < 26 && s[k] == UPPER[n] ==> Lower(s)[k] == LOWER[n]
    ensures s[k] !in UPPER ==> Lower(s)[k] == s[k]
  {
    forall n | 0 <= n < 26 ensures UPPER[n] == 'A' + n as char && LOWER[n] == 'a' + n as char {}
    if 'A' <= s[k] <= 'Z' {
      assert s[k] == UPPER[(s[k] - 'A') as int];
    }
  }

  // ---- trimming ----

  /** A text has one core, and trimming finds it. */
  lemma TrimMeans(s: string, core: string)
    ensures IsCore(core, s) <==> core == Trim(s)
  {
    TrimIsCore(s);
    if IsCore(core, s) { CoresAgree(s, core, Trim(s)); }
  }

  lemma {:induction false} TrimStartStops(s: string)
    ensures TrimStart(s) != "" ==> !IsSpace(TrimStart(s)[0])
    decreases |s|
  {
    if s != "" && IsSpace(s[0]) { TrimStartStops(s[1..]); }
  }

  lemma {:induction false} TrimEndStops(s: string)
    ensures TrimEnd(s) != "" ==> !IsSpace(TrimEnd(s)[|TrimEnd(s)| - 1])
    decreases |s|
  {
    if s != "" && IsSpace(s[|s| - 1]) { TrimEndStops(s[..|s| - 1]); }
  }

  lemma TrimIsCore(s: string)
    ensures IsCore(Trim(s), s)
  {
    hide IsSpace;
    var n := TrimStartIs(s);
    var m := TrimEndIs(s[n..]);
    TrimStartStops(s);
    TrimEndStops(s[n..]);
    var before, after := s[..n], s[n..][m..];
    assert Trim(s) == s[n..][..m];
    assert s == before + Trim(s) + after;
    assert Blank(before) && Blank(after);
    if Trim(s) != "" { assert Trim(s)[0] == s[n..][0]; }
  }

  /** A core starts at the first character that is not white space, and ends at the last. */
  lemma CoreBounds(s: string, core: string, before: string, after: string, k: nat)
    requires Blank(before) && Blank(after) && s == before + core + after && k < |s|
    ensures k < |before| || k >= |before| + |core| ==> IsSpace(s[k])
    ensures core != "" ==> s[|before|] == core[0] && s[|before| + |core| - 1] == core[|core| - 1]
  {
    hide IsSpace;
    if k < |before| {
      assert s[k] == before[k];
    } else if k >= |before| + |core| {
      assert s[k] == after[k - |before| - |core|];
    }
  }

  lemma CoresAgree(s: string, a: string, b: string)
    requires IsCore(a, s) && IsCore(b, s)
    ensures a == b
  {
    hide IsSpace, Blank;
    var p, q :| Blank(p) && Blank(q) && s == p + a + q;
    var x, y :| Blank(x) && Blank(y) && s == x + b + y;
    if a != "" {
      CoreBounds(s, b, x, y, |p|);
      CoreBounds(s, b, x, y, |p| + |a| - 1);
      CoreBounds(s, a, p, q, |p|);
    }
    if b != "" {
      CoreBounds(s, a, p, q, |x|);
      CoreBounds(s, a, p, q, |x| + |b| - 1);
      CoreBounds(s, b, x, y, |x|);
    }
    if a != "" && b != "" {
      assert |p| == |x| && |p| + |a| == |x| + |b|;
      assert s[|p|..|p| + |a|] == a && s[|p|..|p| + |a|] == b;
    }
  }

  // ---- versions ----

  lemma {:induction false} FirstNumber(s: string) returns (k: nat)
    ensures k <= |s| && (forall j :: 0 <= j < k ==> IsDigit(s[j])) && (k < |s| ==> !IsDigit(s[k]))
    decreases |s|
  {
    k := 0;
    if s != "" && IsDigit(s[0]) {
      k := FirstNumber(s[1..]);
      k := k + 1;
    }
  }

  lemma {:induction false} GroupsAreVersion(s: string)
    requires DigitGroups(s)
    ensures IsVersion(s)
    decreases |s|
  {
    var k := FirstNumber(s);
    if k == |s| {
      assert IsVersionOf(s, [s]);
    } else {
      var rest := s[k + 1..];
      assert s[k] == '-' && k < |s| - 1;
      assert IsDigit(s[k + 1]);
      RestIsGroups(s, k + 1);
      GroupsAreVersion(rest);
      var numbers :| IsVersionOf(rest, numbers);
      var all := [s[..k]] + numbers;
      assert all[1..] == numbers;
      assert s == s[..k] + ("-" + rest);
      assert IsVersionOf(s, all);
    }
  }

  lemma RestIsGroups(s: string, k: nat)
    requires DigitGroups(s) && 0 < k < |s| && IsDigit(s[k])
    ensures DigitGroups(s[k..])
  {
    var rest := s[k..];
    forall j | 0 <= j < |rest| ensures rest[j] == s[k + j] {}
  }

  lemma {:induction false} VersionIsGroups(s: string, numbers: seq<string>)
    requires IsVersionOf(s, numbers)
    ensures DigitGroups(s)
    decreases |numbers|
  {
    if |numbers| > 1 {
      var rest := Joined(numbers[1..]);
      VersionIsGroups(rest, numbers[1..]);
      PrependNumber(numbers[0], rest);
    }
  }

  lemma PrependNumber(number: string, rest: string)
    requires Digits(number) && DigitGroups(rest)
    ensures DigitGroups(number + ("-" + rest))
  {
    var s, n := number + ("-" + rest), |number|;
    assert s[n] == '-';
    assert forall k :: 0 <= k < n ==> s[k] == number[k];
    assert forall k :: n < k < |s| ==> s[k] == rest[k - n - 1];
    forall k | 0 <= k < |s| - 1 ensures IsDigit(s[k]) || IsDigit(s[k + 1]) {
      if k > n { assert s[k + 1] == rest[k - n]; }
    }
  }

  lemma VersionMeans(s: string)
    ensures DigitGroups(s) <==> IsVersion(s)
  {
    if DigitGroups(s) { GroupsAreVersion(s); }
    if IsVersion(s) {
      var numbers :| IsVersionOf(s, numbers);
      VersionIsGroups(s, numbers);
    }
  }

  // ---- models that pass through ----

  lemma LowerJoins(a: string, b: string)
    ensures Lower(a + b) == Lower(a) + Lower(b)
  {}

  lemma LowerLength(s: string)
    ensures |Lower(s)| == |s|
  {}

  lemma LowerBlank(s: string)
    ensures Blank(Lower(s)) <==> Blank(s)
  {
    forall k | 0 <= k < |s| ensures IsSpace(Lower(s)[k]) <==> IsSpace(s[k]) {}
    if Blank(Lower(s)) {
      forall k | 0 <= k < |s| ensures IsSpace(s[k]) { assert IsSpace(Lower(s)[k]); }
    }
  }

  function Prefix(f: Family): string { "claude-" + Name(f) + "-" }

  lemma PrefixLength(f: Family)
    ensures |Prefix(f)| > 0
  {}

  lemma PrefixStarts(f: Family, s: string)
    ensures Prefix(f) <= s ==>
      s[0] == 'c' && |s| > |Prefix(f)| - 1 && "claude-" + Name(f) <= s && s[|Prefix(f)| - 1] == '-'
  {
    if Prefix(f) <= s {
      assert s[..|Prefix(f)|] == Prefix(f);
      assert s[0] == Prefix(f)[0];
      assert s[|Prefix(f)| - 1] == Prefix(f)[|Prefix(f)| - 1];
      assert s[..|Prefix(f)| - 1] == Prefix(f)[..|Prefix(f)| - 1] == "claude-" + Name(f);
    }
  }

  lemma NotSpace(c: char)
    ensures LowerChar(c) == 'c' || IsDigit(LowerChar(c)) ==> !IsSpace(c)
  {}

  /** A model that passes through is its core with white space behind. */
  lemma PassingIsModel(id: string, f: Family)
    requires PassesThrough(Some(id), f)
    ensures IsModelOf(id, f)
  {
    hide IsSpace, Blank, DigitGroups, IsVersion, IsConcreteFor, HasStrictPrefix, Lower, Trim, Name;
    var g :| IsConcreteFor(id, g);
    ConcreteFamilyIsStrict(id, f, g);
    var core, after := PassingCore(id, f);
    LowerJoins(core, after);
    LowerBlank(after);
    ConcreteParts(id, f);
    var version := Lower(core)[|Prefix(f)|..];
    VersionMeans(version);
    assert Lower(core) == Prefix(f) + version;
  }

  lemma PassingCore(id: string, f: Family) returns (core: string, after: string)
    requires HasStrictPrefix(id, f)
    ensures core == Trim(id) && Blank(after) && id == core + after
  {
    hide IsSpace, Blank, HasStrictPrefix, Trim;
    TrimIsCore(id);
    core := Trim(id);
    var before, behind :| Blank(before) && Blank(behind) && id == before + core + behind;
    after := behind;
    StartsWithC(id, f);
    NotSpace(id[0]);
    BlankStart(before, core + after);
    assert before + core + after == before + (core + after);
    assert before == "";
    assert before + (core + after) == core + after;
  }

  lemma BlankStart(before: string, rest: string)
    requires Blank(before)
    ensures before != "" ==> IsSpace((before + rest)[0])
  {
    hide IsSpace;
    if before != "" { assert (before + rest)[0] == before[0]; }
  }

  lemma StartsWithC(id: string, f: Family)
    requires HasStrictPrefix(id, f)
    ensures id != "" && LowerChar(id[0]) == 'c'
  {
    assert Lower(id)[0] == ("claude-" + Name(f))[0];
  }

  lemma ConcreteParts(id: string, f: Family)
    ensures IsConcreteFor(id, f) <==>
      Prefix(f) <= Lower(Trim(id)) && DigitGroups(Lower(Trim(id))[|Prefix(f)|..])
  {}

  /** A model with a version and at most white space behind passes through. */
  lemma ModelPasses(id: string, f: Family, version: string, after: string)
    requires IsVersion(version) && Blank(after) && Lower(id) == Prefix(f) + version + after
    ensures PassesThrough(Some(id), f)
  {
    hide IsSpace, Blank, DigitGroups, IsVersion, IsConcreteFor, HasStrictPrefix, Lower, Trim, StrictFamily, Prefix;
    LowerLength(id);
    var n := |Prefix(f)| + |version|;
    var core, behind := id[..n], id[n..];
    assert id == core + behind;
    LowerJoins(core, behind);
    LowerLength(core);
    assert Lower(core) == Lower(id)[..n] == Prefix(f) + version;
    assert Lower(behind) == Lower(id)[n..] == after;
    LowerBlank(behind);
    VersionMeans(version);
    assert |Prefix(f)| > 0 by { PrefixLength(f); }
    CoreOf(id, core, behind, f, version);
    TrimMeans(id, core);
    ConcreteParts(id, f);
    assert Lower(core)[|Prefix(f)|..] == version;
    assert IsConcreteFor(id, f);
    StrictlyOf(id, f);
  }

  lemma CoreOf(id: string, core: string, behind: string, f: Family, version: string)
    requires id == core + behind && Blank(behind) && Lower(core) == Prefix(f) + version && DigitGroups(version)
    ensures IsCore(core, id)
  {
    hide IsSpace;
    var s := Lower(core);
    assert s[0] == Prefix(f)[0] == 'c';
    assert s[|s| - 1] == version[|version| - 1];
    NotSpace(core[0]);
    NotSpace(core[|core| - 1]);
    assert Blank("") && id == "" + core + behind;
  }

  lemma StrictlyOf(id: string, f: Family)
    requires IsConcreteFor(id, f) && Prefix(f) <= Lower(id)
    ensures StrictFamily(id) == Some(f)
  {
    hide IsConcreteFor;
    PrefixStarts(f, Lower(id));
    assert HasStrictPrefix(id, f);
    forall g: Family ensures HasStrictPrefix(id, g) ==> g == f {
      if HasStrictPrefix(id, g) { ConcreteFamilyIsStrict(id, g, f); }
    }
  }

  /** A requested model replaces an alias of a family exactly when it is a model of the family by its shape. */
  lemma PassesMeans(requested: Option<string>, f: Family)
    ensures PassesThrough(requested, f) <==> requested.Some? && IsModelOf(requested.value, f)
  {
    hide IsVersion, Blank, PassesThrough, Lower;
    if PassesThrough(requested, f) {
      OnlySomePasses(requested, f);
      PassingIsModel(requested.value, f);
    }
    if requested.Some? && IsModelOf(requested.value, f) {
      var version, after :|
        IsVersion(version) && Blank(after) && Lower(requested.value) == "claude-" + Name(f) + "-" + version + after;
      ModelPasses(requested.value, f, version, after);
    }
  }

  lemma OnlySomePasses(requested: Option<string>, f: Family)
    ensures PassesThrough(requested, f) ==> requested == Some(requested.value)
  {}

  // ---- what an alias resolves to ----

  /** A stored model that is not the family's name stays; the name gives way to a model of the family, or the latest. */
  lemma FamilyAliasMeans(value: string, core: string, f: Family, requested: Option<string>, latest: Family -> string)
    requires IsCore(core, value)
    ensures ResolveFamilyAlias(value, f, requested, latest) ==
      if Lower(core) != Name(f) then core
      else if requested.Some? && IsModelOf(requested.value, f) then requested.value
      else latest(f)
  {
    hide IsCore, IsModelOf, PassesThrough, Trim, Lower;
    TrimMeans(value, core);
    PassesMeans(requested, f);
    OnlySomePasses(requested, f);
  }

  /** A stored model that is no family's name stays; a family's name is an alias of that family. */
  lemma StoredAliasMeans(value: string, core: string, requested: Option<string>, latest: Family -> string)
    requires IsCore(core, value)
    ensures var r := ResolveStoredAlias(value, requested, latest);
      && ((forall f: Family :: Lower(core) != Name(f)) ==> r == core)
      && forall f: Family :: Lower(core) == Name(f) ==>
        r == if requested.Some? && IsModelOf(requested.value, f) then requested.value else latest(f)
  {
    hide IsModelOf, PassesThrough;
    TrimMeans(value, core);
    CoreIsCore(value, core);
    TrimMeans(core, core);
    NamesDiffer();
    var s := Lower(core);
    assert s == Name(Fable) || s == Name(Opus) || s == Name(Haiku) || s == Name(Sonnet) ||
      forall f: Family :: s != Name(f);
    forall f: Family | s == Name(f)
      ensures ResolveStoredAlias(value, requested, latest) ==
        if requested.Some? && IsModelOf(requested.value, f) then requested.value else latest(f)
    {
      FamilyAliasMeans(core, core, f, requested, latest);
    }
  }

  lemma CoreIsCore(value: string, core: string)
    requires IsCore(core, value)
    ensures IsCore(core, core)
  {
    assert Blank("") && core == "" + core + "";
  }

  lemma NamesDiffer()
    ensures forall f: Family, g: Family :: Name(f) == Name(g) ==> f == g
  {
    forall f: Family, g: Family ensures Name(f)[0] == Name(g)[0] ==> f == g {}
  }

  // ---- the family of a model ----

  /** The families in the order their names are looked for. */
  function Turn(f: Family): nat { match f case Fable => 0 case Opus => 1 case Haiku => 2 case Sonnet => 3 }

  ghost predicate Mentions(id: string, f: Family) {
    exists before, after :: Lower(id) == before + Name(f) + after
  }

  lemma ContainsMeans(id: string, f: Family)
    ensures Contains(Lower(id), Name(f)) <==> Mentions(id, f)
  {
    var s, name := Lower(id), Name(f);
    if Contains(s, name) {
      var k :| 0 <= k <= |s| && StandsAt(s, name, k);
      assert s == s[..k] + name + s[k + |name|..];
    }
    if Mentions(id, f) {
      var before, after :| s == before + name + after;
      assert s[|before|..|before| + |name|] == name;
      assert StandsAt(s, name, |before|);
    }
  }

  /** A model belongs to the first family whose name it mentions. */
  lemma FamilyMeans(id: string, f: Family)
    ensures ModelFamily(id) == Some(f) <==>
      Mentions(id, f) && forall g: Family :: Turn(g) < Turn(f) ==> !Mentions(id, g)
    ensures ModelFamily(id) == None <==> forall g: Family :: !Mentions(id, g)
  {
    hide Contains, Mentions, Lower;
    ContainsMeans(id, Fable);
    ContainsMeans(id, Opus);
    ContainsMeans(id, Haiku);
    ContainsMeans(id, Sonnet);
    forall g: Family | Mentions(id, g) ensures g in [Fable, Opus, Haiku, Sonnet] {
      match g
      case Fable => assert g == [Fable, Opus, Haiku, Sonnet][0];
      case Opus => assert g == [Fable, Opus, Haiku, Sonnet][1];
      case Haiku => assert g == [Fable, Opus, Haiku, Sonnet][2];
      case Sonnet => assert g == [Fable, Opus, Haiku, Sonnet][3];
    }
  }
}
