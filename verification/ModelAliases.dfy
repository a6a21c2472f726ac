/** Model families, bare family aliases, and when a client's own model passes through an alias. */
module ModelAliases {
  import opened Units

  datatype Family = Fable | Opus | Haiku | Sonnet

  function Name(f: Family): string {
    match f case Fable => "fable" case Opus => "opus" case Haiku => "haiku" case Sonnet => "sonnet"
  }

  function LowerChar(c: char): char { if 'A' <= c <= 'Z' then c - 'A' + 'a' else c }

  function Lower(s: string): string { seq(|s|, k requires 0 <= k < |s| => LowerChar(s[k])) }

  predicate IsSpace(c: char) {
    || '\t' <= c <= '\r' || c == ' ' || c == '\U{a0}' || c == '\U{feff}' || c == '\U{1680}'
    || '\U{2000}' <= c <= '\U{200a}' || c == '\U{2028}' || c == '\U{2029}' || c == '\U{202f}' || c == '\U{205f}'
      || c == '\U{3000}'
  }

  function TrimStart(s: string): string { if s != [] && IsSpace(s[0]) then TrimStart(s[1..]) else s }
  function TrimEnd(s: string): string { if s != [] && IsSpace(s[|s| - 1]) then TrimEnd(s[..|s| - 1]) else s }
  function Trim(s: string): string { TrimEnd(TrimStart(s)) }

  predicate StandsAt(s: string, part: string, k: nat) { k + |part| <= |s| && s[k..k + |part|] == part }

  predicate Contains(s: string, part: string) { exists k :: 0 <= k <= |s| && StandsAt(s, part, k) }

  /** The first known family whose name occurs in the id, in the order the families are tried. */
  function ModelFamily(id: string): Option<Family> {
    var s := Lower(id);
    if Contains(s, "fable") then Some(Fable)
    else if Contains(s, "opus") then Some(Opus)
    else if Contains(s, "haiku") then Some(Haiku)
    else if Contains(s, "sonnet") then Some(Sonnet)
    else None
  }

  /** `claude-<family>` at the start of the id, then a dash or the end. */
  predicate HasStrictPrefix(id: string, f: Family) {
    var s, p := Lower(id), "claude-" + Name(f);
    p <= s && (|s| == |p| || s[|p|] == '-')
  }

  function StrictFamily(id: string): Option<Family> {
    if HasStrictPrefix(id, Fable) then Some(Fable)
    else if HasStrictPrefix(id, Opus) then Some(Opus)
    else if HasStrictPrefix(id, Haiku) then Some(Haiku)
    else if HasStrictPrefix(id, Sonnet) then Some(Sonnet)
    else None
  }

  predicate IsDigit(c: char) { '0' <= c <= '9' }

  /** Groups of digits separated by single dashes. */
  predicate DigitGroups(s: string) {
    && |s| > 0 && IsDigit(s[0]) && IsDigit(s[|s| - 1])
    && (forall k :: 0 <= k < |s| ==> IsDigit(s[k]) || s[k] == '-')
    && (forall k :: 0 <= k < |s| - 1 ==> IsDigit(s[k]) || IsDigit(s[k + 1]))
  }

  /** `claude-<family>-` and then version digits, after trimming. */
  predicate IsConcreteFor(value: string, f: Family) {
    var s, p := Lower(Trim(value)), "claude-" + Name(f) + "-";
    p <= s && DigitGroups(s[|p|..])
  }

  predicate IsConcrete(value: string) {
    IsConcreteFor(value, Fable) || IsConcreteFor(value, Opus) || IsConcreteFor(value, Sonnet)
      || IsConcreteFor(value, Haiku)
  }

  /** Whether the client's own model takes the place of an alias of this family. */
  predicate PassesThrough(requested: Option<string>, f: Family) {
    requested.Some? && requested.value != "" && IsConcrete(requested.value) && StrictFamily(requested.value) == Some(f)
  }

  function ResolveFamilyAlias(value: string, f: Family, requested: Option<string>, latest: Family -> string): string {
    var trimmed := Trim(value);
    if Lower(trimmed) != Name(f) then trimmed
    else if PassesThrough(requested, f) then requested.value
    else latest(f)
  }

  function AliasFamily(value: string): Option<Family> {
    var s := Lower(Trim(value));
    if s == "fable" then Some(Fable) else if s == "opus" then Some(Opus)
    else if s == "haiku" then Some(Haiku) else if s == "sonnet" then Some(Sonnet) else None
  }

  function ResolveStoredAlias(value: string, requested: Option<string>, latest: Family -> string): string {
    var trimmed := Trim(value);
    var f := AliasFamily(value);
    if f.Some? then ResolveFamilyAlias(trimmed, f.value, requested, latest) else trimmed
  }

  // ---- a model that passes through belongs to the alias's family ----

  lemma {:induction false} TrimStartIs(s: string) returns (n: nat)
    ensures n <= |s| && TrimStart(s) == s[n..] && forall k :: 0 <= k < n ==> IsSpace(s[k])
    decreases |s|
  {
    n := 0;
    if s != [] && IsSpace(s[0]) {
      n := TrimStartIs(s[1..]);
      n := n + 1;
    }
  }

  lemma {:induction false} TrimEndIs(s: string) returns (n: nat)
    ensures n <= |s| && TrimEnd(s) == s[..n] && forall k :: n <= k < |s| ==> IsSpace(s[k])
    decreases |s|
  {
    n := |s|;
    if s != [] && IsSpace(s[|s| - 1]) {
      n := TrimEndIs(s[..|s| - 1]);
    }
  }

  /** Besides the spaces around it, an id contains only what its trimmed form contains. */
  lemma TrimKeeps(s: string, k: nat)
    requires k < |s|
    ensures IsSpace(s[k]) || s[k] in Trim(s)
  {
    var n := TrimStartIs(s);
    var m := TrimEndIs(s[n..]);
    if !IsSpace(s[k]) {
      assert s[k] == s[n..][k - n] == Trim(s)[k - n];
    }
  }

  /** The letters of a concrete id are those of `claude` and of its family. */
  lemma ConcreteLetters(value: string, f: Family, k: nat)
    requires IsConcreteFor(value, f) && k < |value|
    ensures var c := LowerChar(value[k]);
            IsSpace(c) || IsDigit(c) || c == '-' || c in "claude" || c in Name(f)
  {
    TrimKeeps(value, k);
    if !IsSpace(value[k]) {
      var t := Trim(value);
      var j :| 0 <= j < |t| && t[j] == value[k];
      var s, p := Lower(t), "claude-" + Name(f) + "-";
      assert s[j] == LowerChar(value[k]);
      if j < |p| { assert s[j] == p[j]; } else { assert s[j] == s[|p|..][j - |p|]; }
    }
  }

  /** A name with a letter the id lacks does not occur in it. */
  lemma LacksLetter(s: string, part: string, m: nat)
    requires m < |part| && part[m] !in s
    ensures !Contains(s, part)
  {
    forall k: nat | k + |part| <= |s| ensures !StandsAt(s, part, k) {
      assert s[k..k + |part|][m] == s[k + m];
    }
  }

  lemma ForeignLetter(value: string, f: Family, c: char)
    requires IsConcreteFor(value, f) && 'a' <= c <= 'z' && c !in "claude" && c !in Name(f)
    ensures c !in Lower(value)
  {
    forall k | 0 <= k < |value| ensures Lower(value)[k] != c { ConcreteLetters(value, f, k); }
  }

  /** The version check and the family check see the same family. */
  lemma ConcreteFamilyIsStrict(value: string, f: Family, g: Family)
    requires IsConcreteFor(value, g) && HasStrictPrefix(value, f)
    ensures f == g
  {
    var n := TrimStartIs(value);
    var m := TrimEndIs(value[n..]);
    var s := Lower(value);
    assert s[0] == ("claude-" + Name(f))[0] == 'c';
    assert n == 0;
    assert forall k :: 0 <= k < m ==> Lower(Trim(value))[k] == s[k];
    assert s[7] == ("claude-" + Name(f))[7] == Name(f)[0];
    assert s[7] == Lower(Trim(value))[7] == ("claude-" + Name(g) + "-")[7] == Name(g)[0];
  }

  lemma StrictPrefixContains(value: string, f: Family)
    requires HasStrictPrefix(value, f)
    ensures Contains(Lower(value), Name(f))
  {
    var s, p := Lower(value), "claude-" + Name(f);
    assert s[7..7 + |Name(f)|] == p[7..] == Name(f);
    assert StandsAt(s, Name(f), 7);
  }

  /** A requested model that replaces an alias has the alias's family, so a managed policy never rejects it. */
  lemma PassThroughKeepsFamily(requested: string, f: Family)
    requires PassesThrough(Some(requested), f)
    ensures ModelFamily(requested) == Some(f)
  {
    hide IsConcreteFor, HasStrictPrefix, Contains, Lower;
    var g :| IsConcreteFor(requested, g);
    ConcreteFamilyIsStrict(requested, f, g);
    StrictPrefixContains(requested, f);
    var s := Lower(requested);
    if f != Fable {
      ForeignLetter(requested, f, 'f');
      LacksLetter(s, "fable", 0);
    }
    if f == Haiku {
      ForeignLetter(requested, f, 'o');
      LacksLetter(s, "opus", 0);
    }
    if f == Sonnet {
      ForeignLetter(requested, f, 'p');
      LacksLetter(s, "opus", 1);
      ForeignLetter(requested, f, 'h');
      LacksLetter(s, "haiku", 0);
    }
  }
}
