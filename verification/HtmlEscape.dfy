/** The ledger's escaping of review records: five replacements in sequence, undone by five in reverse. */
module HtmlEscape {
  import opened Units

  const AMP: Unit := 0x26
  const LT: Unit := 0x3c
  const GT: Unit := 0x3e
  const NEWLINE: Unit := 0x0a

  /** The host's `replaceAll` with plain strings: leftmost matches first, never overlapping. */
  function ReplaceAll(s: Text, pattern: Text, with: Text): Text
    requires |pattern| > 0
    decreases |s|
  {
    if s == [] then []
    else if pattern <= s then with + ReplaceAll(s[|pattern|..], pattern, with)
    else [s[0]] + ReplaceAll(s[1..], pattern, with)
  }

  /** The five escaped characters, in the order they are escaped: & < > " ' */
  function Special(k: nat): Unit
    requires k < 5
  {
    if k == 0 then AMP else if k == 1 then LT else if k == 2 then GT else if k == 3 then 0x22 else 0x27
  }

  /** Their entities: &amp; &lt; &gt; &quot; &#39; */
  function Entity(k: nat): (t: Text)
    requires k < 5
    ensures |t| > 1
  {
    if k == 0 then [AMP, 0x61, 0x6d, 0x70, 0x3b]
    else if k == 1 then [AMP, 0x6c, 0x74, 0x3b]
    else if k == 2 then [AMP, 0x67, 0x74, 0x3b]
    else if k == 3 then [AMP, 0x71, 0x75, 0x6f, 0x74, 0x3b]
    else [AMP, 0x23, 0x33, 0x39, 0x3b]
  }

  function EscapeThrough(s: Text, k: nat): Text
    requires k <= 5
  {
    if k == 0 then s else ReplaceAll(EscapeThrough(s, k - 1), [Special(k - 1)], Entity(k - 1))
  }

  function UnescapeFrom(s: Text, k: nat): Text
    requires k <= 5
    decreases k
  {
    if k == 0 then s else UnescapeFrom(ReplaceAll(s, Entity(k - 1), [Special(k - 1)]), k - 1)
  }

  function Escape(s: Text): Text { EscapeThrough(s, 5) }
  function Unescape(s: Text): Text { UnescapeFrom(s, 5) }

  // ---- unit by unit ----

  /** What the first `k` replacements make of one unit. */
  function UnitAfter(c: Unit, k: nat): (t: Text)
    requires k <= 5
    ensures |t| > 0
  {
    if k == 0 then [c] else if c == Special(k - 1) then Entity(k - 1) else UnitAfter(c, k - 1)
  }

  function Spread(s: Text, k: nat): Text
    requires k <= 5
  {
    if s == [] then [] else UnitAfter(s[0], k) + Spread(s[1..], k)
  }

  /** A unit no replacement touches, or an entity. */
  lemma {:induction false} UnitAfterIs(c: Unit, k: nat)
    requires k <= 5
    ensures (exists j :: 0 <= j < k && c == Special(j) && UnitAfter(c, k) == Entity(j)) ||
            (UnitAfter(c, k) == [c] && forall j :: 0 <= j < k ==> c != Special(j))
  {
    if k > 0 {
      UnitAfterIs(c, k - 1);
      if c == Special(k - 1) { assert 0 <= k - 1 < k; }
    }
  }

  lemma SpecialsDiffer(i: nat, j: nat)
    requires i < j < 5
    ensures Special(i) != Special(j) && Entity(i)[1] != Entity(j)[1]
  {}

  lemma EntityUnits(i: nat, j: nat)
    requires i < 5 && j < 5
    ensures Entity(i)[0] == AMP && (forall m :: 1 <= m < |Entity(i)| ==> Entity(i)[m] != AMP)
    ensures j > 0 ==> Special(j) !in Entity(i)
  {}

  lemma {:induction false} ReplaceNothing(s: Text, c: Unit, with: Text)
    requires c !in s
    ensures ReplaceAll(s, [c], with) == s
    decreases |s|
  {
    if s != [] {
      assert s[0] in s && !([c] <= s);
      ReplaceNothing(s[1..], c, with);
      assert s == [s[0]] + s[1..];
    }
  }

  lemma {:induction false} ReplaceUnitSplits(a: Text, b: Text, c: Unit, with: Text)
    ensures ReplaceAll(a + b, [c], with) == ReplaceAll(a, [c], with) + ReplaceAll(b, [c], with)
    decreases |a|
  {
    if a == [] {
      assert a + b == b;
    } else {
      assert (a + b)[1..] == a[1..] + b;
      assert [c] <= a + b <==> [c] <= a;
      ReplaceUnitSplits(a[1..], b, c, with);
      var x := ReplaceAll(a[1..], [c], with);
      var y := ReplaceAll(b, [c], with);
      var head := if [c] <= a then with else [a[0]];
      assert head + (x + y) == (head + x) + y;
    }
  }

  lemma UnitAdvances(c: Unit, k: nat)
    requires k < 5
    ensures ReplaceAll(UnitAfter(c, k), [Special(k)], Entity(k)) == UnitAfter(c, k + 1)
  {
    UnitAfterIs(c, k);
    if j :| 0 <= j < k && c == Special(j) && UnitAfter(c, k) == Entity(j) {
      EntityUnits(j, k);
      SpecialsDiffer(j, k);
      ReplaceNothing(Entity(j), Special(k), Entity(k));
    } else if c == Special(k) {
      assert ReplaceAll([c][1..], [c], Entity(k)) == [];
      assert Entity(k) + [] == Entity(k);
    } else {
      ReplaceNothing([c], Special(k), Entity(k));
    }
  }

  lemma {:induction false} SpreadAdvances(s: Text, k: nat)
    requires k < 5
    ensures ReplaceAll(Spread(s, k), [Special(k)], Entity(k)) == Spread(s, k + 1)
    decreases |s|
  {
    hide UnitAfter, Entity, Special;
    if s != [] {
      UnitAdvances(s[0], k);
      SpreadAdvances(s[1..], k);
      ReplaceUnitSplits(UnitAfter(s[0], k), Spread(s[1..], k), Special(k), Entity(k));
    }
  }

  lemma {:induction false} EscapeIsSpread(s: Text, k: nat)
    requires k <= 5
    ensures EscapeThrough(s, k) == Spread(s, k)
    decreases k
  {
    hide ReplaceAll;
    if k == 0 {
      SpreadNothing(s);
    } else {
      EscapeIsSpread(s, k - 1);
      SpreadAdvances(s, k - 1);
    }
  }

  lemma {:induction false} SpreadNothing(s: Text)
    ensures Spread(s, 0) == s
    decreases |s|
  {
    if s != [] {
      SpreadNothing(s[1..]);
      assert s == [s[0]] + s[1..];
    }
  }

  // ---- and back ----

  /** No match starts inside `block`. */
  lemma {:induction false} SkipBlock(block: Text, rest: Text, pattern: Text, with: Text)
    requires |pattern| > 0 && (block != [] ==> !(pattern <= block + rest))
    requires forall m :: 1 <= m < |block| ==> block[m] != pattern[0]
    ensures ReplaceAll(block + rest, pattern, with) == block + ReplaceAll(rest, pattern, with)
    decreases |block|
  {
    if block == [] {
      assert block + rest == rest;
    } else {
      var tail := block[1..];
      assert (block + rest)[1..] == tail + rest;
      if tail != [] { assert (tail + rest)[0] == block[1] != pattern[0]; }
      SkipBlock(tail, rest, pattern, with);
      assert block == [block[0]] + tail;
    }
  }

  lemma UnitReturns(c: Unit, rest: Text, k: nat)
    requires k < 5
    ensures ReplaceAll(UnitAfter(c, k + 1) + rest, Entity(k), [Special(k)]) ==
              UnitAfter(c, k) + ReplaceAll(rest, Entity(k), [Special(k)])
  {
    var pattern := Entity(k);
    if c == Special(k) {
      assert (pattern + rest)[|pattern|..] == rest;
      UnitAfterIs(c, k);
      if j :| 0 <= j < k && c == Special(j) { SpecialsDiffer(j, k); }
    } else {
      var block := UnitAfter(c, k);
      UnitAfterIs(c, k);
      EntityUnits(k, k);
      if j :| 0 <= j < k && block == Entity(j) {
        EntityUnits(j, k);
        SpecialsDiffer(j, k);
        assert (block + rest)[1] == Entity(j)[1];
      } else {
        assert (block + rest)[0] == c;
        assert k > 0 ==> c != Special(0);
      }
      SkipBlock(block, rest, pattern, [Special(k)]);
    }
  }

  lemma {:induction false} SpreadReturns(s: Text, k: nat)
    requires k < 5
    ensures ReplaceAll(Spread(s, k + 1), Entity(k), [Special(k)]) == Spread(s, k)
    decreases |s|
  {
    hide UnitAfter, Entity, Special;
    if s != [] {
      SpreadReturns(s[1..], k);
      UnitReturns(s[0], Spread(s[1..], k + 1), k);
    }
  }

  lemma {:induction false} UnescapeSpread(s: Text, k: nat)
    requires k <= 5
    ensures UnescapeFrom(Spread(s, k), k) == s
    decreases k
  {
    hide ReplaceAll;
    if k == 0 {
      SpreadNothing(s);
    } else {
      SpreadReturns(s, k - 1);
      UnescapeSpread(s, k - 1);
    }
  }

  /** The five replacements of unescape undo the five of escape, for every text. */
  lemma UnescapeUndoesEscape(s: Text)
    ensures Unescape(Escape(s)) == s
  {
    EscapeIsSpread(s, 5);
    UnescapeSpread(s, 5);
  }

  lemma {:induction false} SpreadIsSafe(s: Text)
    ensures LT !in Spread(s, 5)
    decreases |s|
  {
    if s != [] {
      SpreadIsSafe(s[1..]);
      UnitAfterIs(s[0], 5);
      if j :| 0 <= j < 5 && UnitAfter(s[0], 5) == Entity(j) {
        EntityUnits(j, 1);
      } else {
        assert s[0] != Special(1);
      }
    }
  }

  /** Escaped text contains no `<`. */
  lemma EscapedHasNoTag(s: Text)
    ensures LT !in Escape(s)
  {
    EscapeIsSpread(s, 5);
    SpreadIsSafe(s);
  }

  // ---- where unescaping can be split ----

  /** A text that ends with `>` keeps its matches to itself, and unescapes to a text that ends with `>`. */
  ghost predicate EndsTag(s: Text) { |s| > 0 && s[|s| - 1] == GT }

  lemma ReplaceMatch(s: Text, pattern: Text, with: Text)
    requires |pattern| > 0 && pattern <= s
    ensures ReplaceAll(s, pattern, with) == with + ReplaceAll(s[|pattern|..], pattern, with)
  {}

  lemma ReplaceSkip(s: Text, pattern: Text, with: Text)
    requires |pattern| > 0 && s != [] && !(pattern <= s)
    ensures ReplaceAll(s, pattern, with) == [s[0]] + ReplaceAll(s[1..], pattern, with)
  {}

  lemma ReplaceEmpty(pattern: Text, with: Text)
    requires |pattern| > 0
    ensures ReplaceAll([], pattern, with) == []
  {}

  lemma Regroup(a: Text, b: Text, c: Text)
    ensures a + (b + c) == (a + b) + c && (EndsTag(b) ==> EndsTag(a + b))
  {}

  lemma {:induction false} ReplaceSplitsAtTag(a: Text, b: Text, pattern: Text, with: Text)
    requires |pattern| > 0 && GT !in pattern && EndsTag(a)
    ensures ReplaceAll(a + b, pattern, with) == ReplaceAll(a, pattern, with) + ReplaceAll(b, pattern, with)
    ensures EndsTag(ReplaceAll(a, pattern, with))
    decreases |a|, 1
  {
    hide ReplaceAll;
    if pattern <= a + b {
      PrefixBeforeTag(pattern, a, b);
      SplitsAfterMatch(a, b, pattern, with);
    } else {
      PrefixExtends(pattern, a, b);
      SplitsAfterSkip(a, b, pattern, with);
    }
  }

  lemma SplitsAfterMatch(a: Text, b: Text, pattern: Text, with: Text)
    requires |pattern| > 0 && GT !in pattern && EndsTag(a) && pattern <= a && pattern <= a + b && |pattern| < |a|
    ensures ReplaceAll(a + b, pattern, with) == ReplaceAll(a, pattern, with) + ReplaceAll(b, pattern, with)
    ensures EndsTag(ReplaceAll(a, pattern, with))
    decreases |a|, 0
  {
    hide ReplaceAll;
    var rest := a[|pattern|..];
    assert (a + b)[|pattern|..] == rest + b;
    ReplaceMatch(a + b, pattern, with);
    ReplaceMatch(a, pattern, with);
    ReplaceSplitsAtTag(rest, b, pattern, with);
    Regroup(with, ReplaceAll(rest, pattern, with), ReplaceAll(b, pattern, with));
  }

  lemma SplitsAfterSkip(a: Text, b: Text, pattern: Text, with: Text)
    requires |pattern| > 0 && GT !in pattern && EndsTag(a) && !(pattern <= a) && !(pattern <= a + b)
    ensures ReplaceAll(a + b, pattern, with) == ReplaceAll(a, pattern, with) + ReplaceAll(b, pattern, with)
    ensures EndsTag(ReplaceAll(a, pattern, with))
    decreases |a|, 0
  {
    hide ReplaceAll;
    var rest := a[1..];
    assert (a + b)[1..] == rest + b;
    ReplaceSkip(a + b, pattern, with);
    ReplaceSkip(a, pattern, with);
    if rest == [] {
      ReplaceEmpty(pattern, with);
      assert rest + b == b && [a[0]] + [] == [a[0]];
    } else {
      ReplaceSplitsAtTag(rest, b, pattern, with);
      Regroup([a[0]], ReplaceAll(rest, pattern, with), ReplaceAll(b, pattern, with));
    }
  }

  lemma PrefixExtends(p: Text, a: Text, b: Text)
    ensures p <= a ==> p <= a + b
  {
    if p <= a { assert (a + b)[..|p|] == a[..|p|]; }
  }

  lemma PrefixBeforeTag(pattern: Text, a: Text, b: Text)
    requires EndsTag(a) && GT !in pattern && pattern <= a + b
    ensures |pattern| < |a| && pattern <= a
  {
    assert forall k :: 0 <= k < |pattern| ==> (a + b)[k] == pattern[k] && pattern[k] in pattern;
    assert (a + b)[|a| - 1] == GT;
    assert pattern == (a + b)[..|pattern|] == a[..|pattern|];
  }

  lemma {:induction false} UnescapeSplitsAtTag(a: Text, b: Text, k: nat)
    requires k <= 5 && EndsTag(a)
    ensures UnescapeFrom(a + b, k) == UnescapeFrom(a, k) + UnescapeFrom(b, k) && UnescapeFrom(a, k) != []
    decreases k
  {
    hide ReplaceAll;
    if k > 0 {
      var pattern, with := Entity(k - 1), [Special(k - 1)];
      assert GT !in pattern;
      ReplaceSplitsAtTag(a, b, pattern, with);
      UnescapeSplitsAtTag(ReplaceAll(a, pattern, with), ReplaceAll(b, pattern, with), k - 1);
    }
  }

  // ---- what unescaping never removes ----

  lemma {:induction false} ReplaceKeeps(s: Text, pattern: Text, with: Text, c: Unit)
    requires |pattern| > 0 && c !in pattern && c in s
    ensures c in ReplaceAll(s, pattern, with)
    decreases |s|
  {
    if pattern <= s {
      assert s == pattern + s[|pattern|..];
      assert c in s[|pattern|..];
      ReplaceKeeps(s[|pattern|..], pattern, with, c);
    } else if c != s[0] {
      assert s == [s[0]] + s[1..];
      ReplaceKeeps(s[1..], pattern, with, c);
    }
  }

  /** A line break stays. */
  lemma {:induction false} UnescapeKeepsBreak(s: Text, k: nat)
    requires k <= 5 && NEWLINE in s
    ensures NEWLINE in UnescapeFrom(s, k)
    decreases k
  {
    hide ReplaceAll;
    if k > 0 {
      assert NEWLINE !in Entity(k - 1);
      ReplaceKeeps(s, Entity(k - 1), [Special(k - 1)], NEWLINE);
      UnescapeKeepsBreak(ReplaceAll(s, Entity(k - 1), [Special(k - 1)]), k - 1);
    }
  }
}
