/** Whatever the reference parser accepts is derived by the grammar. */
module JsonSoundness {
  import opened Units
  import opened JsonGrammar
  import opened JsonParser
  import opened JsonSpelling

  lemma {:induction false} SkipSound(s: Text, i: nat)
    requires i <= |s|
    ensures AllWs(s[i..Skip(s, i)]) && Occurs(s, i, s[i..Skip(s, i)])
    decreases |s| - i
  {
    if IsWs(At(s, i)) {
      SkipSound(s, i + 1);
      assert s[i..Skip(s, i)] == [s[i]] + s[i + 1..Skip(s, i)];
    }
  }

  lemma {:induction false} DigitsSound(s: Text, i: nat)
    requires i <= |s|
    ensures AllDigits(s[i..DigitsEnd(s, i)])
    decreases |s| - i
  {
    if IsDigit(At(s, i)) {
      DigitsSound(s, i + 1);
      assert s[i..DigitsEnd(s, i)] == [s[i]] + s[i + 1..DigitsEnd(s, i)];
    }
  }

  lemma {:induction false} PartsSound(s: Text, i: nat)
    requires i <= |s|
    ensures var r := PartsAt(s, i);
            r.Some? ==>
              ValidParts(r.value.tree) && SpellsParts(s, i, r.value.tree) && r.value.end == i + PartsWidth(r.value.tree)
    decreases |s| - i
  {
    hide PartAt, Occurs, PrintPart;
    if At(s, i) != QUOTE && PartsAt(s, i).Some? {
      var p := PartAt(s, i).value;
      PartsSound(s, i + |PrintPart(p)|);
      assert PartsAt(s, i).value.tree[1..] == PartsAt(s, i + |PrintPart(p)|).value.tree;
    }
  }

  lemma IntSound(s: Text, i: nat)
    requires i <= |s| && IntEnd(s, i).Some?
    ensures var t := s[i..IntEnd(s, i).value]; AllDigits(t) && (t[0] == ZERO ==> |t| == 1)
  {
    if At(s, i) != ZERO {
      DigitsSound(s, i + 1);
      assert s[i..IntEnd(s, i).value] == [s[i]] + s[i + 1..IntEnd(s, i).value];
    }
  }

  lemma FracSound(s: Text, i: nat)
    requires i <= |s| && FracEnd(s, i).Some?
    ensures var t := s[i..FracEnd(s, i).value]; t == [] || (|t| > 1 && t[0] == DOT && AllDigits(t[1..]))
  {
    if At(s, i) == DOT {
      DigitsSound(s, i + 1);
      assert DigitsEnd(s, i + 1) > i + 1;
      assert s[i..FracEnd(s, i).value][1..] == s[i + 1..FracEnd(s, i).value];
    }
  }

  lemma ExpSound(s: Text, i: nat)
    requires i <= |s| && ExpEnd(s, i).Some?
    ensures var t := s[i..ExpEnd(s, i).value]; t == [] || ValidExp(t)
  {
    if IsExpMark(At(s, i)) {
      var k := if IsSign(At(s, i + 1)) then i + 2 else i + 1;
      DigitsSound(s, k);
      assert DigitsEnd(s, k) > k;
      var t := s[i..ExpEnd(s, i).value];
      assert t[k - i..] == s[k..ExpEnd(s, i).value];
    }
  }

  lemma NumberSound(s: Text, i: nat)
    requires i <= |s|
    ensures var r := NumberAt(s, i);
            r.Some? ==>
              ValidNum(r.value.tree) && SpellsNum(s, i, r.value.tree) && r.value.end == i + NumWidth(r.value.tree)
  {
    hide IntEnd, FracEnd, ExpEnd, AllDigits, ValidExp, Occurs;
    if NumberAt(s, i).Some? {
      var a := if At(s, i) == MINUS then i + 1 else i;
      var b := IntEnd(s, a).value;
      IntSound(s, a);
      FracSound(s, b);
      var c := FracEnd(s, b).value;
      ExpSound(s, c);
      SliceOccurs(s, i, a);
      SliceOccurs(s, a, b);
      SliceOccurs(s, b, c);
      SliceOccurs(s, c, ExpEnd(s, c).value);
    }
  }

  /** `v` is valid, unrepeated, within the limit, and derives exactly `s[i..end]`. */
  ghost predicate ValueOk(s: Text, i: nat, depth: nat, limit: nat, v: Value, end: nat) {
    && Valid(v) && Unrepeated(v) && (Depth(v) == 0 || depth + Depth(v) <= limit)
    && Spells(s, i, v) && end == i + Width(v)
  }

  ghost predicate ItemsOk(s: Text, i: nat, depth: nat, limit: nat, xs: Items, end: nat) {
    && ValidItems(xs) && UnrepeatedItems(xs) && depth + 1 + ItemsDepth(xs) <= limit
    && SpellsItems(s, i, xs) && end == i + ItemsWidth(xs)
  }

  ghost predicate MemberOk(s: Text, i: nat, depth: nat, limit: nat, names: set<Text>, m: Member, end: nat) {
    && ValidMember(m) && DecodeParts(m.name) !in names && Unrepeated(m.value) && depth + 1 + Depth(m.value) <= limit
    && SpellsMember(s, i, m) && end == i + MemberWidth(m)
  }

  ghost predicate MembersOk(s: Text, i: nat, depth: nat, limit: nat, names: set<Text>, ms: Members, end: nat) {
    && ValidMembers(ms) && UnrepeatedMembers(ms, names) && depth + 1 + MembersDepth(ms) <= limit
    && SpellsMembers(s, i, ms) && end == i + MembersWidth(ms)
  }

  lemma {:induction false} ValueSound(s: Text, i: nat, depth: nat, limit: nat)
    requires i <= |s|
    ensures var r := ValueAt(s, i, depth, limit);
            r.Some? ==> ValueOk(s, i, depth, limit, r.value.tree, r.value.end)
    decreases |s| - i, 1
  {
    hide MembersAt, ItemsAt, NumberAt, PartsAt, Skip, AllWs, ValidNum, SpellsNum, ValidParts;
    if ValueAt(s, i, depth, limit).Some? {
      var v := ValueAt(s, i, depth, limit).value.tree;
      if v.EmptyObject? || v.EmptyArray? {
        SkipSound(s, i + 1);
      } else if v.Object? {
        MembersSound(s, i + 1, depth, limit, {});
      } else if v.Array? {
        ItemsSound(s, i + 1, depth, limit);
      } else if v.Str? {
        PartsSound(s, i + 1);
      } else if v.Number? {
        NumberSound(s, i);
      }
    }
  }

  lemma {:induction false} ItemsSound(s: Text, i: nat, depth: nat, limit: nat)
    requires i <= |s| && depth < limit
    ensures var r := ItemsAt(s, i, depth, limit);
            r.Some? ==> ItemsOk(s, i, depth, limit, r.value.tree, r.value.end)
    decreases |s| - i, 2
  {
    hide ValueAt, Skip, Occurs, AllWs, Valid, Unrepeated, Spells, Width;
    if ItemsAt(s, i, depth, limit).Some? {
      var k := Skip(s, i);
      var e := ValueAt(s, k, depth + 1, limit).value.end;
      SkipSound(s, i);
      ValueSound(s, k, depth + 1, limit);
      SkipSound(s, e);
      if At(s, Skip(s, e)) == COMMA {
        ItemsSound(s, Skip(s, e) + 1, depth, limit);
      }
    }
  }

  lemma {:induction false} MemberSound(s: Text, i: nat, depth: nat, limit: nat, names: set<Text>)
    requires i <= |s| && depth < limit
    ensures var r := MemberAt(s, i, depth, limit, names);
            r.Some? ==> MemberOk(s, i, depth, limit, names, r.value.tree, r.value.end)
    decreases |s| - i, 2
  {
    hide ValueAt, Skip, PartsAt, Occurs, AllWs, Valid, Unrepeated, Spells, Width;
    if MemberAt(s, i, depth, limit, names).Some? {
      var k := Skip(s, i);
      var e := StringAt(s, k).value.end;
      var p := Skip(s, Skip(s, e) + 1);
      SkipSound(s, i);
      PartsSound(s, k + 1);
      SkipSound(s, e);
      SkipSound(s, Skip(s, e) + 1);
      ValueSound(s, p, depth + 1, limit);
      SkipSound(s, ValueAt(s, p, depth + 1, limit).value.end);
    }
  }

  lemma {:induction false} MembersSound(s: Text, i: nat, depth: nat, limit: nat, names: set<Text>)
    requires i <= |s| && depth < limit
    ensures var r := MembersAt(s, i, depth, limit, names);
            r.Some? ==> MembersOk(s, i, depth, limit, names, r.value.tree, r.value.end)
    decreases |s| - i, 3
  {
    hide MemberAt, SpellsMember, MemberWidth;
    if MembersAt(s, i, depth, limit, names).Some? {
      var Parsed(m, q) := MemberAt(s, i, depth, limit, names).value;
      MemberSound(s, i, depth, limit, names);
      if At(s, q) == COMMA {
        MembersSound(s, q + 1, depth, limit, names + {DecodeParts(m.name)});
      }
    }
  }

  lemma DocumentSound(s: Text, limit: nat)
    ensures DocumentAt(s, limit).Some? ==>
              var d := DocumentAt(s, limit).value;
              StrictDocument(d, limit) && PrintDocument(d) == s
  {
    hide ValueAt, Skip, Print, Valid, Unrepeated, Depth, Spells, Width, Occurs, AllWs;
    if DocumentAt(s, limit).Some? {
      var k := Skip(s, 0);
      SkipSound(s, 0);
      ValueSound(s, k, 0, limit);
      var Parsed(v, e) := ValueAt(s, k, 0, limit).value;
      ValuePrint(s, k, v);
      OccursSlice(s, k, Print(v));
      SkipSound(s, e);
      assert s[0..k] == s[..k] && s[e..|s|] == s[e..] && s[k..e] == Print(v);
      assert s == s[..k] + (s[k..e] + s[e..]);
      assert DocumentAt(s, limit).value == Document(s[..k], v, s[e..]);
    }
  }
}
