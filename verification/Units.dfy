/** Host strings: finite sequences of 16-bit code units, lone surrogates included. */
module Units {

  datatype Option<+T> = None | Some(value: T)

  function Min(a: int, b: int): int { if a <= b then a else b }
  function Max(a: int, b: int): int { if a >= b then a else b }

  type Unit = x: int | 0 <= x < 0x1_0000
  type Text = seq<Unit>

  type Byte = x: int | 0 <= x < 0x100

  /** The unit at `i`, or -1 past the end (the host yields `undefined`/`NaN`, which equals nothing). */
  function At(s: Text, i: nat): int {
    if i < |s| then s[i] else -1
  }

  /** `t` stands in `s` at position `i`. */
  ghost predicate Occurs(s: Text, i: nat, t: Text) {
    i + |t| <= |s| && s[i..i + |t|] == t
  }

  lemma OccursSplit(s: Text, i: nat, a: Text, b: Text)
    ensures Occurs(s, i, a + b) <==> Occurs(s, i, a) && Occurs(s, i + |a|, b)
  {
    if Occurs(s, i, a + b) {
      assert s[i..i + |a|] == (a + b)[..|a|] == a;
      assert s[i + |a|..i + |a| + |b|] == (a + b)[|a|..] == b;
    }
    if Occurs(s, i, a) && Occurs(s, i + |a|, b) {
      assert s[i..i + |a| + |b|] == s[i..i + |a|] + s[i + |a|..i + |a| + |b|];
    }
  }

  lemma OccursAt(s: Text, i: nat, t: Text, k: nat)
    requires Occurs(s, i, t) && k < |t|
    ensures At(s, i + k) == t[k]
  {
    assert s[i..i + |t|][k] == s[i + k];
  }

  lemma OccursUnits(s: Text, i: nat, t: Text)
    ensures Occurs(s, i, t) ==> i + |t| <= |s| && forall j :: i <= j < i + |t| ==> s[j] == t[j - i]
  {
    if Occurs(s, i, t) {
      forall j | i <= j < i + |t| ensures s[j] == t[j - i] { OccursAt(s, i, t, j - i); }
    }
  }

  lemma SliceOccurs(s: Text, i: nat, j: nat)
    requires i <= j <= |s|
    ensures Occurs(s, i, s[i..j])
  {}

  lemma OccursSlice(s: Text, i: nat, t: Text)
    requires Occurs(s, i, t)
    ensures i + |t| <= |s| && s[i..i + |t|] == t
  {}
}
