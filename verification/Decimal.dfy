/** Host numbers, and decimal texts of natural numbers. */
module Decimal {
  import opened Units
  import opened JsonGrammar

  const MAX_SAFE_INTEGER: int := 0x1f_ffff_ffff_ffff

  /** A host number: an integer, or anything else (a fraction, an infinity, NaN). */
  datatype Num = Int(n: int) | NotInt

  predicate IsSafe(x: Num) { x.Int? && -MAX_SAFE_INTEGER <= x.n <= MAX_SAFE_INTEGER }

  function Digits(n: nat): Text {
    if n < 10 then [ZERO + n] else Digits(n / 10) + [ZERO + n % 10]
  }

  function NumberOf(t: Text): nat
    requires AllDigits(t)
  {
    if t == [] then 0 else NumberOf(t[..|t| - 1]) * 10 + (t[|t| - 1] - ZERO)
  }

  /** Digits only, at least one, and no leading zero unless it is the only digit. */
  predicate Canonical(t: Text) { |t| > 0 && AllDigits(t) && (t[0] == ZERO ==> |t| == 1) }

  lemma {:induction false} DigitsCanonical(n: nat)
    ensures Canonical(Digits(n)) && NumberOf(Digits(n)) == n && (n > 0 ==> Digits(n)[0] != ZERO)
  {
    if n >= 10 {
      DigitsCanonical(n / 10);
      assert Digits(n)[..|Digits(n)| - 1] == Digits(n / 10);
    } else {
      assert Digits(n)[..0] == [];
    }
  }

  lemma {:induction false} CanonicalIsDigits(t: Text)
    requires Canonical(t)
    ensures Digits(NumberOf(t)) == t && (t[0] != ZERO ==> NumberOf(t) > 0)
    decreases |t|
  {
    var n := |t| - 1;
    var last := t[n] - ZERO;
    if n == 0 {
      assert NumberOf(t[..0]) == 0;
    } else {
      CanonicalIsDigits(t[..n]);
      assert (NumberOf(t[..n]) * 10 + last) / 10 == NumberOf(t[..n]);
    }
    assert t == t[..n] + [t[n]];
  }
}
