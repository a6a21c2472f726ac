/** The UTF-8 form of a host text (section 3 of RFC 3629), which the byte counts are about. */
module Utf8 {
  import opened Units
  import opened JsonQuote

  /** A Unicode scalar value. */
  type Scalar = x: int | (0 <= x < 0xd800) || (0xe000 <= x < 0x11_0000)

  const REPLACEMENT: Scalar := 0xfffd

  // ---- scalar values ----

  function PairValue(high: int, low: int): Scalar
    requires IsHigh(high) && IsLow(low)
  {
    0x1_0000 + (high - 0xd800) * 0x400 + (low - 0xdc00)
  }

  /** The scalar values of a text; a lone surrogate is read as the replacement character. */
  function Scalars(t: Text): seq<Scalar> {
    if t == [] then []
    else if |t| >= 2 && IsHigh(t[0]) && IsLow(t[1]) then [PairValue(t[0], t[1])] + Scalars(t[2..])
    else [if IsHigh(t[0]) || IsLow(t[0]) then REPLACEMENT else t[0]] + Scalars(t[1..])
  }

  function UnitsOf(x: Scalar): Text {
    if x < 0x1_0000 then [x] else [0xd800 + (x - 0x1_0000) / 0x400, 0xdc00 + (x - 0x1_0000) % 0x400]
  }

  function TextOf(xs: seq<Scalar>): Text { if xs == [] then [] else UnitsOf(xs[0]) + TextOf(xs[1..]) }

  // ---- bytes ----

  function Encode(x: Scalar): seq<Byte> {
    if x < 0x80 then [x]
    else if x < 0x800 then [0xc0 + x / 0x40, 0x80 + x % 0x40]
    else if x < 0x1_0000 then [0xe0 + x / 0x1000, 0x80 + x / 0x40 % 0x40, 0x80 + x % 0x40]
    else [0xf0 + x / 0x4_0000, 0x80 + x / 0x1000 % 0x40, 0x80 + x / 0x40 % 0x40, 0x80 + x % 0x40]
  }

  function EncodeAll(xs: seq<Scalar>): seq<Byte> { if xs == [] then [] else Encode(xs[0]) + EncodeAll(xs[1..]) }

  predicate IsTail(b: Byte) { 0x80 <= b < 0xc0 }

  /** What is left of a byte above the mark in its high bits. */
  function Bits(b: Byte, mark: int): int { b - mark }

  /** The scalar value at the front of some bytes and how many bytes it takes; none for bytes that are not UTF-8. */
  function Decode(bs: seq<Byte>): Option<(Scalar, nat)> {
    if |bs| >= 1 && bs[0] < 0x80 then Some((bs[0], 1))
    else if |bs| >= 2 && 0xc2 <= bs[0] < 0xe0 && IsTail(bs[1]) then
      Some((Bits(bs[0], 0xc0) * 0x40 + Bits(bs[1], 0x80), 2))
    else if |bs| >= 3 && 0xe0 <= bs[0] < 0xf0 && IsTail(bs[1]) && IsTail(bs[2]) then
      var x := Bits(bs[0], 0xe0) * 0x1000 + Bits(bs[1], 0x80) * 0x40 + Bits(bs[2], 0x80);
      if x < 0x800 || 0xd800 <= x < 0xe000 then None else Some((x, 3))
    else if |bs| >= 4 && 0xf0 <= bs[0] < 0xf5 && IsTail(bs[1]) && IsTail(bs[2]) && IsTail(bs[3]) then
      var x := Bits(bs[0], 0xf0) * 0x4_0000 + Bits(bs[1], 0x80) * 0x1000 + Bits(bs[2], 0x80) * 0x40 + Bits(bs[3], 0x80);
      if x < 0x1_0000 || x >= 0x11_0000 then None else Some((x, 4))
    else None
  }

  function DecodeAll(bs: seq<Byte>): Option<seq<Scalar>> {
    if bs == [] then Some([]) else
    var first := Decode(bs);
    if first.None? || first.value.1 > |bs| || first.value.1 == 0 then None else
    var rest := DecodeAll(bs[first.value.1..]);
    if rest.None? then None else Some([first.value.0] + rest.value)
  }

  /** A number is its groups of six bits. */
  lemma Groups(x: nat)
    ensures x == x / 0x1000 * 0x1000 + x / 0x40 % 0x40 * 0x40 + x % 0x40
    ensures x / 0x1000 == x / 0x4_0000 * 0x40 + x / 0x1000 % 0x40
  {
    assert x / 0x1000 == x / 0x40 / 0x40;
    assert x / 0x4_0000 == x / 0x1000 / 0x40;
  }

  lemma DecodesFirst(x: Scalar, rest: seq<Byte>)
    ensures Decode(Encode(x) + rest) == Some((x, |Encode(x)|))
  {
    Groups(x);
    var bs := Encode(x) + rest;
    assert forall k :: 0 <= k < |Encode(x)| ==> bs[k] == Encode(x)[k];
    if x >= 0x1_0000 {
      assert IsTail(bs[1]) && IsTail(bs[2]) && IsTail(bs[3]);
    } else if x >= 0x800 {
      assert IsTail(bs[1]) && IsTail(bs[2]);
    }
  }

  /** The bytes of some scalar values decode to them. */
  lemma {:induction false} EncodeDecodes(xs: seq<Scalar>)
    ensures DecodeAll(EncodeAll(xs)) == Some(xs)
    decreases |xs|
  {
    hide Encode, Decode;
    if xs != [] {
      var bs, rest := Encode(xs[0]), EncodeAll(xs[1..]);
      EncodeSize(xs[0]);
      DecodesFirst(xs[0], rest);
      EncodeDecodes(xs[1..]);
      assert (bs + rest)[|bs|..] == rest;
      assert xs == [xs[0]] + xs[1..];
    }
  }

  lemma EncodeSize(x: Scalar)
    ensures |Encode(x)| == if x < 0x80 then 1 else if x < 0x800 then 2 else if x < 0x1_0000 then 3 else 4
  {}

  /** A text without lone surrogates is the text of its scalar values. */
  lemma {:induction false} ScalarsRead(t: Text)
    requires forall k :: 0 <= k < |t| ==> !Lone(t, k)
    ensures TextOf(Scalars(t)) == t
    decreases |t|
  {
    if t != [] {
      var pair := |t| >= 2 && IsHigh(t[0]) && IsLow(t[1]);
      var n := if pair then 2 else 1;
      forall k | 0 <= k < |t[n..]| ensures !Lone(t[n..], k) { LoneBehind(t, n, n + k); }
      ScalarsRead(t[n..]);
      assert !Lone(t, 0);
      assert t == t[..n] + t[n..];
      assert Scalars(t)[1..] == Scalars(t[n..]);
      if pair { PairReads(t[0], t[1]); }
      assert UnitsOf(Scalars(t)[0]) == t[..n];
    }
  }

  lemma PairReads(high: Unit, low: Unit)
    requires IsHigh(high) && IsLow(low)
    ensures UnitsOf(PairValue(high, low)) == [high, low]
  {}

  /** The byte count of a text is the length of its UTF-8 form. */
  lemma {:induction false} LengthIsEncoded(t: Text)
    ensures Utf8Length(t) == |EncodeAll(Scalars(t))|
    decreases |t|
  {
    hide Encode;
    if t != [] {
      var n := if |t| >= 2 && IsHigh(t[0]) && IsLow(t[1]) then 2 else 1;
      LengthIsEncoded(t[n..]);
      EncodeSize(Scalars(t)[0]);
      assert Scalars(t)[1..] == Scalars(t[n..]);
    }
  }
}
