/**
 The fp32/fp64 bit paths.  A float is its bit pattern: `word` for fp64, a
 32-bit natural for fp32.  The hardware widening is written out, quieting of
 NaNs included, so that what the by-hand NaN path saves is visible.
 */
module Floats {
  import opened Wire

  const P22: nat := 0x40_0000
  const P23: nat := 0x80_0000
  const P29: nat := 0x2000_0000
  const P31: nat := 0x8000_0000
  const P32: nat := 0x1_0000_0000
  const P52: nat := 0x10_0000_0000_0000
  const CHUNK: nat := 64

  type bits32 = b: int | 0 <= b < P32

  function Pow2(k: nat): (p: nat)
    ensures p > 0
  {
    if k == 0 then 1 else 2 * Pow2(k - 1)
  }

  lemma {:induction false} Pow2Adds(i: nat, j: nat)
    ensures Pow2(i) * Pow2(j) == Pow2(i + j)
  {
    if i > 0 {
      Pow2Adds(i - 1, j);
      assert Pow2(i) * Pow2(j) == 2 * (Pow2(i - 1) * Pow2(j));
    }
  }

  /** Position of the leading one bit. */
  function Log2(m: nat): (k: nat)
    requires m > 0
    ensures Pow2(k) <= m < Pow2(k + 1)
  {
    if m == 1 then 0 else Log2(m / 2) + 1
  }

  lemma {:induction false} Pow2Monotone(i: nat, j: nat)
    requires i <= j
    ensures Pow2(i) <= Pow2(j)
    decreases j
  {
    if i < j {
      Pow2Monotone(i, j - 1);
    }
  }

  lemma Pow2Values()
    ensures Pow2(23) == P23 && Pow2(52) == P52
  {
    assert Pow2(8) == 256 && Pow2(16) == 0x1_0000;
    assert Pow2(32) == P32 by { Pow2Adds(16, 16); }
    assert Pow2(52) == P52 by { Pow2Adds(4, 16); Pow2Adds(20, 32); }
    Pow2Adds(7, 16);
  }

  function Exp32(b: bits32): nat { b / P23 % 256 }
  function Mant32(b: bits32): nat { b % P23 }
  function Exp64(d: word): nat { d / P52 % 2048 }
  function Mant64(d: word): nat { d % P52 }

  predicate IsNan32(b: bits32) { Exp32(b) == 255 && Mant32(b) != 0 }

  /** A NaN is the value that differs from itself. */
  predicate IsNan64(d: word) { Exp64(d) == 2047 && Mant64(d) != 0 }

  function Double(sign: nat, e: nat, m: nat): word
    requires sign < 2 && e < 2048 && m < P52
  {
    sign * TWO63 + e * P52 + m
  }

  lemma DoubleParts(sign: nat, e: nat, m: nat)
    requires sign < 2 && e < 2048 && m < P52
    ensures Double(sign, e, m) / TWO63 == sign
    ensures Exp64(Double(sign, e, m)) == e && Mant64(Double(sign, e, m)) == m
  {
    var d := Double(sign, e, m);
    assert d / P52 == sign * 2048 + e;
  }

  lemma Scaled(x: nat, y: nat, p: nat)
    requires x < y && p > 0
    ensures x * p < y * p
    ensures x * p % p == 0 && x * p / p == x
  {
    Quotient(x * p, p, x);
  }

  lemma Quotient(a: int, p: int, q: int)
    requires p > 0 && a == q * p
    ensures a / p == q && a % p == 0
  {
    var d := a / p - q;
    assert p * d == - (a % p);
    if d >= 1 || d <= -1 {
      assert false;
    }
  }

  lemma LeadingBit(m: nat)
    requires 0 < m < P23
    ensures Log2(m) <= 22
  {
    if Log2(m) >= 23 {
      Pow2Values();
      Pow2Monotone(23, Log2(m));
    }
  }

  lemma Complementary(k: nat)
    requires k <= 52
    ensures Pow2(k) * Pow2(52 - k) == P52
  {
    Pow2Values();
    Pow2Adds(k, 52 - k);
  }

  /** The mantissa of a subnormal fp32 number, shifted up under its leading bit. */
  lemma Subnormal(m: nat)
    requires 0 < m < P23
    ensures Log2(m) <= 22
    ensures Shifted(m - Pow2(Log2(m)), Pow2(52 - Log2(m)))
  {
    LeadingBit(m);
    Complementary(Log2(m));
    Scaled(m - Pow2(Log2(m)), Pow2(Log2(m)), Pow2(52 - Log2(m)));
  }

  predicate Shifted(x: nat, p: nat) {
    p > 0 && x * p < P52 && x * p % p == 0 && x * p / p == x
  }

  /**
   What the processor's fp32 to fp64 conversion yields: exact for every number
   and infinity, and for a NaN the payload with the quiet bit set.
   */
  function HardwareWiden(b: bits32): word {
    var sign, e, m := b / P31, Exp32(b), Mant32(b);
    if e == 255 then
      Double(sign, 2047, if m == 0 then 0 else (m % P22 + P22) * P29)
    else if e > 0 then Double(sign, e + 896, m * P29)
    else if m == 0 then Double(sign, 0, 0)
    else
      Subnormal(m);
      Double(sign, Log2(m) + 874, (m - Pow2(Log2(m))) * Pow2(52 - Log2(m)))
  }

  /** `_unpack_f32_bits`: a NaN is widened by hand, everything else by the hardware. */
  function Widen(b: bits32): word {
    if IsNan32(b) then Double(b / P31, 2047, Mant32(b) * P29) else HardwareWiden(b)
  }

  /** The doubles that are exactly some fp32 number or infinity. */
  predicate IsSingle(d: word) {
    var e, m := Exp64(d), Mant64(d);
    || (e == 0 && m == 0)
    || (874 <= e < 897 && m % Pow2(926 - e) == 0)
    || (897 <= e <= 1150 && m % P29 == 0)
    || (e == 2047 && m == 0)
  }

  /** What the processor's narrowing yields where no rounding is involved. */
  function HardwareNarrow(d: word): nat
    requires IsSingle(d)
  {
    var sign, e, m := d / TWO63, Exp64(d), Mant64(d);
    sign * P31 +
    (if e == 0 then 0
     else if e < 897 then Pow2(e - 874) + m / Pow2(926 - e)
     else if e <= 1150 then (e - 896) * P23 + m / P29
     else 255 * P23)
  }

  /** `_pack_f32_bits`: a NaN keeps sign, payload and signaling bit. */
  function Narrow(d: word): nat
    requires IsNan64(d) || IsSingle(d)
  {
    if IsNan64(d) then
      var m := d / P29 % P23;
      d / TWO63 * P31 + 255 * P23 + (if m == 0 then P22 else m)
    else HardwareNarrow(d)
  }

  /** The conversion loses nothing of this pattern. */
  predicate Exact(b: bits32) {
    var d := HardwareWiden(b);
    !IsNan64(d) && IsSingle(d) && HardwareNarrow(d) == b
  }

  lemma Composed(b: bits32)
    ensures b == b / P31 * P31 + Exp32(b) * P23 + Mant32(b)
  {
  }

  lemma NormalIsExact(b: bits32)
    requires 0 < Exp32(b) < 255
    ensures Exact(b)
  {
    var sign, e, m := b / P31, Exp32(b), Mant32(b);
    Composed(b);
    DoubleParts(sign, e + 896, m * P29);
    Scaled(m, P23, P29);
  }

  lemma SubnormalIsExact(b: bits32)
    requires Exp32(b) == 0 && Mant32(b) > 0
    ensures Exact(b)
  {
    var sign, m := b / P31, Mant32(b);
    Composed(b);
    Subnormal(m);
    var k := Log2(m);
    var x, p := m - Pow2(k), Pow2(52 - k);
    DoubleParts(sign, k + 874, x * p);
    NarrowsTo(HardwareWiden(b), sign, k, x * p, x);
  }

  lemma NarrowsTo(d: word, sign: nat, k: nat, y: nat, x: nat)
    requires k <= 22 && d / TWO63 == sign && Exp64(d) == k + 874 && Mant64(d) == y
    requires y % Pow2(52 - k) == 0 && y / Pow2(52 - k) == x
    ensures !IsNan64(d) && IsSingle(d) && HardwareNarrow(d) == sign * P31 + Pow2(k) + x
  {
  }

  lemma HardwareIsExact(b: bits32)
    requires !IsNan32(b)
    ensures !IsNan64(HardwareWiden(b)) && IsSingle(HardwareWiden(b))
    ensures HardwareNarrow(HardwareWiden(b)) == b
  {
    var sign, e, m := b / P31, Exp32(b), Mant32(b);
    if 0 < e < 255 {
      NormalIsExact(b);
    } else if e == 0 && m > 0 {
      SubnormalIsExact(b);
    } else {
      Composed(b);
      DoubleParts(sign, if e == 0 then 0 else 2047, 0);
    }
  }

  /**
   Every fp32 pattern survives the trip through a double, signaling NaNs
   included (section 6.2.1 of IEEE 754-2008).
   */
  lemma Fp32RoundTrip(b: bits32)
    ensures IsNan64(Widen(b)) || IsSingle(Widen(b))
    ensures Narrow(Widen(b)) == b
  {
    var sign, m := b / P31, Mant32(b);
    if IsNan32(b) {
      assert b == sign * P31 + 255 * P23 + m;
      DoubleParts(sign, 2047, m * P29);
      var d := Widen(b);
      assert d == (sign * 0x4_0000_0000 + 2047 * P23 + m) * P29;
      assert d / P29 == sign * 0x4_0000_0000 + 2047 * P23 + m;
    } else {
      HardwareIsExact(b);
    }
  }

  /** The conversion itself answers which elements are NaN: it keeps NaNs NaN and makes none. */
  lemma HardwareKeepsNan(b: bits32)
    ensures IsNan64(HardwareWiden(b)) <==> IsNan32(b)
  {
    if IsNan32(b) {
      DoubleParts(b / P31, 2047, (Mant32(b) % P22 + P22) * P29);
    } else {
      HardwareIsExact(b);
    }
  }

  /** The by-hand path is needed: the hardware loses exactly the signaling NaNs. */
  lemma HardwareLosesSignaling(b: bits32)
    ensures HardwareWiden(b) == Widen(b) <==> !(IsNan32(b) && Mant32(b) < P22)
  {
    if IsNan32(b) {
      var m := Mant32(b);
      assert (m % P22 + P22 == m) <==> m >= P22;
    }
  }

  // ----- the number a pattern stands for --------------------------------------

  /** Where the units of fp32, 2^-149, stand over those of fp64, 2^-1074. */
  const UNITS: nat := 925

  /** The magnitude of a finite fp32 pattern, section 3.4 of IEEE 754-2008, in units of 2^-149. */
  function Magnitude32(b: bits32): nat {
    if Exp32(b) == 0 then Mant32(b) else (P23 + Mant32(b)) * Pow2(Exp32(b) - 1)
  }

  /** The magnitude of a finite fp64 pattern, in units of 2^-1074. */
  function Magnitude64(d: word): nat {
    if Exp64(d) == 0 then Mant64(d) else (P52 + Mant64(d)) * Pow2(Exp64(d) - 1)
  }

  predicate IsInfinite32(b: bits32) { Exp32(b) == 255 && Mant32(b) == 0 }

  predicate IsInfinite64(d: word) { Exp64(d) == 2047 && Mant64(d) == 0 }

  /** The same sign; and infinity for infinity, NaN for NaN, the same number for a number. */
  predicate SameNumber(b: bits32, d: word) {
    && b / P31 == d / TWO63
    && (IsInfinite32(b) <==> IsInfinite64(d)) && (IsNan32(b) <==> IsNan64(d))
    && (Exp32(b) < 255 <==> Exp64(d) < 2047)
    && (Exp32(b) < 255 ==> Magnitude64(d) == Magnitude32(b) * Pow2(UNITS))
  }

  lemma NormalNumber(e: nat, m: nat)
    requires e > 0
    ensures (P52 + m * P29) * Pow2(e + 895) == (P23 + m) * Pow2(e - 1) * Pow2(UNITS)
  {
    assert Pow2(29) == P29 by { Pow2Values(); Pow2Adds(6, 23); }
    Pow2Adds(29, e + 895);
    Pow2Adds(e - 1, UNITS);
    Regrouped(P23 + m, P29, Pow2(e + 895));
    Regrouped(P23 + m, Pow2(e - 1), Pow2(UNITS));
    assert P52 + m * P29 == (P23 + m) * P29;
  }

  lemma Regrouped(a: nat, b: nat, c: nat)
    ensures a * b * c == a * (b * c)
  {
  }

  lemma SubnormalNumber(m: nat, k: nat)
    requires k <= 52 && Pow2(k) <= m
    ensures (P52 + (m - Pow2(k)) * Pow2(52 - k)) * Pow2(k + 873) == m * Pow2(UNITS)
  {
    Complementary(k);
    Pow2Adds(52 - k, k + 873);
    Distributed(m, Pow2(k), Pow2(52 - k));
    Regrouped(m, Pow2(52 - k), Pow2(k + 873));
  }

  lemma Distributed(m: nat, a: nat, p: nat)
    requires a <= m
    ensures a * p + (m - a) * p == m * p
  {
  }

  /** A double by its parts. */
  lemma Stands(b: bits32, e: nat, m: nat, d: word)
    requires e < 2047 && m < P52 && d == Double(b / P31, e, m) && Exp32(b) < 255
    requires (if e == 0 then m else (P52 + m) * Pow2(e - 1)) == Magnitude32(b) * Pow2(UNITS)
    ensures SameNumber(b, d)
  {
    DoubleParts(b / P31, e, m);
    hide Pow2, Magnitude32, Double;
  }

  lemma NormalKeepsNumber(b: bits32)
    requires 0 < Exp32(b) < 255
    ensures SameNumber(b, HardwareWiden(b))
  {
    hide Pow2, SameNumber, Double;
    NormalNumber(Exp32(b), Mant32(b));
    Stands(b, Exp32(b) + 896, Mant32(b) * P29, HardwareWiden(b));
  }

  lemma SubnormalKeepsNumber(b: bits32)
    requires Exp32(b) == 0 && Mant32(b) > 0
    ensures SameNumber(b, HardwareWiden(b))
  {
    hide Pow2, SameNumber, Double, Log2, Exp64, Mant64;
    var m := Mant32(b);
    Subnormal(m);
    var k := Log2(m);
    SubnormalNumber(m, k);
    Stands(b, k + 874, (m - Pow2(k)) * Pow2(52 - k), HardwareWiden(b));
  }

  /** Widening keeps the number a pattern stands for. */
  lemma WidenKeepsNumber(b: bits32)
    ensures SameNumber(b, HardwareWiden(b)) && SameNumber(b, Widen(b))
  {
    hide Pow2, Log2, Double, Magnitude32, Magnitude64;
    var sign, e, m := b / P31, Exp32(b), Mant32(b);
    if e == 255 {
      DoubleParts(sign, 2047, if m == 0 then 0 else (m % P22 + P22) * P29);
      DoubleParts(sign, 2047, m * P29);
    } else if e > 0 {
      NormalKeepsNumber(b);
    } else if m == 0 {
      DoubleParts(sign, 0, 0);
      Stands(b, 0, 0, HardwareWiden(b)) by { ZeroNumber(b); }
    } else {
      SubnormalKeepsNumber(b);
    }
  }

  lemma ZeroNumber(b: bits32)
    requires Exp32(b) == 0 && Mant32(b) == 0
    ensures Magnitude32(b) * Pow2(UNITS) == 0
  {
  }

  // ----- blocked moves ------------------------------------------------------

  /** Bytes that `n` floats of one width take. */
  function Packed(width: nat, n: nat): nat
    requires width == 4 || width == 8
  {
    if width == 4 then 4 * n else 8 * n
  }

  function Bits(data: seq<byte>, i: nat): bits32
    requires Packed(4, i + 1) <= |data|
  {
    FixedWidths();
    UnsignedBound(data[4 * i..4 * i + 4]);
    Unsigned(data[4 * i..4 * i + 4])
  }

  function Word(data: seq<byte>, i: nat): word
    requires Packed(8, i + 1) <= |data|
  {
    FixedWidths();
    UnsignedBound(data[8 * i..8 * i + 8]);
    Unsigned(data[8 * i..8 * i + 8])
  }

  /** The value of element `i` of a packed array of `width`-byte floats. */
  function Element(data: seq<byte>, width: nat, i: nat): word
    requires width == 4 || width == 8
    requires Packed(width, i + 1) <= |data|
  {
    if width == 4 then Widen(Bits(data, i)) else Word(data, i)
  }

  /** Element by element widening of a packed payload. */
  function Elements(data: seq<byte>, width: nat, count: nat): (r: seq<word>)
    requires width == 4 || width == 8
    requires Packed(width, count) <= |data|
    ensures |r| == count
  {
    seq<word>(count, i requires 0 <= i < count => Element(data, width, i))
  }

  /** One element as `struct` unpacks it, before any NaN is repaired. */
  function RawElement(data: seq<byte>, width: nat, i: nat): word
    requires width == 4 || width == 8
    requires Packed(width, i + 1) <= |data|
  {
    if width == 8 then Word(data, i) else HardwareWiden(Bits(data, i))
  }

  function RawBlock(data: seq<byte>, width: nat, off: nat, n: nat): (r: seq<word>)
    requires width == 4 || width == 8
    requires Packed(width, off + n) <= |data|
    ensures |r| == n
  {
    seq<word>(n, k requires 0 <= k < n => RawElement(data, width, off + k))
  }

  predicate AnyNan(values: seq<word>) {
    exists k | 0 <= k < |values| :: IsNan64(values[k])
  }

  /** `_unpack_f32_bits` over the NaNs of a block, the rest left as it is. */
  function Repaired(data: seq<byte>, off: nat, values: seq<word>): (r: seq<word>)
    requires Packed(4, off + |values|) <= |data|
    ensures |r| == |values|
  {
    seq<word>(|values|, k requires 0 <= k < |values| =>
      if IsNan64(values[k]) then Widen(Bits(data, off + k)) else values[k])
  }

  /** A block, repaired only if it holds a NaN, is the element-wise widening. */
  lemma BlockIsElements(data: seq<byte>, width: nat, count: nat, off: nat, n: nat)
    requires width == 4 || width == 8
    requires Packed(width, count) <= |data| && off + n <= count
    ensures
      var raw := RawBlock(data, width, off, n);
      Elements(data, width, count)[off..off + n] ==
      if width == 4 && AnyNan(raw) then Repaired(data, off, raw) else raw
  {
    var raw, all := RawBlock(data, width, off, n), Elements(data, width, count);
    forall k | 0 <= k < n
      ensures all[off + k] == if width == 4 && IsNan64(raw[k]) then Widen(Bits(data, off + k)) else raw[k]
    {
      if width == 4 {
        HardwareKeepsNan(Bits(data, off + k));
      }
    }
  }

  /** One more block of `all` written behind the first `off` elements. */
  lemma Splice(was: seq<word>, now: seq<word>, next: seq<word>, all: seq<word>, at: nat, off: nat, n: nat)
    requires off + n <= |all| && at + |all| <= |was|
    requires now == was[..at] + all[..off] + was[at + off..]
    requires next == now[..at + off] + all[off..off + n] + now[at + off + n..]
    ensures next == was[..at] + all[..off + n] + was[at + off + n..]
  {
    assert now[..at + off] == was[..at] + all[..off];
    assert now[at + off + n..] == was[at + off + n..];
    assert all[..off + n] == all[..off] + all[off..off + n];
  }

  /**
   Moves `count` packed floats into `dst[at..]`, a fixed block at a time.  A
   block with a NaN in it is re-derived from its raw bits.
   */
  method UnpackFarrayInto(dst: array<word>, at: nat, data: seq<byte>, count: nat, width: nat)
    requires width == 4 || width == 8
    requires Packed(width, count) <= |data|
    requires at + count <= dst.Length
    modifies dst
    ensures dst[..] == old(dst[..at]) + Elements(data, width, count) + old(dst[at + count..])
  {
    hide Elements;
    ghost var was, all := dst[..], Elements(data, width, count);
    var off := 0;
    while off < count
      invariant 0 <= off <= count
      invariant dst[..] == was[..at] + all[..off] + was[at + off..]
    {
      var n := if count - off > CHUNK then CHUNK else count - off;
      ghost var now := dst[..];
      MoveBlock(dst, at, data, count, width, off, n);
      Splice(was, now, dst[..], all, at, off, n);
      off := off + n;
    }
    assert all[..off] == all;
  }

  /** One block into its place, repaired where it holds a NaN. */
  method MoveBlock(dst: array<word>, at: nat, data: seq<byte>, count: nat, width: nat, off: nat, n: nat)
    requires width == 4 || width == 8
    requires Packed(width, count) <= |data| && off + n <= count
    requires at + count <= dst.Length
    modifies dst
    ensures dst[..] ==
      old(dst[..at + off]) + Elements(data, width, count)[off..off + n] + old(dst[at + off + n..])
  {
    hide Elements, RawBlock, Repaired, AnyNan, IsNan64;
    BlockIsElements(data, width, count, off, n);
    var values := RawBlock(data, width, off, n);
    if width == 4 && AnyNan(values) {
      values := Repaired(data, off, values);
    }
    Store(dst, at + off, values);
  }

  /** The slice assignment of one block. */
  method Store(dst: array<word>, at: nat, values: seq<word>)
    requires at + |values| <= dst.Length
    modifies dst
    ensures dst[..] == old(dst[..at]) + values + old(dst[at + |values|..])
  {
    forall k | 0 <= k < |values| {
      dst[at + k] := values[k];
    }
  }

  /** The wire bits of every fp32 element can be read back off its slot. */
  lemma SlotsKeepWireBits(data: seq<byte>, count: nat, i: nat)
    requires Packed(4, count) <= |data| && i < count
    ensures
      var slot := Elements(data, 4, count)[i];
      && (IsNan64(slot) || IsSingle(slot))
      && LittleEndian(Narrow(slot), 4) == data[4 * i..4 * i + 4]
  {
    Fp32RoundTrip(Bits(data, i));
    LittleEndianInverts(data[4 * i..4 * i + 4]);
  }
}
