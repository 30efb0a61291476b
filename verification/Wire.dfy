/**
 The primitive codec of the wire format: base-128 varints, the ZigZag mapping
 and little-endian words.  Bit operations of the source are written as
 arithmetic on unbounded integers: `x & 0x7F` is `x % 128`, `x >> 7` is
 `x / 128`, and `|` of disjoint bits is `+`.
 */
module Wire {

  datatype Option<+T> = None | Some(value: T)

  type byte = b: int | 0 <= b < 256

  const TWO63: int := 0x8000_0000_0000_0000
  const TWO64: int := 0x1_0000_0000_0000_0000
  const ID_MAX: int := 0x7FFF_FFFF
  const FIXLEN_MAX: int := 0x7FFF_FFFF
  const ARRAY_MAX: int := 0x7FFF_FFFF
  const MAX_DEPTH: nat := 255
  const VARINT_MAX: nat := 10

  type word = w: int | 0 <= w < TWO64
  type int64 = v: int | -TWO63 <= v < TWO63

  // ----- varints ------------------------------------------------------------

  /** What the bytes at hand say about one varint. */
  datatype Read = Got(value: nat, len: nat) | More | Overlong

  /**
   Reads a varint of which `k` bytes have been consumed already.  The tenth
   byte carries bit 63 and nothing else, so it is the only one that can
   overflow 64 bits.
   */
  function VarintFrom(s: seq<byte>, k: nat): Read
    requires k <= 9
    decreases 9 - k
  {
    if s == [] then More
    else if k == 9 then
      if s[0] > 1 then Overlong else Got(s[0], 1)
    else if s[0] < 128 then Got(s[0], 1)
    else
      match VarintFrom(s[1..], k + 1)
      case Got(v, n) => Got(s[0] - 128 + 128 * v, n + 1)
      case other => other
  }

  function ReadVarint(s: seq<byte>): Read {
    VarintFrom(s, 0)
  }

  function Varint(v: nat): (out: seq<byte>)
    ensures out != []
  {
    if v < 128 then [v] else [128 + v % 128] + Varint(v / 128)
  }

  /** The largest value plus one that a varint of which `k` bytes are gone may still carry. */
  function Room(k: nat): (r: nat)
    requires k <= 9
    ensures r >= 2
    decreases 9 - k
  {
    if k == 9 then 2 else 128 * Room(k + 1)
  }

  lemma RoomIs64Bits()
    ensures Room(0) == TWO64
  {
    assert Room(9) == 2 && Room(8) == 0x100 && Room(7) == 0x8000 && Room(6) == 0x40_0000;
    assert Room(5) == 0x2000_0000 && Room(4) == 0x10_0000_0000 && Room(3) == 0x800_0000_0000;
    assert Room(2) == 0x4_0000_0000_0000 && Room(1) == 0x200_0000_0000_0000;
  }

  lemma {:induction false} VarintFromBounds(s: seq<byte>, k: nat)
    requires k <= 9
    ensures
      match VarintFrom(s, k)
      case Got(v, n) => v < Room(k) && 1 <= n <= |s| && n + k <= 10 && |Varint(v)| <= n
      case More => |s| + k < 10
      case Overlong => |s| + k >= 10
    decreases 9 - k
  {
    if s != [] && k < 9 && s[0] >= 128 {
      VarintFromBounds(s[1..], k + 1);
      if VarintFrom(s[1..], k + 1).Got? {
        var v := VarintFrom(s[1..], k + 1).value;
        var w := s[0] - 128 + 128 * v;
        assert v < Room(k + 1) && Room(k) == 128 * Room(k + 1);
        assert w / 128 == v && w % 128 == s[0] - 128;
        assert |Varint(w)| <= 1 + |Varint(v)|;
      }
    }
  }

  /** A decoded varint is a 64-bit value, takes at most ten bytes, and no encoding is shorter than the canonical one. */
  lemma ReadVarintBounds(s: seq<byte>)
    ensures
      match ReadVarint(s)
      case Got(v, n) => v < TWO64 && 1 <= n <= |s| && n <= VARINT_MAX && |Varint(v)| <= n
      case More => |s| < VARINT_MAX
      case Overlong => |s| >= VARINT_MAX
  {
    RoomIs64Bits();
    VarintFromBounds(s, 0);
  }

  // ----- what a varint is -----------------------------------------------------

  /** The first `n` bytes are one varint: each but the last says that one more follows. */
  predicate Ended(s: seq<byte>, n: nat) {
    1 <= n <= |s| && s[n - 1] < 128 && forall i | 0 <= i < n - 1 :: s[i] >= 128
  }

  /** Seven bits a byte, the lowest first. */
  function Weighed(s: seq<byte>): nat {
    if s == [] then 0 else s[0] % 128 + 128 * Weighed(s[1..])
  }

  lemma EndedTail(s: seq<byte>, n: nat)
    requires Ended(s, n) && n > 1
    ensures s[0] >= 128 && Ended(s[1..], n - 1) && Weighed(s[..n]) == s[0] - 128 + 128 * Weighed(s[1..][..n - 1])
  {
    assert s[..n][1..] == s[1..][..n - 1];
    assert forall i | 0 <= i < n - 2 :: s[1..][i] == s[i + 1];
  }

  lemma {:induction false} FromExactly(s: seq<byte>, k: nat, n: nat)
    requires k <= 9 && Ended(s, n)
    ensures VarintFrom(s, k) ==
            if n + k <= 10 && Weighed(s[..n]) < Room(k) then Got(Weighed(s[..n]), n) else Overlong
    decreases n
  {
    if n == 1 {
      assert s[..1] == [s[0]] && [s[0]][1..] == [];
      assert Weighed([s[0]]) == s[0];
    } else {
      EndedTail(s, n);
      hide Ended, Weighed;
      if k < 9 {
        FromExactly(s[1..], k + 1, n - 1);
      }
    }
  }

  lemma {:induction false} FromEndless(s: seq<byte>, k: nat)
    requires k <= 9 && forall i | 0 <= i < |s| :: s[i] >= 128
    ensures VarintFrom(s, k) == if |s| + k < 10 then More else Overlong
    decreases |s|
  {
    if s != [] && k < 9 {
      assert forall i | 0 <= i < |s[1..]| :: s[1..][i] == s[i + 1];
      FromEndless(s[1..], k + 1);
    }
  }

  /**
   What is read, without the reader: the bytes up to the first below 128 are a
   varint if they are ten at most and carry a 64-bit value, and overlong
   otherwise; where no byte ends them they are short of ten, or overlong.
   */
  lemma ReadsExactly(s: seq<byte>, n: nat)
    ensures Ended(s, n) ==>
      ReadVarint(s) == if n <= 10 && Weighed(s[..n]) < TWO64 then Got(Weighed(s[..n]), n) else Overlong
    ensures (forall i | 0 <= i < |s| :: s[i] >= 128) ==> ReadVarint(s) == if |s| < 10 then More else Overlong
  {
    RoomIs64Bits();
    if Ended(s, n) {
      FromExactly(s, 0, n);
    }
    if forall i | 0 <= i < |s| :: s[i] >= 128 {
      FromEndless(s, 0);
    }
  }

  /** A value is written as one varint that carries it, and the last byte is 0 only of the value 0. */
  lemma {:induction false} WritesExactly(v: nat)
    ensures Ended(Varint(v), |Varint(v)|) && Weighed(Varint(v)) == v
    ensures Varint(v)[|Varint(v)| - 1] == 0 ==> v == 0
  {
    if v >= 128 {
      WritesExactly(v / 128);
      OneMore(128 + v % 128, Varint(v / 128));
    }
  }

  lemma OneMore(b: byte, rest: seq<byte>)
    requires b >= 128 && Ended(rest, |rest|)
    ensures
      var s := [b] + rest;
      Ended(s, |s|) && Weighed(s) == b - 128 + 128 * Weighed(rest) && s[|s| - 1] == rest[|rest| - 1]
  {
    var s := [b] + rest;
    assert s[1..] == rest;
  }

  lemma {:induction false} VarintFromExtends(s: seq<byte>, ext: seq<byte>, k: nat)
    requires k <= 9
    requires !VarintFrom(s, k).More?
    ensures VarintFrom(s + ext, k) == VarintFrom(s, k)
    decreases 9 - k
  {
    assert (s + ext)[0] == s[0];
    if k < 9 && s[0] >= 128 {
      assert (s + ext)[1..] == s[1..] + ext;
      VarintFromExtends(s[1..], ext, k + 1);
    }
  }

  /** A verdict reached on some bytes is not changed by the bytes that follow. */
  lemma ReadVarintExtends(s: seq<byte>, ext: seq<byte>)
    requires !ReadVarint(s).More?
    ensures ReadVarint(s + ext) == ReadVarint(s)
  {
    VarintFromExtends(s, ext, 0);
  }

  lemma {:induction false} VarintFromInverts(v: nat, rest: seq<byte>, k: nat)
    requires k <= 9 && v < Room(k)
    ensures VarintFrom(Varint(v) + rest, k) == Got(v, |Varint(v)|)
    decreases 9 - k
  {
    var s := Varint(v) + rest;
    if v >= 128 {
      assert s[0] == 128 + v % 128;
      assert s[1..] == Varint(v / 128) + rest;
      VarintFromInverts(v / 128, rest, k + 1);
    } else {
      assert s[0] == v;
    }
  }

  /** Decoding inverts encoding, whatever follows the encoding. */
  lemma ReadInvertsVarint(v: nat, rest: seq<byte>)
    requires v < TWO64
    ensures ReadVarint(Varint(v) + rest) == Got(v, |Varint(v)|)
    ensures |Varint(v)| <= VARINT_MAX
  {
    RoomIs64Bits();
    VarintFromInverts(v, rest, 0);
    ReadVarintBounds(Varint(v) + rest);
  }

  /** The reference encoder of the source: one group per turn. */
  method EncodeVarint(value: nat) returns (out: seq<byte>)
    ensures out == Varint(value)
  {
    out := [];
    var v := value;
    while v >= 128
      invariant out + Varint(v) == Varint(value)
      decreases v
    {
      assert Varint(v) == [128 + v % 128] + Varint(v / 128);
      assert out + Varint(v) == out + [128 + v % 128] + Varint(v / 128);
      out := out + [128 + v % 128];
      v := v / 128;
    }
    out := out + [v];
  }

  // ----- ZigZag -------------------------------------------------------------

  /** `x ^ m` on unbounded two's complement, for the two masks the mapping uses. */
  function XorSign(x: int, m: int): int
    requires m == 0 || m == -1
  {
    if m == 0 then x else -x - 1
  }

  /** `(v << 1) ^ (v >> 63)`, unmasked, as the signed array loop computes it. */
  function ZigzagRaw(v: int64): int {
    XorSign(2 * v, v / TWO63)
  }

  /** The same masked to 64 bits, as `zigzag_encode` computes it. */
  function ZigzagEncode(v: int64): word {
    ZigzagRaw(v) % TWO64
  }

  /** `(u >> 1) ^ -(u & 1)`. */
  function ZigzagDecode(u: word): int64 {
    XorSign(u / 2, -(u % 2))
  }

  lemma SignBit(v: int64)
    ensures v / TWO63 == if v < 0 then -1 else 0
  {
  }

  /** The mask never changes anything: the mapping of an int64 already is a 64-bit word. */
  lemma MaskIsIdle(v: int64)
    ensures 0 <= ZigzagRaw(v) < TWO64 && ZigzagEncode(v) == ZigzagRaw(v)
  {
    SignBit(v);
  }

  lemma ZigzagThere(v: int64)
    ensures ZigzagDecode(ZigzagEncode(v)) == v
  {
    SignBit(v);
    MaskIsIdle(v);
  }

  lemma ZigzagBack(u: word)
    ensures ZigzagEncode(ZigzagDecode(u)) == u
  {
    SignBit(ZigzagDecode(u));
    MaskIsIdle(ZigzagDecode(u));
  }

  /** ZigZag is a bijection between int64 and the 64-bit words, masked or not. */
  lemma ZigzagBijection(v: int64, u: word)
    ensures ZigzagDecode(ZigzagEncode(v)) == v
    ensures ZigzagEncode(ZigzagDecode(u)) == u
    ensures ZigzagRaw(v) == ZigzagEncode(v) == if v >= 0 then 2 * v else -2 * v - 1
  {
    SignBit(v);
    ZigzagThere(v);
    ZigzagBack(u);
    MaskIsIdle(v);
  }

  // ----- little-endian words -------------------------------------------------

  function Unsigned(s: seq<byte>): nat {
    if s == [] then 0 else s[0] + 256 * Unsigned(s[1..])
  }

  function LittleEndian(v: nat, width: nat): (s: seq<byte>)
    ensures |s| == width
  {
    if width == 0 then [] else [v % 256] + LittleEndian(v / 256, width - 1)
  }

  lemma {:induction false} LittleEndianInverts(s: seq<byte>)
    ensures LittleEndian(Unsigned(s), |s|) == s
  {
    if s != [] {
      var v := Unsigned(s);
      assert v % 256 == s[0] && v / 256 == Unsigned(s[1..]);
      LittleEndianInverts(s[1..]);
    }
  }

  function Span(width: nat): nat {
    if width == 0 then 1 else 256 * Span(width - 1)
  }

  lemma {:induction false} UnsignedBound(s: seq<byte>)
    ensures Unsigned(s) < Span(|s|)
  {
    if s != [] {
      UnsignedBound(s[1..]);
    }
  }

  lemma FixedWidths()
    ensures Span(4) == 0x1_0000_0000 && Span(8) == TWO64
  {
    assert Span(1) == 0x100 && Span(2) == 0x1_0000 && Span(3) == 0x100_0000;
    assert Span(5) == 0x100_0000_0000 && Span(6) == 0x1_0000_0000_0000;
    assert Span(7) == 0x100_0000_0000_0000;
  }
}
