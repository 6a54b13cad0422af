/** Bytes, fixed-width little-endian integers and two's complement, as the Go
    encoding/binary package and Go's sized integers give them. */
module Words {
  type Byte = b: int | 0 <= b < 256
  type Int32 = v: int | -0x8000_0000 <= v < 0x8000_0000
  type Int64 = v: int | -0x8000_0000_0000_0000 <= v < 0x8000_0000_0000_0000

  function Pow2(n: nat): (p: nat)
    ensures p > n
  {
    if n == 0 then 1 else 2 * Pow2(n - 1)
  }

  function Pow256(n: nat): (p: nat)
    ensures p > 0
  {
    if n == 0 then 1 else 256 * Pow256(n - 1)
  }

  /** The n low-order bytes of v, least significant first. */
  function Le(n: nat, v: nat): (s: seq<Byte>)
    ensures |s| == n
  {
    if n == 0 then [] else [v % 256] + Le(n - 1, v / 256)
  }

  function LeValue(s: seq<Byte>): (v: nat)
    ensures v < Pow256(|s|)
  {
    if s == [] then 0 else s[0] + 256 * LeValue(s[1..])
  }

  lemma {:induction false} LeRoundTrip(n: nat, v: nat)
    requires v < Pow256(n)
    ensures LeValue(Le(n, v)) == v
  {
    if n > 0 {
      LeRoundTrip(n - 1, v / 256);
      assert Le(n, v)[1..] == Le(n - 1, v / 256);
    }
  }

  lemma {:induction false} LeInverse(s: seq<Byte>)
    ensures Le(|s|, LeValue(s)) == s
  {
    if s != [] {
      LeInverse(s[1..]);
      assert s == [s[0]] + s[1..];
    }
  }

  lemma Pow256Values()
    ensures Pow256(1) == 0x100 && Pow256(2) == 0x1_0000 && Pow256(3) == 0x100_0000
    ensures Pow256(4) == 0x1_0000_0000 && Pow256(8) == 0x1_0000_0000_0000_0000
  {
    assert Pow256(4) == 0x1_0000_0000;
    assert Pow256(8) == 0x1_0000_0000 * 0x1_0000_0000;
  }

  /** The bytes of the widths that the server uses, least significant first. */
  lemma Bytes2(v: nat)
    ensures Le(2, v) == [v % 256, v / 256 % 256]
  {
    assert Le(2, v) == [v % 256] + Le(1, v / 256);
    assert Le(1, v / 256) == [v / 256 % 256] + Le(0, v / 256 / 256);
  }

  lemma Bytes4(v: nat)
    ensures Le(4, v) == [v % 256, v / 0x100 % 256, v / 0x1_0000 % 256, v / 0x100_0000 % 256]
  {
    hide Le;
    LeStep(4, v);
    LeStep(3, v / 256);
    LeStep(2, v / 256 / 256);
    LeStep(1, v / 256 / 256 / 256);
    assert v / 256 / 256 == v / 0x1_0000 && v / 256 / 256 / 256 == v / 0x100_0000;
    assert Le(0, v / 256 / 256 / 256 / 256) == [];
  }

  lemma LeStep(n: nat, v: nat)
    requires n > 0
    ensures Le(n, v) == [v % 256] + Le(n - 1, v / 256)
  {
  }

  lemma Bytes8(v: nat)
    ensures Le(8, v) ==
            [v % 256, v / 0x100 % 256, v / 0x1_0000 % 256, v / 0x100_0000 % 256,
             v / 0x1_0000_0000 % 256, v / 0x100_0000_0000 % 256,
             v / 0x1_0000_0000_0000 % 256, v / 0x100_0000_0000_0000 % 256]
  {
    hide Le;
    var high := v / 0x1_0000_0000;
    LeSplit(v);
    Bytes4(v);
    Bytes4(high);
    assert high / 0x100 == v / 0x100_0000_0000 && high / 0x1_0000 == v / 0x1_0000_0000_0000;
    assert high / 0x100_0000 == v / 0x100_0000_0000_0000;
  }

  lemma LeSplit(v: nat)
    ensures Le(8, v) == Le(4, v) + Le(4, v / 0x1_0000_0000)
  {
    hide Le;
    LeStep(8, v);
    LeStep(7, v / 256);
    LeStep(6, v / 256 / 256);
    LeStep(5, v / 256 / 256 / 256);
    LeStep(4, v);
    LeStep(3, v / 256);
    LeStep(2, v / 256 / 256);
    LeStep(1, v / 256 / 256 / 256);
    assert v / 256 / 256 / 256 / 256 == v / 0x1_0000_0000;
    assert Le(0, v / 256 / 256 / 256 / 256) == [];
  }

  /** The values of those widths, read back. */
  lemma Value2(s: seq<Byte>)
    requires |s| == 2
    ensures var a: int, b: int := s[0], s[1]; LeValue(s) == a + 256 * b
  {
    assert s[1..][1..] == [];
  }

  lemma Value4(s: seq<Byte>)
    requires |s| == 4
    ensures var a: int, b: int, c: int, d: int := s[0], s[1], s[2], s[3];
            LeValue(s) == a + 0x100 * b + 0x1_0000 * c + 0x100_0000 * d
  {
    Value2(s[2..]);
    assert s[1..][1..] == s[2..];
  }

  /** Go's conversion uint64(t) of a signed 64-bit value. */
  function Unsigned64(t: Int64): (u: nat)
    ensures u < 0x1_0000_0000_0000_0000
  {
    if t < 0 then t + 0x1_0000_0000_0000_0000 else t
  }

  /** Go's conversion int64(u) of an unsigned 64-bit value. */
  function Signed64(u: nat): (t: Int64)
    requires u < 0x1_0000_0000_0000_0000
    ensures Unsigned64(t) == u
  {
    if u < 0x8000_0000_0000_0000 then u else u - 0x1_0000_0000_0000_0000
  }

  function Unsigned32(v: Int32): (u: nat)
    ensures u < 0x1_0000_0000
  {
    if v < 0 then v + 0x1_0000_0000 else v
  }

  function Signed32(u: nat): (v: Int32)
    requires u < 0x1_0000_0000
    ensures Unsigned32(v) == u
  {
    if u < 0x8000_0000 then u else u - 0x1_0000_0000
  }

  /** Adding a multiple of 256 * d does not change the byte above d. */
  lemma SameByte(t: int, d: nat, m: nat)
    requires d > 0
    ensures (t + d * (256 * m)) / d % 256 == t / d % 256
  {
    DivideShift(t, d, 256 * m);
    assert (t / d + 256 * m) % 256 == t / d % 256;
  }

  lemma DivideShift(t: int, d: nat, x: nat)
    requires d > 0
    ensures (t + d * x) / d == t / d + x
  {
    var q, r := t / d, t % d;
    assert t == d * q + r;
    assert t + d * x == d * (q + x) + r by {
      assert d * (q + x) == d * q + d * x;
    }
    QuotientOf(t + d * x, d, q + x, r);
  }

  lemma QuotientOf(a: int, d: nat, q: int, r: nat)
    requires d > 0 && r < d && a == d * q + r
    ensures a / d == q
  {
    var k, e: int := a / d - q, d;
    assert a == d * (a / d) + a % d;
    assert d * k == d * (a / d) - d * q;
    assert k >= 1 ==> d * k >= d;
    assert k <= -1 ==> d * k <= -e;
  }

  /** The bytes of signed values: floor division makes them two's complement. */
  lemma SignedBytes8(t: Int64)
    ensures var v: int := t;
            Le(8, Unsigned64(t)) ==
            [v % 256, v / 0x100 % 256, v / 0x1_0000 % 256, v / 0x100_0000 % 256,
             v / 0x1_0000_0000 % 256, v / 0x100_0000_0000 % 256,
             v / 0x1_0000_0000_0000 % 256, v / 0x100_0000_0000_0000 % 256]
  {
    hide Le;
    var v: int := t;
    Bytes8(Unsigned64(t));
    SameByte(v, 1, 0x100_0000_0000_0000);
    SameByte(v, 0x100, 0x1_0000_0000_0000);
    SameByte(v, 0x1_0000, 0x100_0000_0000);
    SameByte(v, 0x100_0000, 0x1_0000_0000);
    SameByte(v, 0x1_0000_0000, 0x100_0000);
    SameByte(v, 0x100_0000_0000, 0x1_0000);
    SameByte(v, 0x1_0000_0000_0000, 0x100);
    SameByte(v, 0x100_0000_0000_0000, 1);
  }

  lemma SignedBytes4(w: Int32)
    ensures var v: int := w;
            Le(4, Unsigned32(w)) == [v % 256, v / 0x100 % 256, v / 0x1_0000 % 256, v / 0x100_0000 % 256]
  {
    hide Le;
    var v: int := w;
    Bytes4(Unsigned32(w));
    SameByte(v, 1, 0x100_0000);
    SameByte(v, 0x100, 0x1_0000);
    SameByte(v, 0x1_0000, 0x100);
    SameByte(v, 0x100_0000, 1);
  }

  /** The three bytes are placed in the top of a 32-bit word, which is then
      reinterpreted as signed and shifted right arithmetically by eight bits. */
  function Int24(s: seq<Byte>): (v: Int32)
    requires |s| == 3
    ensures -0x80_0000 <= v < 0x80_0000
  {
    var b0: int, b1: int, b2: int := s[0], s[1], s[2];
    Signed32(256 * (b0 + 256 * b1 + 0x1_0000 * b2)) / 256
  }

  /** A signed 24-bit value as three little-endian bytes. */
  function Int24Bytes(v: int): (s: seq<Byte>)
    requires -0x80_0000 <= v < 0x80_0000
    ensures |s| == 3
  {
    Le(3, if v < 0 then v + 0x100_0000 else v)
  }

  lemma Le3(u: nat)
    ensures Le(3, u) == [u % 256, u / 256 % 256, u / 256 / 256 % 256]
  {
    assert Le(3, u) == [u % 256] + ([u / 256 % 256] + Le(1, u / 256 / 256));
  }

  /** What the three bytes mean: little-endian, the top bit of the last one
      counting negative. */
  lemma Int24Means(s: seq<Byte>)
    requires |s| == 3
    ensures var a: int, b: int, c: int := s[0], s[1], s[2];
            Int24(s) == a + 0x100 * b + 0x1_0000 * (if c < 128 then c else c - 256)
  {
    var a: int, b: int, c: int := s[0], s[1], s[2];
    var u := a + 256 * b + 0x1_0000 * c;
    assert (256 * u - 0x1_0000_0000) / 256 == u - 0x100_0000;
  }

  /** Sign extension recovers every signed 24-bit value. */
  lemma Int24RoundTrip(v: int)
    requires -0x80_0000 <= v < 0x80_0000
    ensures Int24(Int24Bytes(v)) == v
  {
    var u := if v < 0 then v + 0x100_0000 else v;
    Le3(u);
    assert u == u % 256 + 256 * (u / 256 % 256) + 0x1_0000 * (u / 256 / 256 % 256);
  }

  /** Conversely every three bytes are the encoding of the value read from them. */
  lemma Int24Inverse(s: seq<Byte>)
    requires |s| == 3
    ensures Int24Bytes(Int24(s)) == s
  {
    var b0: int, b1: int, b2: int := s[0], s[1], s[2];
    var u := b0 + 256 * b1 + 0x1_0000 * b2;
    Le3(u);
    assert u % 256 == b0 && u / 256 == b1 + 256 * b2;
    assert (256 * u - 0x1_0000_0000) / 256 == u - 0x100_0000;
  }

  // ---- parts of sequences ----

  lemma Slice<T>(s: seq<T>, a: nat, b: nat, i: nat, j: nat)
    requires i <= j <= b - a && b <= |s|
    ensures s[a..b][i..j] == s[a + i..a + j]
  {
    forall k | 0 <= k < j - i
      ensures s[a..b][i..j][k] == s[a + i..a + j][k]
    {
    }
  }

  lemma Parts<T>(a: seq<T>, b: seq<T>, c: seq<T>)
    ensures var s := a + b + c;
            s[0..|a|] == a && s[|a|..|a| + |b|] == b && s[|a| + |b|..|a| + |b| + |c|] == c
  {
    var s := a + b + c;
    forall k | 0 <= k < |b|
      ensures s[|a|..|a| + |b|][k] == b[k]
    {
    }
    forall k | 0 <= k < |c|
      ensures s[|a| + |b|..|a| + |b| + |c|][k] == c[k]
    {
    }
  }
}
