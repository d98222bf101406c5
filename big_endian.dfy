/**
 * Bytes and fixed-width big-endian integers, the byte order every multi-byte
 * integer of the wire format uses.
 */
module BigEndian {

  type byte = x: int | 0 <= x < 256

  /** 256^n */
  function Pow256(n: nat): (r: nat)
    ensures r >= 1
  {
    if n == 0 then 1 else 256 * Pow256(n - 1)
  }

  const TWO_8: nat := 0x100
  const TWO_16: nat := 0x1_0000
  const TWO_32: nat := 0x1_0000_0000
  const TWO_64: nat := 0x1_0000_0000_0000_0000

  lemma PowFacts()
    ensures Pow256(2) == TWO_16 && Pow256(4) == TWO_32 && Pow256(8) == TWO_64
  {
    assert Pow256(1) == 256;
    assert Pow256(2) == 256 * 256;
    assert Pow256(4) == 256 * 256 * Pow256(2);
    assert Pow256(8) == 256 * 256 * 256 * 256 * Pow256(4);
  }

  /** The C# integer types short, int and long as ranges of int. */
  type int16 = x: int | -0x8000 <= x < 0x8000
  type int32 = x: int | -0x8000_0000 <= x < 0x8000_0000
  type int64 = x: int | -0x8000_0000_0000_0000 <= x < 0x8000_0000_0000_0000

  const INT32_MAX: int := 0x7fff_ffff

  /** The n low-order bytes of u, most significant first. */
  function ToBytes(u: nat, n: nat): (r: seq<byte>)
    ensures |r| == n
  {
    if n == 0 then [] else ToBytes(u / 256, n - 1) + [u % 256]
  }

  /** The unsigned value of a big-endian byte string. */
  function FromBytes(s: seq<byte>): nat
  {
    if s == [] then 0 else FromBytes(s[..|s| - 1]) * 256 + s[|s| - 1]
  }

  lemma {:induction false} FromBytesBound(s: seq<byte>)
    ensures FromBytes(s) < Pow256(|s|)
  {
    if s != [] {
      FromBytesBound(s[..|s| - 1]);
    }
  }

  /** Decoding the n bytes of a value below 256^n gives the value back. */
  lemma {:induction false} FromToBytes(u: nat, n: nat)
    requires u < Pow256(n)
    ensures FromBytes(ToBytes(u, n)) == u
  {
    if n > 0 {
      var s := ToBytes(u, n);
      assert s[..n - 1] == ToBytes(u / 256, n - 1);
      FromToBytes(u / 256, n - 1);
    }
  }

  /** The most significant byte comes first. */
  lemma {:induction false} ToBytesFirst(u: nat, n: nat)
    requires 0 < n && u < Pow256(n)
    ensures ToBytes(u, n)[0] == u / Pow256(n - 1)
  {
    if n > 1 {
      ToBytesFirst(u / 256, n - 1);
      var p := Pow256(n - 2);
      assert ToBytes(u, n)[0] == (u / 256) / p;
      DivDiv(u, 256, p);
    }
  }

  lemma DivDiv(u: nat, a: nat, b: nat)
    requires 0 < a && 0 < b
    ensures u / a / b == u / (a * b)
  {
    var q := u / a / b;
    var r := (u / a) % b;
    var s := u % a;
    assert u == a * (u / a) + s;
    assert u / a == b * q + r;
    assert u == (a * b) * q + (a * r + s) by {
      assert a * (b * q + r) == (a * b) * q + a * r;
    }
    assert 0 <= a * r + s < a * b by {
      assert a * r <= a * (b - 1);
    }
    DivUnique(u, a * b, q, a * r + s);
  }

  lemma DivUnique(x: nat, d: nat, q: nat, m: nat)
    requires 0 < d && x == d * q + m && m < d
    ensures x / d == q
  {
    var q' := x / d;
    assert x == d * q' + x % d;
    assert d * (q' - q) == m - x % d;
    if q' != q {
      MulAtLeast(d, q' - q);
    }
  }

  lemma MulAtLeast(d: int, k: int)
    requires 0 < d && k != 0
    ensures d * k >= d || d * k <= -d
  {
  }

  /** Two's complement encoding of a signed value in n bytes. */
  function Signed(v: int, n: nat): (r: seq<byte>)
    requires 0 < n && 0 <= v + Pow256(n)
  {
    ToBytes(if v < 0 then v + Pow256(n) else v, n)
  }

  /** Two's complement decoding of a big-endian byte string. */
  function FromSigned(s: seq<byte>): int
    requires 0 < |s|
  {
    var u := FromBytes(s);
    if u >= 128 * Pow256(|s| - 1) then u - Pow256(|s|) else u
  }

  /** Decoding an n-byte two's complement encoding gives the signed value back. */
  lemma SignedRoundTrip(v: int, n: nat)
    requires 0 < n && -128 * Pow256(n - 1) <= v < 128 * Pow256(n - 1)
    ensures |Signed(v, n)| == n
    ensures FromSigned(Signed(v, n)) == v
  {
    var u := if v < 0 then v + Pow256(n) else v;
    FromToBytes(u, n);
  }

  function Int16Bytes(v: int16): (r: seq<byte>) { Signed(v, 2) }
  function Int32Bytes(v: int32): (r: seq<byte>) { Signed(v, 4) }
  function Int64Bytes(v: int64): (r: seq<byte>) { Signed(v, 8) }

  /** Each width emits exactly its number of bytes and decodes back to the value. */
  lemma Int16RoundTrip(v: int16)
    ensures |Int16Bytes(v)| == 2 && FromSigned(Int16Bytes(v)) == v
  {
    PowFacts();
    SignedRoundTrip(v, 2);
  }

  lemma Int32RoundTrip(v: int32)
    ensures |Int32Bytes(v)| == 4 && FromSigned(Int32Bytes(v)) == v
  {
    PowFacts();
    assert Pow256(3) * 256 == Pow256(4);
    SignedRoundTrip(v, 4);
  }

  lemma Int64RoundTrip(v: int64)
    ensures |Int64Bytes(v)| == 8 && FromSigned(Int64Bytes(v)) == v
  {
    PowFacts();
    assert Pow256(7) * 256 == Pow256(8);
    SignedRoundTrip(v, 8);
  }

  /** For a non-negative value the first byte is the value's top byte. */
  lemma Int32MostSignificantFirst(v: int32)
    requires v >= 0
    ensures Int32Bytes(v)[0] == v / 0x100_0000
  {
    PowFacts();
    assert Pow256(3) == 0x100_0000;
    ToBytesFirst(v, 4);
  }
}
