/** Bytes and the JVM's fixed-width integers.  Kotlin's `Int` and `Long` are
    modelled as mathematical integers inside their ranges; the wrap-around of
    32- and 64-bit two's-complement arithmetic is written out with `ToInt32` and
    `ToInt64` wherever the source can overflow. */
module Bytes {

  /** An unsigned byte.  Kotlin's signed `Byte` is recovered with `Signed8`. */
  type byte = x: int | 0 <= x < 256

  type int32 = x: int | -0x8000_0000 <= x < 0x8000_0000
  type int64 = x: int | -0x8000_0000_0000_0000 <= x < 0x8000_0000_0000_0000
  type uint32 = x: int | 0 <= x < 0x1_0000_0000

  const INT32_MAX: int := 0x7FFF_FFFF
  const TWO_31: int := 0x8000_0000
  const TWO_32: int := 0x1_0000_0000
  const TWO_63: int := 0x8000_0000_0000_0000
  const TWO_64: int := 0x1_0000_0000_0000_0000

  /** Two's-complement truncation to 32 bits (Kotlin `Long.toInt()`, Int overflow). */
  function ToInt32(x: int): (r: int32)
    ensures (r - x) % TWO_32 == 0
    ensures -TWO_31 <= x < TWO_31 ==> r == x
  {
    ((x + TWO_31) % TWO_32) - TWO_31
  }

  /** Two's-complement truncation to 64 bits. */
  function ToInt64(x: int): (r: int64)
    ensures (r - x) % TWO_64 == 0
    ensures -TWO_63 <= x < TWO_63 ==> r == x
  {
    ((x + TWO_63) % TWO_64) - TWO_63
  }

  /** Kotlin's `Byte.toInt()`: the signed value of a byte. */
  function Signed8(b: byte): (r: int)
    ensures -128 <= r < 128 && (r - b) % 256 == 0
  {
    if b < 128 then b else b - 256
  }

  /** Kotlin's integer division, which truncates toward zero. */
  function TruncDiv(a: int, b: int): (r: int)
    requires b > 0
    ensures a >= 0 ==> r == a / b
    ensures a < 0 ==> r == -((-a) / b)
  {
    if a >= 0 then a / b else -((-a) / b)
  }

  function Pow256(n: nat): (r: nat)
    ensures r >= 1
  {
    if n == 0 then 1 else 256 * Pow256(n - 1)
  }

  lemma PowWidths()
    ensures Pow256(2) == 0x1_0000 && Pow256(4) == TWO_32 && Pow256(8) == TWO_64
  {
    assert Pow256(1) == 256;
    assert Pow256(2) == 0x1_0000;
    assert Pow256(3) == 0x100_0000;
    assert Pow256(4) == TWO_32;
    assert Pow256(5) == 0x100_0000_0000;
    assert Pow256(6) == 0x1_0000_0000_0000;
    assert Pow256(7) == 0x100_0000_0000_0000;
  }

  /** The unsigned big-endian value of a byte sequence. */
  function BE(s: seq<byte>): (r: nat)
    ensures r < Pow256(|s|)
  {
    if s == [] then 0
    else
      var p := BE(s[..|s| - 1]);
      assert p <= Pow256(|s| - 1) - 1;
      p * 256 + s[|s| - 1]
  }

  /** The `n`-byte big-endian encoding of `v`. */
  function ToBE(v: nat, n: nat): (r: seq<byte>)
    requires v < Pow256(n)
    ensures |r| == n
  {
    if n == 0 then [] else ToBE(v / 256, n - 1) + [v % 256]
  }

  /** The unsigned little-endian value of a byte sequence. */
  function LE(s: seq<byte>): (r: nat)
    ensures r < Pow256(|s|)
  {
    if s == [] then 0
    else
      var p := LE(s[1..]);
      assert p <= Pow256(|s| - 1) - 1;
      s[0] + 256 * p
  }

  /** The `n`-byte little-endian encoding of `v`. */
  function ToLE(v: nat, n: nat): (r: seq<byte>)
    requires v < Pow256(n)
    ensures |r| == n
  {
    if n == 0 then [] else [v % 256] + ToLE(v / 256, n - 1)
  }

  lemma {:induction false} BEOfToBE(v: nat, n: nat)
    requires v < Pow256(n)
    ensures BE(ToBE(v, n)) == v
  {
    if n > 0 {
      BEOfToBE(v / 256, n - 1);
      var s := ToBE(v, n);
      assert s[..n - 1] == ToBE(v / 256, n - 1);
    }
  }

  lemma {:induction false} LEOfToLE(v: nat, n: nat)
    requires v < Pow256(n)
    ensures LE(ToLE(v, n)) == v
  {
    if n > 0 {
      LEOfToLE(v / 256, n - 1);
      var s := ToLE(v, n);
      assert s[1..] == ToLE(v / 256, n - 1);
    }
  }

  /** `ByteBuffer.getInt` in big-endian order. */
  function Int32BE(s: seq<byte>): int32
    requires |s| == 4
  {
    ToInt32(BE(s))
  }

  /** `ByteBuffer.getInt` in little-endian order. */
  function Int32LE(s: seq<byte>): int32
    requires |s| == 4
  {
    ToInt32(LE(s))
  }

  /** `ByteBuffer.getLong` in big-endian order. */
  function Int64BE(s: seq<byte>): int64
    requires |s| == 8
  {
    ToInt64(BE(s))
  }

  /** `ByteBuffer.putInt` in big-endian order (two's complement). */
  function Int32ToBE(v: int): (r: seq<byte>)
    ensures |r| == 4
  {
    PowWidths();
    ToBE(v % TWO_32, 4)
  }

  /** `ByteBuffer.putInt` in little-endian order (two's complement). */
  function Int32ToLE(v: int): (r: seq<byte>)
    ensures |r| == 4
  {
    PowWidths();
    ToLE(v % TWO_32, 4)
  }

  /** `ByteBuffer.putLong` in big-endian order (two's complement). */
  function Int64ToBE(v: int): (r: seq<byte>)
    ensures |r| == 8
  {
    PowWidths();
    ToBE(v % TWO_64, 8)
  }

  /** Adding a multiple of 2^32 does not change the truncation to 32 bits. */
  lemma ToInt32Periodic(m: int, q: int)
    ensures ToInt32(m + q * TWO_32) == ToInt32(m)
  {
    var x := m + TWO_31;
    var r, p := x % TWO_32, x / TWO_32;
    assert x == p * TWO_32 + r;
    assert x + q * TWO_32 == (p + q) * TWO_32 + r;
  }

  /** Adding a multiple of 2^64 does not change the truncation to 64 bits. */
  lemma ToInt64Periodic(m: int, q: int)
    ensures ToInt64(m + q * TWO_64) == ToInt64(m)
  {
    var x := m + TWO_63;
    var r, p := x % TWO_64, x / TWO_64;
    assert x == p * TWO_64 + r;
    assert x + q * TWO_64 == (p + q) * TWO_64 + r;
  }

  /** Wrapping an intermediate sum does not change the wrapped total: Kotlin
      `Int` additions can be truncated step by step or once at the end. */
  lemma ToInt32AddWrap(a: int, b: int)
    ensures ToInt32(ToInt32(a) + b) == ToInt32(a + b)
  {
    var k := (ToInt32(a) - a) / TWO_32;
    assert ToInt32(a) == a + k * TWO_32;
    ToInt32Periodic(a + b, k);
  }

  /** The same for Kotlin `Long` additions. */
  lemma ToInt64AddWrap(a: int, b: int)
    ensures ToInt64(ToInt64(a) + b) == ToInt64(a + b)
  {
    var k := (ToInt64(a) - a) / TWO_64;
    assert ToInt64(a) == a + k * TWO_64;
    ToInt64Periodic(a + b, k);
  }

  /** `v + 1` on a Kotlin `Long`: `Long.MAX_VALUE` wraps to `Long.MIN_VALUE`. */
  function Inc64(v: int64): int64
  {
    if v == TWO_63 - 1 then -TWO_63 else v + 1
  }

  /** `a - b` on Kotlin `Long`s. */
  function Sub64(a: int64, b: int64): int64
  {
    var d := a - b;
    if d >= TWO_63 then d - TWO_64 else if d < -TWO_63 then d + TWO_64 else d
  }

  /** Both are the 64-bit truncation of the exact result. */
  lemma Long64Wraps(v: int64, a: int64, b: int64)
    ensures Inc64(v) == ToInt64(v + 1)
    ensures Sub64(a, b) == ToInt64(a - b)
  {
    if v == TWO_63 - 1 {
      ToInt64Periodic(-TWO_63, 1);
    }
    var d := a - b;
    if d >= TWO_63 {
      ToInt64Periodic(d - TWO_64, 1);
    } else if d < -TWO_63 {
      ToInt64Periodic(d + TWO_64, -1);
    }
  }

  /** Both operands of a wrapped sum may be wrapped first. */
  lemma ToInt32SumWrap(a: int, b: int)
    ensures ToInt32(ToInt32(a) + ToInt32(b)) == ToInt32(a + b)
  {
    ToInt32AddWrap(a, ToInt32(b));
    ToInt32AddWrap(b, a);
    assert ToInt32(b) + a == a + ToInt32(b) && b + a == a + b;
  }

  lemma ToInt32OfMod(v: int)
    ensures ToInt32(v % TWO_32) == ToInt32(v)
  {
    ToInt32Periodic(v % TWO_32, v / TWO_32);
  }

  lemma ToInt64OfMod(v: int)
    ensures ToInt64(v % TWO_64) == ToInt64(v)
  {
    ToInt64Periodic(v % TWO_64, v / TWO_64);
  }

  /** putInt followed by getInt gives back the value, truncated to 32 bits. */
  lemma Int32BERoundTrip(v: int)
    ensures Int32BE(Int32ToBE(v)) == ToInt32(v)
  {
    PowWidths();
    var m := v % TWO_32;
    BEOfToBE(m, 4);
    ToInt32OfMod(v);
  }

  /** Little-endian putInt followed by getInt gives back the value. */
  lemma Int32LERoundTrip(v: int)
    ensures Int32LE(Int32ToLE(v)) == ToInt32(v)
  {
    PowWidths();
    var m := v % TWO_32;
    LEOfToLE(m, 4);
    ToInt32OfMod(v);
  }

  /** putLong followed by getLong gives back the value, truncated to 64 bits. */
  lemma Int64BERoundTrip(v: int)
    ensures Int64BE(Int64ToBE(v)) == ToInt64(v)
  {
    PowWidths();
    var m := v % TWO_64;
    BEOfToBE(m, 8);
    ToInt64OfMod(v);
  }

  /** `ByteArray(n)`: `n` zero bytes. */
  function Zeros(n: nat): (r: seq<byte>)
    ensures |r| == n && forall i :: 0 <= i < n ==> r[i] == 0
  {
    seq(n, _ => 0)
  }

  /** `s.toByteArray()` for a string of ASCII characters. */
  function Ascii(s: string): (r: seq<byte>)
    requires forall i :: 0 <= i < |s| ==> s[i] as int < 128
    ensures |r| == |s| && forall i :: 0 <= i < |s| ==> r[i] == s[i] as int
  {
    seq(|s|, i requires 0 <= i < |s| => s[i] as int)
  }
}
