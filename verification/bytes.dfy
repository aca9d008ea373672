/**
 * Byte strings and the fixed-width big-endian integer encodings used on the wire
 * (`to_be_bytes` / `from_be_bytes` for u16, u32, u64 and i64).
 */
module Bytes {

  type uint8 = x: int | 0 <= x < 256
  type uint16 = x: int | 0 <= x < 0x1_0000
  type uint32 = x: int | 0 <= x < 0x1_0000_0000
  type uint64 = x: int | 0 <= x < 0x1_0000_0000_0000_0000
  type int64 = x: int | -0x8000_0000_0000_0000 <= x < 0x8000_0000_0000_0000

  type Bytes = seq<uint8>

  const TWO_64: int := 0x1_0000_0000_0000_0000
  const I64_MIN: int := -0x8000_0000_0000_0000
  const I64_MAX: int := 0x7fff_ffff_ffff_ffff

  // Rust's truncating `as` casts from usize to the fixed-width unsigned types.

  function AsU8(n: nat): (r: uint8)
    ensures n < 256 ==> r == n
  {
    n % 256
  }

  function AsU16(n: nat): (r: uint16)
    ensures n < 0x1_0000 ==> r == n
  {
    n % 0x1_0000
  }

  function AsU32(n: nat): (r: uint32)
    ensures n < 0x1_0000_0000 ==> r == n
  {
    n % 0x1_0000_0000
  }

  /** `usize as i64` on a 64-bit target: the low 64 bits read as two's complement. */
  function AsI64(n: nat): (r: int64)
    ensures n <= I64_MAX ==> r == n
  {
    var w := n % TWO_64;
    if w > I64_MAX then w - TWO_64 else w
  }

  /**
   * Two's complement wrap-around of a 64-bit signed sum, as `+=` on an `i64`
   * behaves in a release build: the value modulo 2^64, read back as an `i64`.
   */
  function WrapI64(x: int): (r: int64)
    ensures I64_MIN <= x <= I64_MAX ==> r == x
    ensures x == I64_MAX + 1 ==> r == I64_MIN
    ensures x == I64_MIN - 1 ==> r == I64_MAX
  {
    var w := x % TWO_64;
    if w > I64_MAX then w - TWO_64 else w
  }

  /** Byte strings one after the other. */
  function Concat(parts: seq<Bytes>): Bytes {
    if |parts| == 0 then [] else parts[0] + Concat(parts[1..])
  }

  /** Concatenating two runs of parts is concatenating each run and joining the results. */
  lemma {:induction false} ConcatAppend(a: seq<Bytes>, b: seq<Bytes>)
    ensures Concat(a + b) == Concat(a) + Concat(b)
    decreases |a|
  {
    if |a| == 0 {
      assert a + b == b;
    } else {
      ConcatAppend(a[1..], b);
      assert (a + b)[1..] == a[1..] + b;
    }
  }

  /** 256 to the power `w`: the number of values a `w`-byte field can hold. */
  function Pow256(w: nat): (r: nat)
    ensures r >= 1
  {
    if w == 0 then 1 else 256 * Pow256(w - 1)
  }

  /** The `w`-byte big-endian encoding of `n`. */
  function BE(n: nat, w: nat): (r: Bytes)
    requires n < Pow256(w)
    ensures |r| == w
    decreases w
  {
    if w == 0 then [] else BE(n / 256, w - 1) + [n % 256]
  }

  /** The unsigned number a big-endian byte string denotes. */
  function FromBE(s: Bytes): (r: nat)
    ensures r < Pow256(|s|)
  {
    if |s| == 0 then 0 else FromBE(s[..|s| - 1]) * 256 + s[|s| - 1]
  }

  lemma {:induction false} FromBEOfBE(n: nat, w: nat)
    requires n < Pow256(w)
    ensures FromBE(BE(n, w)) == n
    decreases w
  {
    if w > 0 {
      var s := BE(n, w);
      assert s[..|s| - 1] == BE(n / 256, w - 1);
      FromBEOfBE(n / 256, w - 1);
    }
  }

  lemma {:induction false} BEOfFromBE(s: Bytes)
    ensures BE(FromBE(s), |s|) == s
  {
    if |s| > 0 {
      var p := s[..|s| - 1];
      BEOfFromBE(p);
      assert FromBE(s) / 256 == FromBE(p);
      assert s == p + [s[|s| - 1]];
    }
  }

  /** Two big-endian strings of the same width are equal exactly when their values are. */
  lemma BEInjective(a: Bytes, b: Bytes)
    requires |a| == |b| && FromBE(a) == FromBE(b)
    ensures a == b
  {
    BEOfFromBE(a);
    BEOfFromBE(b);
  }

  /** A big-endian field of zero bytes denotes zero. */
  lemma {:induction false} FromBEZero(s: Bytes)
    requires forall i :: 0 <= i < |s| ==> s[i] == 0
    ensures FromBE(s) == 0
  {
    if |s| > 0 {
      FromBEZero(s[..|s| - 1]);
    }
  }

  /** A big-endian field whose leading bytes are zero denotes its last byte. */
  lemma FromBELastByte(s: Bytes)
    requires |s| > 0 && forall i :: 0 <= i < |s| - 1 ==> s[i] == 0
    ensures FromBE(s) == s[|s| - 1]
  {
    FromBEZero(s[..|s| - 1]);
  }

  function U16BE(n: uint16): (r: Bytes)
    ensures |r| == 2 && FromBE(r) == n
  {
    FromBEOfBE(n, 2);
    BE(n, 2)
  }

  function U32BE(n: uint32): (r: Bytes)
    ensures |r| == 4 && FromBE(r) == n
  {
    FromBEOfBE(n, 4);
    BE(n, 4)
  }

  /** `u16::from_be_bytes` on exactly two bytes. */
  function U16FromBE(s: Bytes): (r: uint16)
    requires |s| == 2
    ensures r == FromBE(s) && U16BE(r) == s
  {
    BEOfFromBE(s);
    FromBE(s)
  }

  /** `u32::from_be_bytes` on exactly four bytes. */
  function U32FromBE(s: Bytes): (r: uint32)
    requires |s| == 4
    ensures r == FromBE(s) && U32BE(r) == s
  {
    BEOfFromBE(s);
    FromBE(s)
  }

  /** `u64::from_be_bytes` on exactly eight bytes. */
  function U64FromBE(s: Bytes): (r: uint64)
    requires |s| == 8
    ensures r == FromBE(s) && BE(r, 8) == s
  {
    BEOfFromBE(s);
    FromBE(s)
  }

  /** `i64::to_be_bytes`: two's complement, most significant byte first. */
  function I64BE(x: int64): (r: Bytes)
    ensures |r| == 8
    ensures FromBE(r) == if x < 0 then x + TWO_64 else x
  {
    var u := if x < 0 then x + TWO_64 else x;
    FromBEOfBE(u, 8);
    BE(u, 8)
  }

  lemma ShiftByte(a: int, p: int, x: int, y: int)
    ensures (a * p + x) * 256 + y == a * (256 * p) + (x * 256 + y)
  {
  }

  /** The first byte of a big-endian number weighs `256^(w-1)`, the rest fill the remainder. */
  lemma {:induction false} FromBEFront(s: Bytes)
    requires |s| > 0
    ensures FromBE(s) == s[0] * Pow256(|s| - 1) + FromBE(s[1..])
    decreases |s|
  {
    if |s| == 1 {
      assert s[..0] == [] && s[1..] == [];
    } else {
      var init := s[..|s| - 1];
      var tail := s[1..];
      FromBEFront(init);
      assert init[0] == s[0];
      assert init[1..] == tail[..|tail| - 1];
      assert tail[|tail| - 1] == s[|s| - 1];
      var a, p, x, y := s[0] as int, Pow256(|s| - 2), FromBE(init[1..]), s[|s| - 1] as int;
      assert FromBE(s) == (a * p + x) * 256 + y;
      assert FromBE(tail) == x * 256 + y;
      assert Pow256(|s| - 1) == 256 * p;
      ShiftByte(a, p, x, y);
    }
  }

  /**
   * `i64::from_be_bytes` on exactly eight bytes: two's complement, so the top bit of
   * the first byte is the sign.
   */
  function I64FromBE(s: Bytes): (r: int64)
    requires |s| == 8
    ensures r < 0 <==> s[0] >= 0x80
    ensures r >= 0 ==> r == FromBE(s)
  {
    FromBEFront(s);
    assert Pow256(7) == 0x0100_0000_0000_0000 by {
      assert Pow256(1) == 256;
      assert Pow256(2) == 0x1_0000;
      assert Pow256(4) == 0x1_0000 * 0x1_0000 by {
        assert Pow256(3) == 256 * 0x1_0000;
      }
    }
    var u := FromBE(s);
    if u > I64_MAX then u - TWO_64 else u
  }

  lemma I64RoundTrip(x: int64)
    ensures I64FromBE(I64BE(x)) == x
  {
  }

  lemma I64RoundTripBytes(s: Bytes)
    requires |s| == 8
    ensures I64BE(I64FromBE(s)) == s
  {
    BEOfFromBE(s);
    BEInjective(I64BE(I64FromBE(s)), s);
  }

  /** Eight zero bytes. */
  lemma BEZeroEight()
    ensures BE(0, 5) == [0, 0, 0, 0, 0] && BE(0, 7) == [0, 0, 0, 0, 0, 0, 0]
  {
    assert BE(0, 1) == [0];
    assert BE(0, 2) == [0, 0];
    assert BE(0, 3) == [0, 0, 0];
    assert BE(0, 4) == [0, 0, 0, 0];
    assert BE(0, 5) == [0, 0, 0, 0, 0];
    assert BE(0, 6) == [0, 0, 0, 0, 0, 0];
  }

  lemma I64MinusSeven()
    ensures I64BE(-7) == [0xff, 0xff, 0xff, 0xff, 0xff, 0xff, 0xff, 0xf9]
  {
    assert BE(0xff, 1) == [0xff];
    assert BE(0xffff, 2) == [0xff, 0xff];
    assert BE(0xff_ffff, 3) == [0xff, 0xff, 0xff];
    assert BE(0xffff_ffff, 4) == [0xff, 0xff, 0xff, 0xff];
    assert BE(0xff_ffff_ffff, 5) == [0xff, 0xff, 0xff, 0xff, 0xff];
    assert BE(0xffff_ffff_ffff, 6) == [0xff, 0xff, 0xff, 0xff, 0xff, 0xff];
    assert BE(0xff_ffff_ffff_ffff, 7) == [0xff, 0xff, 0xff, 0xff, 0xff, 0xff, 0xff];
    assert BE(0xffff_ffff_ffff_fff9, 8) == [0xff, 0xff, 0xff, 0xff, 0xff, 0xff, 0xff, 0xf9];
  }

  lemma I64Positive()
    ensures I64BE(68125) == [0, 0, 0, 0, 0, 1, 10, 29]
    ensures I64BE(7) == [0, 0, 0, 0, 0, 0, 0, 7]
  {
    BEZeroEight();
    assert BE(1, 6) == [0, 0, 0, 0, 0, 1];
    assert BE(0x10a, 7) == [0, 0, 0, 0, 0, 1, 10];
    assert BE(0x1_0a1d, 8) == [0, 0, 0, 0, 0, 1, 10, 29];
    assert BE(7, 8) == [0, 0, 0, 0, 0, 0, 0, 7];
  }

  /** Concrete encodings the source's unit tests fix. */
  lemma I64Examples()
    ensures I64BE(-7) == [0xff, 0xff, 0xff, 0xff, 0xff, 0xff, 0xff, 0xf9]
    ensures I64BE(68125) == [0, 0, 0, 0, 0, 1, 10, 29]
    ensures I64BE(7) == [0, 0, 0, 0, 0, 0, 0, 7]
  {
    I64MinusSeven();
    I64Positive();
  }
}
