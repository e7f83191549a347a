/**
  Fixed-width integers and their little-endian byte form, as produced by
  Rust's `to_le_bytes`.  Every width is an unbounded integer restricted to its
  range, so wrap-around and two's complement are written out explicitly.
 */
module Bytes {

  newtype u8 = x: int | 0 <= x < 0x100
  newtype u16 = x: int | 0 <= x < 0x1_0000
  newtype u32 = x: int | 0 <= x < 0x1_0000_0000
  newtype u64 = x: int | 0 <= x < 0x1_0000_0000_0000_0000
  newtype i64 = x: int | -0x8000_0000_0000_0000 <= x < 0x8000_0000_0000_0000

  const TWO_TO_THE_64: nat := 0x1_0000_0000_0000_0000

  /** 256 raised to the n-th power: the number of values n bytes can hold. */
  function Pow256(n: nat): (p: nat)
    ensures p > 0
  {
    if n == 0 then 1 else 256 * Pow256(n - 1)
  }

  /**
    The n low-order bytes of x, least significant first.  Bytes beyond the
    n-th are dropped, so this is also the encoding of x modulo 256^n.
   */
  function LeBytes(x: nat, n: nat): (r: seq<u8>)
    ensures |r| == n
  {
    if n == 0 then [] else [(x % 256) as u8] + LeBytes(x / 256, n - 1)
  }

  /** The unsigned number whose little-endian form is bs. */
  function FromLe(bs: seq<u8>): nat
  {
    if bs == [] then 0 else bs[0] as nat + 256 * FromLe(bs[1..])
  }

  lemma {:induction false} LeBytesRoundTrip(x: nat, n: nat)
    requires x < Pow256(n)
    ensures FromLe(LeBytes(x, n)) == x
  {
    if n > 0 {
      assert x / 256 < Pow256(n - 1);
      LeBytesRoundTrip(x / 256, n - 1);
      assert LeBytes(x, n)[1..] == LeBytes(x / 256, n - 1);
    }
  }

  /** Two equal-width encodings of in-range numbers agree only for equal numbers. */
  lemma LeBytesInjective(x: nat, y: nat, n: nat)
    requires x < Pow256(n) && y < Pow256(n)
    requires LeBytes(x, n) == LeBytes(y, n)
    ensures x == y
  {
    LeBytesRoundTrip(x, n);
    LeBytesRoundTrip(y, n);
  }

  lemma Pow256Of8()
    ensures Pow256(8) == TWO_TO_THE_64
  {
  }

  /** `u64::to_le_bytes`: exactly eight bytes from which the value is recovered. */
  function U64ToLe(x: u64): (r: seq<u8>)
    ensures |r| == 8 && FromLe(r) == x as nat
  {
    Pow256Of8();
    LeBytesRoundTrip(x as nat, 8);
    LeBytes(x as nat, 8)
  }

  /** Two's complement reading of eight little-endian bytes, as `i64::from_le_bytes`. */
  function I64FromLe(bs: seq<u8>): int
  {
    var u := FromLe(bs);
    if u >= 0x8000_0000_0000_0000 then u - TWO_TO_THE_64 else u
  }

  /** `i64::to_le_bytes`: the eight bytes of the two's-complement bit pattern. */
  function I64ToLe(x: i64): (r: seq<u8>)
    ensures |r| == 8 && I64FromLe(r) == x as int
  {
    var pattern: nat := if x < 0 then x as int + TWO_TO_THE_64 else x as int;
    Pow256Of8();
    LeBytesRoundTrip(pattern, 8);
    LeBytes(pattern, 8)
  }

  /**
    `(n as u64).to_le_bytes()` for a collection length n: the cast keeps n
    modulo 2^64 (lossless for every length a 64-bit target can hold).
   */
  function LenToLe(n: nat): (r: seq<u8>)
    ensures |r| == 8
    ensures n < TWO_TO_THE_64 ==> FromLe(r) == n
  {
    U64ToLe((n % TWO_TO_THE_64) as u64)
  }
}
