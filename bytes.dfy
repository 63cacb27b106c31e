/**
 * Bytes, fixed-width unsigned integers and little/big-endian layouts.
 * Numbers are unbounded in Dafny; the widths the program relies on are
 * subset types here.
 */
module Bytes {

  type byte = x: int | 0 <= x < 256

  const U32_LIMIT: nat := 0x1_0000_0000
  const U32_MAX: nat := 0xFFFF_FFFF

  /** Rust's `u32`. */
  type u32 = x: int | 0 <= x < 0x1_0000_0000

  /** A 32-byte digest (sha256d output, block hash, merkle node). */
  type Hash32 = s: seq<byte> | |s| == 32 witness seq(32, _ => 0)

  /** The all-zero digest (`all_zeros()`). */
  const ZERO_HASH: Hash32 :=
    [0, 0, 0, 0, 0, 0, 0, 0, 0, 0, 0, 0, 0, 0, 0, 0,
     0, 0, 0, 0, 0, 0, 0, 0, 0, 0, 0, 0, 0, 0, 0, 0]

  function Pow256(k: nat): (r: nat)
    ensures r > 0
  {
    if k == 0 then 1 else 256 * Pow256(k - 1)
  }

  /** The number whose little-endian base-256 digits are `bs`. */
  function LeValue(bs: seq<byte>): nat
  {
    if bs == [] then 0 else bs[0] + 256 * LeValue(bs[1..])
  }

  /** The `k` least significant base-256 digits of `n`, least significant first. */
  function LeBytes(n: nat, k: nat): (r: seq<byte>)
    ensures |r| == k
  {
    if k == 0 then [] else [n % 256] + LeBytes(n / 256, k - 1)
  }

  lemma {:induction false} LeValueBound(bs: seq<byte>)
    ensures LeValue(bs) < Pow256(|bs|)
  {
    if bs != [] {
      LeValueBound(bs[1..]);
    }
  }

  /** Writing `n` in `k` little-endian bytes and reading them back gives `n`. */
  lemma {:induction false} LeValueOfLeBytes(n: nat, k: nat)
    requires n < Pow256(k)
    ensures LeValue(LeBytes(n, k)) == n
  {
    if k > 0 {
      LeValueOfLeBytes(n / 256, k - 1);
      assert LeBytes(n, k)[1..] == LeBytes(n / 256, k - 1);
    }
  }

  /** Reading `bs` and writing the value back in |bs| bytes gives `bs`. */
  lemma {:induction false} LeBytesOfLeValue(bs: seq<byte>)
    ensures LeBytes(LeValue(bs), |bs|) == bs
  {
    if bs != [] {
      var v := LeValue(bs);
      assert v == bs[0] + 256 * LeValue(bs[1..]);
      assert v % 256 == bs[0];
      assert v / 256 == LeValue(bs[1..]);
      LeBytesOfLeValue(bs[1..]);
    }
  }

  /** `n.to_le_bytes()` for a `u32`. */
  function Le32(n: u32): (r: seq<byte>)
    ensures |r| == 4
  {
    LeBytes(n, 4)
  }

  /** `n.to_be_bytes()` for a `u32`: the little-endian bytes in reverse order. */
  function Be32(n: u32): (r: seq<byte>)
    ensures |r| == 4
  {
    var le := Le32(n);
    [le[3], le[2], le[1], le[0]]
  }

  /** `u32::from_le_bytes` on four bytes. */
  function ReadLe32(bs: seq<byte>): (r: u32)
    requires |bs| == 4
  {
    LeValueBound(bs);
    LeValue(bs)
  }

  /** The `u32` whose little-endian bytes are the big-endian bytes of `n`. */
  function ByteSwap32(n: u32): u32
  {
    ReadLe32(Be32(n))
  }

  lemma Le32RoundTrip(n: u32)
    ensures ReadLe32(Le32(n)) == n
  {
    LeValueOfLeBytes(n, 4);
  }

  lemma ReadLe32RoundTrip(bs: seq<byte>)
    requires |bs| == 4
    ensures Le32(ReadLe32(bs)) == bs
  {
    LeBytesOfLeValue(bs);
  }

  /** The little-endian bytes of the swapped value are the big-endian bytes. */
  lemma ByteSwapLayout(n: u32)
    ensures Le32(ByteSwap32(n)) == Be32(n)
  {
    ReadLe32RoundTrip(Be32(n));
  }

  /** Swapping twice restores the value, so the swap is a bijection on `u32`. */
  lemma ByteSwapInvolutive(n: u32)
    ensures ByteSwap32(ByteSwap32(n)) == n
  {
    ByteSwapLayout(n);
    var s := ByteSwap32(n);
    ByteSwapLayout(s);
    assert Be32(s) == Le32(n);
    Le32RoundTrip(n);
  }

  /** Zero has all-zero bytes in either order. */
  lemma ZeroBytes()
    ensures Le32(0) == [0, 0, 0, 0] && Be32(0) == [0, 0, 0, 0] && ByteSwap32(0) == 0
  {
  }

  function HexDigit(d: nat): char
    requires d < 16
  {
    "0123456789abcdef"[d]
  }

  /** `to_lower_hex_string`: two lower-case hex digits per byte, high nibble first. */
  function LowerHex(bs: seq<byte>): (r: string)
    ensures |r| == 2 * |bs|
  {
    if bs == [] then "" else [HexDigit(bs[0] / 16), HexDigit(bs[0] % 16)] + LowerHex(bs[1..])
  }

  /** Characters `2i` and `2i + 1` are the high and the low nibble of byte `i`. */
  lemma {:induction false} LowerHexDigits(bs: seq<byte>)
    ensures var r := LowerHex(bs);
      forall i :: 0 <= i < |bs| ==> r[2 * i] == HexDigit(bs[i] / 16) && r[2 * i + 1] == HexDigit(bs[i] % 16)
  {
    if bs != [] {
      var rest := LowerHex(bs[1..]);
      LowerHexDigits(bs[1..]);
      var r := LowerHex(bs);
      assert forall i :: 1 <= i < |bs| ==> r[2 * i] == rest[2 * (i - 1)] && r[2 * i + 1] == rest[2 * (i - 1) + 1];
    }
  }
}
