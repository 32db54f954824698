/** Fixed-width machine integers and their little-endian byte encodings,
    as WebAssembly (wasm32) lays them out in linear memory. */
module Words {

  type u8 = x: int | 0 <= x < 0x100
  type u16 = x: int | 0 <= x < 0x1_0000
  type u32 = x: int | 0 <= x < 0x1_0000_0000
  type u64 = x: int | 0 <= x < 0x1_0000_0000_0000_0000
  type i32 = x: int | -0x8000_0000 <= x < 0x8000_0000
  type i64 = x: int | -0x8000_0000_0000_0000 <= x < 0x8000_0000_0000_0000

  const U32_MODULUS: nat := 0x1_0000_0000

  /** Unsigned 32-bit wrap-around, as Rust's `+` on `u32` behaves in a
      release build (no overflow checks). */
  function Wrap32(x: int): (r: u32)
    ensures 0 <= x < U32_MODULUS ==> r == x
    ensures U32_MODULUS <= x < 2 * U32_MODULUS ==> r == x - U32_MODULUS
  {
    x % U32_MODULUS
  }

  /** `a + b` on two u32 values in a release build: the sum, less 2^32
      when it overflows. */
  function AddWrap32(a: u32, b: u32): u32
  {
    if a + b < U32_MODULUS then a + b else a + b - U32_MODULUS
  }

  /** The wrapping add is the sum reduced modulo 2^32; it equals the sum
      exactly when the sum fits. */
  lemma AddWrap32IsModular(a: u32, b: u32)
    ensures AddWrap32(a, b) == Wrap32(a + b) == (a + b) % U32_MODULUS
    ensures AddWrap32(a, b) == a + b <==> a + b < U32_MODULUS
  {
  }

  /** `w as i32`: reinterpret the 32 bits as two's complement. */
  function U32AsI32(w: u32): (r: i32)
    ensures r >= 0 <==> w < 0x8000_0000
    ensures Wrap32(r) == w
  {
    if w < 0x8000_0000 then w else w - U32_MODULUS
  }

  /** `v as u32`: reinterpret the 32 bits of a two's-complement value. */
  function I32AsU32(v: i32): (r: u32)
    ensures U32AsI32(r) == v
    ensures r == Wrap32(v)
  {
    if v < 0 then v + U32_MODULUS else v
  }

  /** 256 to the power n: the number of values n bytes can hold. */
  function Pow256(n: nat): (r: nat)
    ensures r >= 1
  {
    if n == 0 then 1 else 256 * Pow256(n - 1)
  }

  /** The n little-endian bytes of w (low byte first), as `to_le_bytes`
      and unaligned stores on wasm32 produce them. */
  function LeBytes(w: nat, n: nat): (bs: seq<u8>)
    ensures |bs| == n
  {
    if n == 0 then [] else [w % 256] + LeBytes(w / 256, n - 1)
  }

  /** The unsigned value of little-endian bytes (low byte first). */
  function LeValue(bs: seq<u8>): nat
  {
    if bs == [] then 0 else bs[0] + 256 * LeValue(bs[1..])
  }

  lemma {:induction false} LeValueBound(bs: seq<u8>)
    ensures LeValue(bs) < Pow256(|bs|)
  {
    if bs != [] {
      LeValueBound(bs[1..]);
    }
  }

  /** Decoding the little-endian bytes of a value that fits gives it back. */
  lemma {:induction false} LeValueOfLeBytes(w: nat, n: nat)
    requires w < Pow256(n)
    ensures LeValue(LeBytes(w, n)) == w
  {
    if n > 0 {
      var rest := LeBytes(w / 256, n - 1);
      assert LeBytes(w, n)[1..] == rest;
      LeValueOfLeBytes(w / 256, n - 1);
    }
  }

  /** Encoding the value of a byte sequence gives the same bytes back. */
  lemma {:induction false} LeBytesOfLeValue(bs: seq<u8>)
    ensures LeBytes(LeValue(bs), |bs|) == bs
  {
    if bs != [] {
      var v := LeValue(bs);
      assert v % 256 == bs[0] && v / 256 == LeValue(bs[1..]);
      LeBytesOfLeValue(bs[1..]);
    }
  }

  /** Two's-complement i32 as its four little-endian bytes (`i32::to_le_bytes`). */
  function I32LeBytes(v: i32): (bs: seq<u8>)
    ensures |bs| == 4
  {
    LeBytes(I32AsU32(v), 4)
  }

  /** `i32::from_le_bytes`. */
  function I32FromLe(bs: seq<u8>): i32
    requires |bs| == 4
  {
    LeValueBound(bs);
    U32AsI32(LeValue(bs))
  }

  lemma I32LeRoundTrip(v: i32)
    ensures I32FromLe(I32LeBytes(v)) == v
  {
    LeValueOfLeBytes(I32AsU32(v), 4);
  }

  /** The signed value of little-endian two's-complement bytes: the
      unsigned value, less 256^n when the top bit of the last byte is set.
      This is how a BigInt buffer is read. */
  function SignedLeValue(bs: seq<u8>): int
  {
    if 2 * LeValue(bs) >= Pow256(|bs|) then LeValue(bs) - Pow256(|bs|) else LeValue(bs)
  }

  /** The four bytes of an i32 read as a signed number give the i32. */
  lemma SignedI32LeBytes(v: i32)
    ensures SignedLeValue(I32LeBytes(v)) == v
  {
    assert Pow256(4) == 0x1_0000_0000;
    LeValueOfLeBytes(I32AsU32(v), 4);
  }

  /** `u64::to_le_bytes`. */
  function U64LeBytes(v: u64): (bs: seq<u8>)
    ensures |bs| == 8
  {
    LeBytes(v, 8)
  }

  lemma U64LeRoundTrip(v: u64)
    ensures LeValue(U64LeBytes(v)) == v
  {
    LeValueOfLeBytes(v, 8);
  }

  /** The eight bytes of a u64 read as a signed number give the u64 below
      2^63 and the u64 less 2^64 from there on: no sign byte is added. */
  lemma SignedU64LeBytes(v: u64)
    ensures SignedLeValue(U64LeBytes(v)) ==
      (if v < 0x8000_0000_0000_0000 then v else v - 0x1_0000_0000_0000_0000)
  {
    assert Pow256(8) == 0x1_0000_0000_0000_0000;
    LeValueOfLeBytes(v, 8);
  }
}
