/** Fixed-width unsigned integers, big-endian byte access and the
    wrapping arithmetic that Rust's `u32::wrapping_add` performs. */
module Bytes {

  const TWO_16: int := 0x1_0000
  const TWO_32: int := 0x1_0000_0000

  type u1 = x: int | 0 <= x < 2
  type u2 = x: int | 0 <= x < 4
  type u3 = x: int | 0 <= x < 8
  type u5 = x: int | 0 <= x < 32
  type u8 = x: int | 0 <= x < 0x100
  type u13 = x: int | 0 <= x < 0x2000
  type u16 = x: int | 0 <= x < 0x1_0000
  type u20 = x: int | 0 <= x < 0x10_0000
  type u32 = x: int | 0 <= x < 0x1_0000_0000

  datatype Option<T> = None | Some(value: T)

  /** The value of the two bytes at `i`, most significant first. */
  function ReadBe16(s: seq<u8>, i: nat): u16
    requires i + 2 <= |s|
  {
    s[i] as int * 0x100 + s[i + 1] as int
  }

  /** The value of the four bytes at `i`, most significant first. */
  function ReadBe32(s: seq<u8>, i: nat): u32
    requires i + 4 <= |s|
  {
    ReadBe16(s, i) as int * 0x1_0000 + ReadBe16(s, i + 2) as int
  }

  /** The more significant byte of a `u16`. */
  function Hi(x: u16): u8 { x / 0x100 }

  /** The less significant byte of a `u16`. */
  function Lo(x: u16): u8 { x % 0x100 }

  /** The more significant half of a `u32`. */
  function High16(x: u32): u16 { x / 0x1_0000 }

  /** The less significant half of a `u32`. */
  function Low16(x: u32): u16 { x % 0x1_0000 }

  /** `x.to_be_bytes()` for a `u16`. */
  function Be16(x: u16): (r: seq<u8>)
    ensures |r| == 2 && ReadBe16(r, 0) == x
  {
    [Hi(x), Lo(x)]
  }

  /** `n as u32`: keeps the low 32 bits. */
  function AsU32(n: nat): u32
  {
    n % TWO_32
  }

  /** `a.wrapping_add(b)` on `u32`. */
  function WrappingAdd(a: u32, b: u32): u32
  {
    (a + b) % TWO_32
  }

  /** `a` advanced by `n`, modulo 2^32: how a TCP sequence number moves
      on by `n` octets (RFC 793 section 3.3). */
  function Advance(a: u32, n: nat): u32
  {
    (a + n) % TWO_32
  }

  /** Adding a truncated length and wrapping is addition modulo 2^32. */
  lemma WrappingAddLength(a: u32, n: nat)
    ensures WrappingAdd(a, AsU32(n)) == Advance(a, n)
  {
    var q := n / TWO_32;
    assert n == q * TWO_32 + AsU32(n);
    ModTwo32AddMultiple(a + AsU32(n), q);
  }

  /** Advancing twice is advancing by the sum. */
  lemma AdvanceAdvance(a: u32, m: nat, n: nat)
    ensures Advance(Advance(a, m), n) == Advance(a, m + n)
  {
    var q := (a + m) / TWO_32;
    assert a + m == q * TWO_32 + Advance(a, m);
    ModTwo32AddMultiple(Advance(a, m) + n, q);
  }

  /** Adding a multiple of 2^32 does not change a residue. */
  lemma {:induction false} ModTwo32AddMultiple(x: nat, q: nat)
    ensures (x + q * TWO_32) % TWO_32 == x % TWO_32
  {
    if q > 0 {
      ModTwo32AddMultiple(x, q - 1);
      assert x + q * TWO_32 == (x + (q - 1) * TWO_32) + TWO_32;
    }
  }
}
