/**
 * Fixed-width integers as the Rust code uses them, and the chunk count of
 * `slice::chunks` / `slice::chunks_mut`.
 */
module Prims {

  const U64_MODULUS: int := 0x1_0000_0000_0000_0000
  const U32_MODULUS: int := 0x1_0000_0000
  const I32_MIN: int := -0x8000_0000
  const I32_MAX: int := 0x7FFF_FFFF

  type U64 = x: int | 0 <= x < U64_MODULUS
  type I32 = x: int | I32_MIN <= x <= I32_MAX
  type Byte = b: int | 0 <= b < 0x100

  function Min(a: int, b: int): (m: int)
    ensures m <= a && m <= b && (m == a || m == b)
  {
    if a <= b then a else b
  }

  /** Wrapping `u64` arithmetic: the value an overflowing or underflowing
      `u64` computation holds in a release build. */
  function WrapU64(x: int): (r: U64)
    ensures (r - x) % U64_MODULUS == 0
  {
    x % U64_MODULUS
  }

  /** Rust's `v as i32` on a `u64`: keep the low 32 bits and read them as
      two's complement. */
  function U64ToI32(v: U64): (r: I32)
    ensures (r - v) % U32_MODULUS == 0
  {
    var low := v % U32_MODULUS;
    if low <= I32_MAX then low else low - U32_MODULUS
  }

  /** Rust's `i as usize` on an `i32` (64-bit target): sign extension, then
      reinterpretation, so a negative index becomes a huge one. */
  function I32ToUsize(i: I32): (r: U64)
    ensures (r - i) % U64_MODULUS == 0
  {
    if i >= 0 then i else i + U64_MODULUS
  }

  /** Whether `ports[i as usize]` is in bounds for a slice of length `n`:
      exactly the indices 0 <= i < n, because a negative `i32` is cast to
      an index at least 2^64 - 2^31, beyond any slice shorter than that. */
  lemma IndexInBounds(i: I32, n: nat)
    requires n <= U64_MODULUS + I32_MIN
    ensures I32ToUsize(i) < n <==> 0 <= i < n
  {
  }

  /** A difference that fits in an `i32` survives the detour through
      wrapping `u64` arithmetic and the `as i32` cast unchanged. */
  lemma {:induction false} SignedThroughU64(d: int)
    requires I32_MIN <= d <= I32_MAX
    ensures U64ToI32(WrapU64(d)) == d
  {
    var w := WrapU64(d);
    if d >= 0 {
      assert w == d;
    } else {
      assert w == d + U64_MODULUS;
      assert w % U32_MODULUS == (d + U64_MODULUS) % U32_MODULUS;
      assert U64_MODULUS == U32_MODULUS * U32_MODULUS;
      assert (d + U32_MODULUS) + (U32_MODULUS - 1) * U32_MODULUS == d + U64_MODULUS;
      assert w % U32_MODULUS == d + U32_MODULUS;
    }
  }

  /** Agreement modulo 2^64 implies agreement modulo 2^32, so a value read
      through a `u64` wrap and an `as i32` cast keeps its low 32 bits. */
  lemma {:induction false} NarrowCongruence(a: int, b: int, c: int)
    requires (a - b) % U32_MODULUS == 0
    requires (b - c) % U64_MODULUS == 0
    ensures (a - c) % U32_MODULUS == 0
  {
    var p := (a - b) / U32_MODULUS;
    var q := (b - c) / U64_MODULUS;
    assert a - b == p * U32_MODULUS;
    assert b - c == q * U64_MODULUS;
    assert U64_MODULUS == U32_MODULUS * U32_MODULUS;
    assert a - c == (p + q * U32_MODULUS) * U32_MODULUS;
  }

  /** Number of chunks `chunks(k)` / `chunks_mut(k)` yields on a slice of
      length `n`: every chunk has `k` elements except possibly the last. */
  function ChunkCount(n: nat, k: nat): (m: nat)
    requires k >= 1
    ensures n <= m * k < n + k
  {
    (n + k - 1) / k
  }

  lemma BelowOneFactor(a: int, k: nat)
    requires k >= 1 && a * k < k
    ensures a <= 0
  {
  }

  /** Cancelling a positive factor from `a * n <= b * n`. */
  lemma CancelLe(a: int, b: int, n: nat)
    requires n >= 1 && a * n <= b * n
    ensures a <= b
  {
    assert (a - b) * n == a * n - b * n;
    BelowOneFactor(a - b, n);
  }

  /** Cancelling a positive factor from `a * n < b * n`. */
  lemma CancelLt(a: int, b: int, n: nat)
    requires n >= 1 && a * n < b * n
    ensures a < b
  {
    assert (a - b + 1) * n == a * n - b * n + n;
    BelowOneFactor(a - b + 1, n);
  }

  /** The chunk count is the only `m` with `n <= m * k < n + k`. */
  lemma ChunkCountUnique(n: nat, k: nat, m: nat)
    requires k >= 1 && n <= m * k < n + k
    ensures ChunkCount(n, k) == m
  {
    var cc := ChunkCount(n, k);
    CancelLt(m, cc + 1, k) by { assert (cc + 1) * k == cc * k + k; }
    CancelLt(cc, m + 1, k) by { assert (m + 1) * k == m * k + k; }
  }
}
