/** Bitwise operations on unsigned integers as C++ applies them to `size_t` values
    (the `&` and `^` in Film::checkerboard and the `n & 15` jitter index of the
    tracer), defined bit by bit over natural numbers. */
module Bits {

  /** `x & y`: never larger than either operand. */
  function BitAnd(x: nat, y: nat): (r: nat)
    ensures r <= x && r <= y
    decreases x
  {
    if x == 0 || y == 0 then 0
    else 2 * BitAnd(x / 2, y / 2) + (if x % 2 == 1 && y % 2 == 1 then 1 else 0)
  }

  /** `x ^ y`. */
  function BitXor(x: nat, y: nat): nat
    decreases x + y
  {
    if x == 0 then y
    else if y == 0 then x
    else 2 * BitXor(x / 2, y / 2) + (if x % 2 != y % 2 then 1 else 0)
  }

  /** An exclusive or is non-zero exactly when its operands differ; this is the test
      `((i & size) ^ (j & size)) ? c1 : c2` relies on. */
  lemma {:induction false} XorZeroIff(x: nat, y: nat)
    ensures BitXor(x, y) == 0 <==> x == y
    decreases x + y
  {
    if x != 0 && y != 0 {
      XorZeroIff(x / 2, y / 2);
    }
  }

  lemma Mask1(n: nat)
    ensures BitAnd(n, 1) == n % 2
  {
    if n != 0 {
      assert BitAnd(n, 1) == 2 * BitAnd(n / 2, 0) + n % 2;
    }
  }

  /** One step of a low-bit mask: `n & (2m+1)` is twice `(n/2) & m` plus the last
      bit of n. */
  lemma MaskStep(n: nat, m: nat)
    ensures BitAnd(n, 2 * m + 1) == 2 * BitAnd(n / 2, m) + n % 2
  {
    if n != 0 {
      assert (2 * m + 1) / 2 == m && (2 * m + 1) % 2 == 1;
    }
  }

  lemma Mask3(n: nat)
    ensures BitAnd(n, 3) == n % 4
  {
    MaskStep(n, 1);
    Mask1(n / 2);
    var h := n / 2;
    assert n == 4 * (h / 2) + (2 * (h % 2) + n % 2);
    ModOf(4, h / 2, 2 * (h % 2) + n % 2);
  }

  lemma Mask7(n: nat)
    ensures BitAnd(n, 7) == n % 8
  {
    MaskStep(n, 3);
    Mask3(n / 2);
    var h := n / 2;
    assert n == 8 * (h / 4) + (2 * (h % 4) + n % 2);
    ModOf(8, h / 4, 2 * (h % 4) + n % 2);
  }

  /** The jitter-table index `n & 15` is `n % 16`, always in [0,16). */
  lemma Mask15(n: nat)
    ensures BitAnd(n, 15) == n % 16 && BitAnd(n, 15) < 16
  {
    MaskStep(n, 7);
    Mask7(n / 2);
    var h := n / 2;
    assert n == 16 * (h / 8) + (2 * (h % 8) + n % 2);
    ModOf(16, h / 8, 2 * (h % 8) + n % 2);
  }

  /** The remainder of `m*k + t` for `0 <= t < m`. */
  lemma ModOf(m: int, k: int, t: int)
    requires m == 4 || m == 8 || m == 16
    requires 0 <= t < m
    ensures (m * k + t) % m == t
  {
    if m == 4 {
      assert (4 * k + t) % 4 == t;
    } else if m == 8 {
      assert (8 * k + t) % 8 == t;
    } else {
      assert (16 * k + t) % 16 == t;
    }
  }

  /** `size_t` arithmetic wraps modulo 2^64; the four low bits do not see the wrap,
      so an unbounded jitter counter reads the same table entries as the source's. */
  lemma Mask15Wrap(n: nat)
    ensures BitAnd(n % 0x1_0000_0000_0000_0000, 15) == BitAnd(n, 15)
  {
    var q, r := n / 0x1_0000_0000_0000_0000, n % 0x1_0000_0000_0000_0000;
    Mask15(n);
    Mask15(r);
    var k := 0x1000_0000_0000_0000 * q + r / 16;
    assert n == 16 * k + r % 16;
    ModOf(16, k, r % 16);
  }
}
