/** c10/util/BitsUtil.h: masks and trailing-zero counts on unsigned words.
    A word of width `w` (8, 16, 32 or 64 bits) is a `nat` below `Pow2(w)`;
    `~x` is `Pow2(w) - 1 - x` and `x >> s` is `x / Pow2(s)`. */
module BitsUtil {

  function Pow2(n: nat): (r: nat)
    ensures r >= 1
  {
    if n == 0 then 1 else 2 * Pow2(n - 1)
  }

  lemma {:induction false} Pow2Add(a: nat, b: nat)
    ensures Pow2(a + b) == Pow2(a) * Pow2(b)
  {
    if a > 0 {
      Pow2Add(a - 1, b);
      assert Pow2(a + b) == 2 * Pow2(a - 1 + b);
    }
  }

  lemma {:induction false} Pow2Monotone(a: nat, b: nat)
    requires a <= b
    ensures Pow2(a) <= Pow2(b)
  {
    if a < b {
      Pow2Monotone(a, b - 1);
    }
  }

  lemma Pow2StrictlyMonotone(a: nat, b: nat)
    requires a < b
    ensures Pow2(a) < Pow2(b)
  {
    Pow2Monotone(a + 1, b);
  }

  lemma MulLe(a: int, c: int, b: int)
    requires a <= c && b >= 0
    ensures a * b <= c * b
  {
    assert c * b - a * b == (c - a) * b;
  }

  lemma MulPred(a: int, p: int)
    ensures (a - 1) * p == a * p - p
  {
  }

  /** Division of `q * b + r` by `b` when `0 <= r < b`. */
  lemma DivExact(x: int, b: int, q: int, r: int)
    requires 0 <= r < b && x == q * b + r
    ensures x / b == q && x % b == r
  {
    var d, m := x / b, x % b;
    assert x == d * b + m;
    if d > q {
      MulLe(q + 1, d, b);
    } else if d < q {
      MulLe(d + 1, q, b);
    }
  }

  /** `(x / (2 * p)) == (x / 2) / p`, shifting right one bit at a time. */
  lemma DivTwice(x: nat, p: nat)
    requires p >= 1
    ensures x / (2 * p) == (x / 2) / p
    ensures x % (2 * p) == 2 * ((x / 2) % p) + x % 2
  {
    var q, r := (x / 2) / p, (x / 2) % p;
    assert x / 2 == q * p + r;
    assert x == q * (2 * p) + (2 * r + x % 2);
    DivExact(x, 2 * p, q, 2 * r + x % 2);
  }

  /** The width of an unsigned type: a positive number of whole bytes. */
  predicate IsWidth(w: nat) {
    w > 0 && w % 8 == 0
  }

  /** `~x` on a `w`-bit word. */
  function Complement(w: nat, x: nat): (r: nat)
    requires x < Pow2(w)
    ensures r < Pow2(w) && x + r == Pow2(w) - 1
  {
    Pow2(w) - 1 - x
  }

  /** `maskTrailingOnes<T>(n)`: `0` for `n == 0`, else `T(-1) >> (Bits - n)`.
      The `assert(N <= Bits)` becomes the precondition. */
  function MaskTrailingOnes(w: nat, n: nat): (r: nat)
    requires IsWidth(w) && n <= w
    ensures r == Pow2(n) - 1
  {
    if n == 0 then 0 else OnesShiftedDown(w, n); (Pow2(w) - 1) / Pow2(w - n)
  }

  /** `maskLeadingOnes<T>(n) == ~maskTrailingOnes<T>(Bits - n)`. */
  function MaskLeadingOnes(w: nat, n: nat): (r: nat)
    requires IsWidth(w) && n <= w
    ensures r < Pow2(w)
  {
    Pow2Monotone(w - n, w);
    Complement(w, MaskTrailingOnes(w, w - n))
  }

  /** `maskTrailingZeros<T>(n) == maskLeadingOnes<T>(Bits - n)`. */
  function MaskTrailingZeros(w: nat, n: nat): (r: nat)
    requires IsWidth(w) && n <= w
    ensures r < Pow2(w)
  {
    MaskLeadingOnes(w, w - n)
  }

  /** `maskLeadingZeros<T>(n) == maskTrailingOnes<T>(Bits - n)`. */
  function MaskLeadingZeros(w: nat, n: nat): (r: nat)
    requires IsWidth(w) && n <= w
    ensures r == Pow2(w - n) - 1
  {
    MaskTrailingOnes(w, w - n)
  }

  /** All ones shifted right by `w - n` leaves the low `n` bits set. */
  lemma OnesShiftedDown(w: nat, n: nat)
    requires 0 < n <= w
    ensures (Pow2(w) - 1) / Pow2(w - n) == Pow2(n) - 1
  {
    var a, p := Pow2(n), Pow2(w - n);
    Pow2Add(n, w - n);
    assert Pow2(w) == a * p;
    MulPred(a, p);
    DivExact(Pow2(w) - 1, p, a - 1, p - 1);
  }

  /** `maskLeadingOnes(n)` has exactly the high `n` bits of the word set. */
  lemma MaskLeadingOnesValue(w: nat, n: nat)
    requires IsWidth(w) && n <= w
    ensures MaskLeadingOnes(w, n) == Pow2(w) - Pow2(w - n)
  {
    Pow2Monotone(w - n, w);
  }

  /** `maskTrailingZeros(n) == ~(2^n - 1)`: the complement of `maskTrailingOnes(n)`. */
  lemma MaskTrailingZerosValue(w: nat, n: nat)
    requires IsWidth(w) && n <= w
    ensures MaskTrailingOnes(w, n) == Pow2(n) - 1 < Pow2(w)
    ensures MaskTrailingZeros(w, n) == Complement(w, MaskTrailingOnes(w, n))
    ensures MaskTrailingZeros(w, n) == Pow2(w) - Pow2(n)
  {
    MaskLeadingOnesValue(w, w - n);
    Pow2Monotone(n, w);
  }

  /** `maskLeadingZeros(n)` complements `maskLeadingOnes(n)`. */
  lemma MaskLeadingZerosValue(w: nat, n: nat)
    requires IsWidth(w) && n <= w
    ensures MaskLeadingZeros(w, n) == Complement(w, MaskLeadingOnes(w, n))
  {
    MaskLeadingOnesValue(w, n);
  }

  /** The assertions of test/c10/trailing_bits_test.cpp (`N = 10` on
      `uint32_t` and `uint64_t`), for every width of at least 10 bits. */
  lemma TrailingBitsExamples(w: nat)
    requires IsWidth(w) && w >= 10
    ensures MaskTrailingOnes(w, 10) == Pow2(10) - 1
    ensures MaskTrailingZeros(w, 10) == Complement(w, Pow2(10) - 1)
    ensures MaskLeadingOnes(w, 10) == Complement(w, Pow2(w - 10) - 1)
    ensures MaskLeadingZeros(w, 10) == Pow2(w - 10) - 1
  {
    MaskTrailingZerosValue(w, 10);
    MaskLeadingOnesValue(w, 10);
    MaskLeadingZerosValue(w, 10);
  }

  /** Index of the lowest set bit of a non-zero value (the builtin `ctz`). */
  function LowestSetBit(x: nat): (r: nat)
    requires x > 0
    ensures Pow2(r) <= x
    ensures x % Pow2(r) == 0 && (x / Pow2(r)) % 2 == 1
  {
    if x % 2 == 1 then 0
    else
      var r := 1 + LowestSetBit(x / 2);
      DivTwice(x, Pow2(r - 1));
      r
  }

  /** `countTrailingZeros`: only the 4- and 8-byte specialisations exist;
      a zero word gives the width. */
  function CountTrailingZeros(w: nat, x: nat): (r: nat)
    requires (w == 32 || w == 64) && x < Pow2(w)
    ensures x == 0 ==> r == w
    ensures x > 0 ==> r < w && x % Pow2(r) == 0 && (x / Pow2(r)) % 2 == 1
  {
    if x == 0 then w
    else
      var r := LowestSetBit(x);
      assert r < w by {
        if r >= w { Pow2Monotone(w, r); }
      }
      r
  }

  datatype ZeroBehavior = ZbUndefined | ZbMax | ZbWidth

  /** `findFirstSet(val, zb)` (default `ZB_Max`): the maximum word for a zero
      value under `ZB_Max`, else `countTrailingZeros(val)`. */
  function FindFirstSet(w: nat, x: nat, zb: ZeroBehavior): (r: nat)
    requires (w == 32 || w == 64) && x < Pow2(w)
    ensures x == 0 && zb == ZbMax ==> r == Pow2(w) - 1
    ensures x == 0 && zb != ZbMax ==> r == w
    ensures x > 0 ==> r < w && x % Pow2(r) == 0 && (x / Pow2(r)) % 2 == 1
  {
    if x == 0 && zb == ZbMax then Pow2(w) - 1 else CountTrailingZeros(w, x)
  }
}
