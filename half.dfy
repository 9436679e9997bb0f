/** c10/util/Half.h: `detail::fp16_to_fp32_bits`, the integer-only conversion
    of an IEEE 754 binary16 encoding to the binary32 encoding of the same
    value. The words are naturals; `(int32_t)` casts, arithmetic right shifts
    and `~` are written out, and `& | ` are the operators of `Words`. */
module Half {
  import opened BitsUtil
  import opened Words

  const TwoPow32: nat := 0x1_0000_0000

  type Uint16 = x: nat | x < 0x1_0000
  type Uint32 = x: nat | x < 0x1_0000_0000

  /** The powers of two the conversion works with. */
  lemma Pow2Table()
    ensures Pow2(10) == 0x400 && Pow2(13) == 0x2000 && Pow2(15) == 0x8000
    ensures Pow2(16) == 0x1_0000 && Pow2(23) == 0x80_0000
    ensures Pow2(31) == 0x8000_0000 && Pow2(32) == TwoPow32
  {
    assert Pow2(8) == 0x100;
    Pow2Add(8, 2);
    Pow2Add(8, 5);
    Pow2Add(8, 7);
    Pow2Add(8, 8);
    Pow2Add(16, 7);
    Pow2Add(16, 15);
    Pow2Add(16, 16);
  }

  /** `(int32_t)x` on a `uint32_t`: two's complement reinterpretation. */
  function ToInt32(x: Uint32): int {
    if x < 0x8000_0000 then x else x - TwoPow32
  }

  /** An `int32_t` operand converted to `uint32_t` (modulo 2^32). */
  function ToUint32(x: int): Uint32 {
    x % TwoPow32
  }

  /** `__builtin_clz(x)`: leading zeros of a 32-bit word. The builtin is
      undefined for 0; 32 is taken there, and `ZeroIgnoresRenormShift` shows
      the result does not depend on that choice. */
  function Clz32(x: Uint32): nat {
    WordLength(x);
    32 - BitLength(x)
  }

  lemma WordLength(x: Uint32)
    ensures BitLength(x) <= 32
  {
    Pow2Table();
    if BitLength(x) > 32 {
      Pow2Monotone(32, BitLength(x) - 1);
    }
  }

  /** `renorm_shift`: how far a subnormal mantissa must move up to become normal. */
  function RenormShift(nonsign: Uint32): nat {
    var clz := Clz32(nonsign);
    if clz > 5 then clz - 5 else 0
  }

  /** `inf_nan_mask`: the arithmetic right shift of `(int32_t)(nonsign + 0x04000000)`
      by 8, masked with `0x7F800000`. */
  function InfNanMask(nonsign: Uint32): nat {
    And(ToUint32(ToInt32((nonsign + 0x0400_0000) % TwoPow32) / 0x100), 0x7F80_0000)
  }

  /** `zero_mask`: the arithmetic right shift of `(int32_t)(nonsign - 1)` by 31. */
  function ZeroMask(nonsign: Uint32): int {
    ToInt32((nonsign + 0xFFFF_FFFF) % TwoPow32) / 0x8000_0000
  }

  /** `nonsign << renorm_shift >> 3`, the shift taken modulo 2^32. */
  function Shifted(nonsign: Uint32, renormShift: nat): nat {
    ((nonsign * Pow2(renormShift)) % TwoPow32) / 8
  }

  /** `(0x70 - renorm_shift) << 23` on `uint32_t`. */
  function Bias(renormShift: nat): nat {
    (((0x70 + TwoPow32 - renormShift % TwoPow32) % TwoPow32) * 0x80_0000) % TwoPow32
  }

  /** `~zero_mask` as a `uint32_t`. */
  function NotZeroMask(nonsign: Uint32): Uint32 {
    ToUint32(-ZeroMask(nonsign) - 1)
  }

  /** Everything of the return expression but the sign:
      `(((nonsign << renorm_shift >> 3) + ((0x70 - renorm_shift) << 23)) |
      inf_nan_mask) & ~zero_mask`. */
  function Magnitude(nonsign: Uint32, renormShift: nat): nat {
    And(Or((Shifted(nonsign, renormShift) + Bias(renormShift)) % TwoPow32, InfNanMask(nonsign)),
        NotZeroMask(nonsign))
  }

  /** The return expression: the sign or-ed onto the magnitude. */
  function Assemble(sign: nat, nonsign: Uint32, renormShift: nat): nat {
    Or(sign, Magnitude(nonsign, renormShift))
  }

  /** `fp16_to_fp32_bits(h)`. */
  function Fp16ToFp32Bits(h: Uint16): (r: nat)
    ensures r < TwoPow32
  {
    var w := h * 0x1_0000;
    var sign := And(w, 0x8000_0000);
    Pow2Table();
    AndBound(w, 0x7FFF_FFFF, 32);
    AndBound(w, 0x8000_0000, 32);
    var nonsign := And(w, 0x7FFF_FFFF);
    var shift := RenormShift(nonsign);
    var sum := (Shifted(nonsign, shift) + Bias(shift)) % TwoPow32;
    AndBound(Or(sum, InfNanMask(nonsign)), NotZeroMask(nonsign), 32);
    OrBound(sign, Magnitude(nonsign, shift), 32);
    Assemble(sign, nonsign, shift)
  }

  /** The binary32 encoding of the value a binary16 encoding denotes, read off
      the IEEE 754 formats: sign, biased exponent `e` and fraction `f`.
      Infinities and NaNs keep their fraction in the top bits; normal numbers
      rebias the exponent from 15 to 127; ±0 stays ±0; a subnormal
      `f * 2^-24` with `n` significant bits becomes the normal number with
      exponent `n - 25` (biased `n + 102`) and the bits below its leading one
      as fraction. */
  function Fp16ToFp32Reference(h: Uint16): nat {
    (h / 0x8000) * 0x8000_0000 + MagnitudeReference(h % 0x8000)
  }

  /** The binary32 exponent and fraction for the binary16 exponent and
      fraction bits `m` (sign left out). */
  function MagnitudeReference(m: nat): nat
    requires m < 0x8000
  {
    var e := m / 0x400;
    var f := m % 0x400;
    if e == 0x1F then 0xFF * 0x80_0000 + f * 0x2000
    else if e != 0 then (e + 0x70) * 0x80_0000 + f * 0x2000
    else if f == 0 then 0
    else SubnormalAsNormal(f)
  }

  /** The binary32 exponent and fraction of the subnormal binary16 value
      `f * 2^-24`. */
  function SubnormalAsNormal(f: nat): nat
    requires 0 < f < 0x400
  {
    (BitLength(f) + 102) * 0x80_0000 + SubnormalFraction(f)
  }

  /** The bits of `f` below its leading one, moved up to the top of the
      23-bit binary32 fraction. */
  function SubnormalFraction(f: nat): (r: nat)
    requires 0 < f < 0x400
    ensures r < 0x80_0000
  {
    SubnormalLength(f);
    var n := BitLength(f);
    var fraction: nat := f - Pow2(n - 1);
    var scale: nat := Pow2(24 - n);
    MulLe(0, fraction, scale);
    LeadTimesScale(n);
    FractionBelow(fraction, Pow2(n - 1), scale);
    fraction * scale
  }

  /** A nonzero fraction has between 1 and 10 significant bits. */
  lemma SubnormalLength(f: nat)
    requires 0 < f < 0x400
    ensures 1 <= BitLength(f) <= 10
  {
    Pow2Table();
    BitLengthBetween(f, 0, 10);
  }

  // ---------------------------------------------------------------------------
  // The steps of the conversion

  /** `w & 0x80000000` is the sign moved to bit 31. */
  lemma SignOf(h: Uint16)
    ensures And(h * 0x1_0000, 0x8000_0000) == (h / 0x8000) * 0x8000_0000
  {
    var s, lo := h / 0x8000, (h % 0x8000) * 0x1_0000;
    SplitAtBit31(h);
    Pow2Table();
    AndBitPart(h * 0x1_0000, s, lo, 31);
    assert s * Pow2(31) == s * 0x8000_0000;
  }

  /** `w & 0x7FFFFFFF` is the exponent and fraction moved up by 16. */
  lemma NonSignOf(h: Uint16)
    ensures And(h * 0x1_0000, 0x7FFF_FFFF) == (h % 0x8000) * 0x1_0000
  {
    var s, lo := h / 0x8000, (h % 0x8000) * 0x1_0000;
    SplitAtBit31(h);
    Pow2Table();
    AndLowPart(h * 0x1_0000, s, lo, 31);
    assert Pow2(31) - 1 == 0x7FFF_FFFF;
  }

  lemma SplitAtBit31(h: Uint16)
    ensures h * 0x1_0000 == (h / 0x8000) * Pow2(31) + (h % 0x8000) * 0x1_0000
    ensures (h % 0x8000) * 0x1_0000 < Pow2(31)
  {
    Pow2Table();
    var s, m := h / 0x8000, h % 0x8000;
    assert h == s * 0x8000 + m;
    assert h * 0x1_0000 == s * 0x8000_0000 + m * 0x1_0000;
  }

  /** Moving a word up by `k` bits adds `k` to its bit length. */
  lemma {:induction false} BitLengthShift(m: nat, k: nat)
    requires m > 0
    ensures BitLength(m * Pow2(k)) == BitLength(m) + k
  {
    if k > 0 {
      BitLengthShift(m, k - 1);
      MulPow2Step(m, k);
      assert (m * Pow2(k)) / 2 == m * Pow2(k - 1);
    }
  }

  /** A bit length pinned between two powers of two. */
  lemma BitLengthBetween(x: nat, lo: nat, hi: nat)
    requires Pow2(lo) <= x < Pow2(hi)
    ensures lo < BitLength(x) <= hi
  {
    var r := BitLength(x);
    if r <= lo {
      Pow2Monotone(r, lo);
    }
    if r > hi {
      Pow2Monotone(hi, r - 1);
    }
  }

  /** The renormalisation shift of `m << 16`: 0 for a normal (or infinite or
      NaN) input, `11 - n` for a subnormal one with `n` significant bits. */
  lemma RenormShiftOf(m: nat)
    requires m < 0x8000
    ensures m >= 0x400 ==> RenormShift(m * 0x1_0000) == 0
    ensures 0 < m < 0x400 ==> BitLength(m) <= 10 && RenormShift(m * 0x1_0000) == 11 - BitLength(m)
  {
    Pow2Table();
    if m > 0 {
      BitLengthShift(m, 16);
      if m >= 0x400 {
        BitLengthBetween(m, 10, 15);
      } else {
        BitLengthBetween(m, 0, 10);
      }
    }
  }

  /** `inf_nan_mask` is the all-ones exponent exactly when the exponent is 0x1F. */
  lemma InfNanMaskOf(m: nat)
    requires m < 0x8000
    ensures InfNanMask(m * 0x1_0000) == (if m >= 0x7C00 then 0xFF * 0x80_0000 else 0)
  {
    if m >= 0x7C00 {
      InfNanMaskOfInfNan(m);
    } else {
      InfNanMaskOfFinite(m);
    }
  }

  /** Exponent 0x1F: adding 0x04000000 carries into bit 31, so the shift
      fills bits 23-31 with ones. */
  lemma InfNanMaskOfInfNan(m: nat)
    requires 0x7C00 <= m < 0x8000
    ensures InfNanMask(m * 0x1_0000) == 0xFF * 0x80_0000
  {
    var v := m * 0x1_0000 + 0x0400_0000;
    assert 0x8000_0000 <= v < TwoPow32;
    assert (m * 0x1_0000 + 0x0400_0000) % TwoPow32 == v;
    assert ToInt32(v) == v - TwoPow32;
    var q := (v - TwoPow32) / 0x100;
    assert q == v / 0x100 - 0x100_0000;
    var u := v / 0x100 - 0x80_0000;
    assert 0 <= u < 0x80_0000;
    assert ToUint32(q) == 0x1FF * 0x80_0000 + u;
    assert InfNanMask(m * 0x1_0000) == And(ToUint32(q), 0x7F80_0000);
    ExponentAllOnes(ToUint32(q), u);
  }

  /** A finite exponent: no carry into bit 31, so the shift leaves bits
      23-30 clear. */
  lemma InfNanMaskOfFinite(m: nat)
    requires m < 0x7C00
    ensures InfNanMask(m * 0x1_0000) == 0
  {
    var v := m * 0x1_0000 + 0x0400_0000;
    assert v < 0x8000_0000;
    assert (m * 0x1_0000 + 0x0400_0000) % TwoPow32 == v;
    var t := v / 0x100;
    assert ToInt32(v) == v && ToInt32(v) / 0x100 == t;
    assert t < TwoPow32 && ToUint32(t) == t;
    assert InfNanMask(m * 0x1_0000) == And(t, 0x7F80_0000);
    ExponentNone(t);
  }

  /** Bits 23-30 of a word whose bits 23-31 are all set. */
  lemma ExponentAllOnes(t: nat, u: nat)
    requires u < 0x80_0000 && t == 0x1FF * 0x80_0000 + u
    ensures And(t, 0x7F80_0000) == 0x7F80_0000
  {
    Pow2Table();
    var low := 0xFF * 0x80_0000 + u;
    assert t == 1 * Pow2(31) + low && 0x7F80_0000 == 0 * Pow2(31) + 0x7F80_0000;
    AndSplit(1, low, 0, 0x7F80_0000, 31);
    assert And(1, 0) == 0;
    assert And(t, 0x7F80_0000) == And(low, 0x7F80_0000);
    assert low == 0xFF * Pow2(23) + u && 0x7F80_0000 == 0xFF * Pow2(23) + 0;
    AndSplit(0xFF, u, 0xFF, 0, 23);
    AndSelf(0xFF);
    assert And(u, 0) == 0;
  }

  /** A word below 2^23 has no exponent bits. */
  lemma ExponentNone(t: nat)
    requires t < 0x80_0000
    ensures And(t, 0x7F80_0000) == 0
  {
    Pow2Table();
    AndSplit(0, t, 0xFF, 0, 23);
  }

  /** `~zero_mask` as a `uint32_t`: no bits for a zero input, all 32 otherwise. */
  lemma NotZeroMaskOf(nonsign: Uint32)
    requires nonsign < 0x8000_0000
    ensures NotZeroMask(nonsign) == (if nonsign == 0 then 0 else 0xFFFF_FFFF)
  {
    if nonsign == 0 {
      assert ToInt32((nonsign + 0xFFFF_FFFF) % TwoPow32) == -1;
      assert ZeroMask(nonsign) == -1;
    } else {
      var v := (nonsign + 0xFFFF_FFFF) % TwoPow32;
      assert v == nonsign - 1;
      assert v < 0x8000_0000 ==> ToInt32(v) == v;
      assert ZeroMask(nonsign) == 0;
    }
  }

  /** Setting the sign bit on a word below 2^31. */
  lemma OrSign(s: nat, y: nat)
    requires y < 0x8000_0000
    ensures Or(s * 0x8000_0000, y) == s * 0x8000_0000 + y
  {
    Pow2Table();
    OrSplit(s, 0, 0, y, 31);
  }

  /** ±0: the exponent-and-fraction part vanishes whatever the shift. */
  lemma ZeroIgnoresRenormShift(sign: nat, r: nat)
    ensures Assemble(sign, 0, r) == sign
  {
    NotZeroMaskOf(0);
  }

  /** A word below 2^32 survives the all-ones mask `~zero_mask` of a nonzero input. */
  lemma KeptByNotZeroMask(x: nat, nonsign: Uint32)
    requires 0 < nonsign < 0x8000_0000 && x < TwoPow32
    ensures And(x, NotZeroMask(nonsign)) == x
  {
    NotZeroMaskOf(nonsign);
    Pow2Table();
    AndLowMask(x, 32);
  }

  /** A normal, infinite or NaN input is not shifted: `nonsign >> 3`
      plus the bias 0x70 << 23 is the exponent rebased by 0x70 and the
      fraction, both in place. */
  lemma SumOfNormal(m: nat)
    requires 0x400 <= m < 0x8000
    ensures RenormShift(m * 0x1_0000) == 0
    ensures (Shifted(m * 0x1_0000, 0) + Bias(0)) % TwoPow32
         == (m / 0x400 + 0x70) * 0x80_0000 + (m % 0x400) * 0x2000
  {
    RenormShiftOf(m);
    assert Pow2(0) == 1;
    assert Shifted(m * 0x1_0000, 0) == m * 0x2000;
    assert Bias(0) == 0x70 * 0x80_0000;
    var e, f := m / 0x400, m % 0x400;
    assert m == e * 0x400 + f;
    assert m * 0x2000 == e * 0x80_0000 + f * 0x2000;
  }

  /** A normal input: the exponent is rebiased by 0x70, the fraction moves
      up by 13. */
  lemma MagnitudeOfNormal(m: nat)
    requires 0x400 <= m < 0x7C00
    ensures Magnitude(m * 0x1_0000, RenormShift(m * 0x1_0000)) == MagnitudeReference(m)
  {
    SumOfNormal(m);
    InfNanMaskOf(m);
    var x := (m / 0x400 + 0x70) * 0x80_0000 + (m % 0x400) * 0x2000;
    assert Or(x, 0) == x;
    KeptByNotZeroMask(x, m * 0x1_0000);
  }

  /** An infinity or NaN: the exponent becomes all ones, the fraction moves
      up by 13. */
  lemma MagnitudeOfInfNan(m: nat)
    requires 0x7C00 <= m < 0x8000
    ensures Magnitude(m * 0x1_0000, RenormShift(m * 0x1_0000)) == MagnitudeReference(m)
  {
    var n, f := m * 0x1_0000, m % 0x400;
    SumOfNormal(m);
    InfNanMaskOf(m);
    assert m / 0x400 == 0x1F;
    var x := 0xFF * 0x80_0000 + f * 0x2000;
    ExponentOrAllOnes(f);
    MagnitudeOfMasked(n, 0, 0x8F * 0x80_0000 + f * 0x2000, 0xFF * 0x80_0000, x);
    assert MagnitudeReference(m) == x;
  }

  /** The magnitude from its parts: the wrapped sum, the infinity/NaN mask and
      their or, which `~zero_mask` keeps for a non-zero input. */
  lemma MagnitudeOfMasked(nonsign: Uint32, r: nat, sum: nat, mask: nat, x: nat)
    requires 0 < nonsign < 0x8000_0000 && x < TwoPow32
    requires (Shifted(nonsign, r) + Bias(r)) % TwoPow32 == sum
    requires InfNanMask(nonsign) == mask && Or(sum, mask) == x
    ensures Magnitude(nonsign, r) == x
  {
    KeptByNotZeroMask(x, nonsign);
  }

  /** Or-ing the all-ones exponent onto the rebiased exponent 0x8F of an
      infinity or NaN. */
  lemma ExponentOrAllOnes(f: nat)
    requires f < 0x400
    ensures Or(0x8F * 0x80_0000 + f * 0x2000, 0xFF * 0x80_0000) == 0xFF * 0x80_0000 + f * 0x2000
  {
    Pow2Table();
    assert Pow2(8) == 0x100;
    OrOnesField(0x8F, f * 0x2000, 8, 23);
  }

  /** Or-ing a field of `w` ones at bit `k` onto `a << k` plus bits below `k`. */
  lemma OrOnesField(a: nat, low: nat, w: nat, k: nat)
    requires a < Pow2(w) && low < Pow2(k)
    ensures Or(a * Pow2(k) + low, (Pow2(w) - 1) * Pow2(k)) == (Pow2(w) - 1) * Pow2(k) + low
  {
    var ones: nat := Pow2(w) - 1;
    var x: nat, y: nat := a * Pow2(k) + low, ones * Pow2(k);
    ShlIsMul(a, k);
    ShlIsMul(ones, k);
    OrLowMask(a, w);
    assert Or(low, 0) == low;
    OrShlSplit(x, y, a, low, ones, 0, k);
  }

  /** A subnormal input with `n` significant bits is shifted up by `11 - n`,
      so that its leading one lands on bit 23 after `>> 3`. */
  lemma ShiftedOfSubnormal(m: nat)
    requires 0 < m < 0x400
    ensures 1 <= BitLength(m) <= 10
    ensures Shifted(m * 0x1_0000, 11 - BitLength(m)) == m * Pow2(24 - BitLength(m))
  {
    SubnormalLength(m);
    var n := BitLength(m);
    var r := 11 - n;
    Pow2Add(16, r);
    Pow2Add(24 - n, 3);
    Pow2Add(n, 27 - n);
    Pow2Monotone(27, 32);
    SmallPowers();
    ProductBelow(m, Pow2(n), Pow2(27 - n), Pow2(27));
    ShiftArith(m, Pow2(r), Pow2(24 - n), Pow2(27 - n));
  }

  lemma SmallPowers()
    ensures Pow2(3) == 8 && Pow2(16) == 0x1_0000 && Pow2(32) == TwoPow32
  {
    Pow2Table();
  }

  lemma ProductBelow(m: nat, top: nat, scale: nat, limit: nat)
    requires m < top && top * scale == limit
    ensures m * scale <= limit
  {
    MulLe(m, top, scale);
  }

  /** The shift up by `q` and down by 8 of `m << 16`, when it stays below 2^32. */
  lemma ShiftArith(m: nat, q: nat, p: nat, big: nat)
    requires 0x1_0000 * q == big && p * 8 == big && m * big < TwoPow32
    ensures ((m * 0x1_0000 * q) % TwoPow32) / 8 == m * p
  {
    assert m * 0x1_0000 * q == m * big;
    assert m * big == (m * p) * 8;
  }

  /** The leading one and the bits below it, each in its binary32 place. */
  lemma SplitSubnormal(m: nat)
    requires 0 < m < 0x400
    ensures 1 <= BitLength(m) <= 10
    ensures m * Pow2(24 - BitLength(m)) == 0x80_0000 + SubnormalFraction(m)
  {
    SubnormalLength(m);
    var n := BitLength(m);
    var lead, scale := Pow2(n - 1), Pow2(24 - n);
    LeadTimesScale(n);
    assert SubnormalFraction(m) == (m - lead) * scale;
    SplitAtLead(m, lead, scale);
  }

  /** `m * scale` split at the leading one, whose scaled value is 2^23. */
  lemma SplitAtLead(m: nat, lead: nat, scale: nat)
    requires lead <= m && lead * scale == 0x80_0000
    ensures m * scale == 0x80_0000 + (m - lead) * scale
  {
    Distribute(lead, m - lead, scale);
  }

  lemma LeadTimesScale(n: nat)
    requires 1 <= n <= 24
    ensures Pow2(n - 1) * Pow2(24 - n) == 0x80_0000
  {
    Pow2Add(n - 1, 24 - n);
    Pow2Table();
  }

  lemma Distribute(a: int, b: int, p: int)
    ensures (a + b) * p == a * p + b * p
  {
  }

  /** The bias `(0x70 - renorm_shift) << 23` of a subnormal input. */
  lemma BiasOfSubnormal(n: nat)
    requires 1 <= n <= 10
    ensures Bias(11 - n) == (101 + n) * 0x80_0000
  {
  }

  /** Shift plus bias for a subnormal input: the leading one raises the
      bias by one exponent step, the bits below it form the fraction. */
  lemma SumOfSubnormal(m: nat)
    requires 0 < m < 0x400
    ensures 1 <= BitLength(m) <= 10
    ensures Shifted(m * 0x1_0000, 11 - BitLength(m)) + Bias(11 - BitLength(m)) == SubnormalAsNormal(m)
  {
    ShiftedOfSubnormal(m);
    SplitSubnormal(m);
    var n := BitLength(m);
    BiasOfSubnormal(n);
  }

  /** The same at the shift the code computes, modulo 2^32. */
  lemma WrappedSumOfSubnormal(m: nat)
    requires 0 < m < 0x400
    ensures (Shifted(m * 0x1_0000, RenormShift(m * 0x1_0000)) + Bias(RenormShift(m * 0x1_0000))) % TwoPow32
         == MagnitudeReference(m)
  {
    RenormShiftOf(m);
    SumOfSubnormal(m);
    ReferenceBelowSign(m);
    var r := RenormShift(m * 0x1_0000);
    var x := Shifted(m * 0x1_0000, r) + Bias(r);
    assert x == SubnormalAsNormal(m);
    ReferenceOfSubnormal(m);
    ModSmall(x);
  }

  lemma ModSmall(x: nat)
    requires x < TwoPow32
    ensures x % TwoPow32 == x
  {
  }

  lemma ReferenceOfSubnormal(m: nat)
    requires 0 < m < 0x400
    ensures MagnitudeReference(m) == SubnormalAsNormal(m)
  {
    assert m / 0x400 == 0 && m % 0x400 == m;
  }

  /** The magnitude of a finite nonzero input is the shifted-plus-biased word. */
  lemma MagnitudeOfFinite(nonsign: Uint32, r: nat, x: nat)
    requires 0 < nonsign < 0x8000_0000 && InfNanMask(nonsign) == 0
    requires (Shifted(nonsign, r) + Bias(r)) % TwoPow32 == x
    ensures Magnitude(nonsign, r) == x
  {
    assert Or(x, 0) == x;
    MagnitudeOfMasked(nonsign, r, x, 0, x);
  }

  /** A subnormal input becomes the normal binary32 number of the same value. */
  lemma MagnitudeOfSubnormal(m: nat)
    requires 0 < m < 0x400
    ensures Magnitude(m * 0x1_0000, RenormShift(m * 0x1_0000)) == MagnitudeReference(m)
  {
    WrappedSumOfSubnormal(m);
    InfNanMaskOf(m);
    MagnitudeOfFinite(m * 0x1_0000, RenormShift(m * 0x1_0000), MagnitudeReference(m));
  }

  /** The code's magnitude is the reference magnitude, and stays below the sign bit. */
  lemma MagnitudeMatches(m: nat)
    requires m < 0x8000
    ensures Magnitude(m * 0x1_0000, RenormShift(m * 0x1_0000)) == MagnitudeReference(m)
    ensures MagnitudeReference(m) < 0x8000_0000
  {
    if m == 0 {
      ZeroIgnoresRenormShift(0, RenormShift(0));
      assert Or(0, Magnitude(0, RenormShift(0))) == Magnitude(0, RenormShift(0));
    } else if m < 0x400 {
      MagnitudeOfSubnormal(m);
      ReferenceBelowSign(m);
    } else if m < 0x7C00 {
      MagnitudeOfNormal(m);
    } else {
      MagnitudeOfInfNan(m);
    }
  }

  lemma ReferenceBelowSign(m: nat)
    requires 0 < m < 0x400
    ensures MagnitudeReference(m) < 0x8000_0000
  {
    SubnormalLength(m);
    var n := BitLength(m);
    LeadTimesScale(n);
    ProductBelow(m - Pow2(n - 1), Pow2(n - 1), Pow2(24 - n), 0x80_0000);
  }

  /** `fp16_to_fp32_bits` computes the binary32 encoding of the value its
      binary16 argument encodes, for every one of the 2^16 inputs. */
  lemma Fp16ToFp32BitsMatchesReference(h: Uint16)
    ensures Fp16ToFp32Bits(h) == Fp16ToFp32Reference(h)
  {
    var s, m := h / 0x8000, h % 0x8000;
    SignOf(h);
    NonSignOf(h);
    MagnitudeMatches(m);
    OrSign(s, MagnitudeReference(m));
  }

  // ---------------------------------------------------------------------------
  // What the conversion preserves

  /** The fields of a binary16 encoding: sign (bit 15), biased exponent
      (bits 10-14) and fraction (bits 0-9). */
  function Sign16(h: Uint16): nat { h / 0x8000 }
  function Exponent16(h: Uint16): nat { (h / 0x400) % 0x20 }
  function Fraction16(h: Uint16): nat { h % 0x400 }

  /** The fields of a binary32 encoding: sign (bit 31), biased exponent
      (bits 23-30) and fraction (bits 0-22). */
  function Sign32(x: nat): nat { x / 0x8000_0000 }
  function Exponent32(x: nat): nat { (x / 0x80_0000) % 0x100 }
  function Fraction32(x: nat): nat { x % 0x80_0000 }

  /** The magnitude of a finite binary16 number times 2^24 (an integer). */
  function Scaled16(h: Uint16): nat {
    if Exponent16(h) == 0 then Fraction16(h)
    else (0x400 + Fraction16(h)) * Pow2(Exponent16(h) - 1)
  }

  /** The magnitude of a finite binary32 number times 2^149 (an integer). */
  function Scaled32(x: nat): nat {
    if Exponent32(x) == 0 then Fraction32(x)
    else (0x80_0000 + Fraction32(x)) * Pow2(Exponent32(x) - 1)
  }

  /** Reading the three fields back off a word built from them. */
  lemma FieldsOf(s: nat, e: nat, f: nat)
    requires s < 2 && e < 0x100 && f < 0x80_0000
    ensures s * 0x8000_0000 + e * 0x80_0000 + f < TwoPow32
    ensures Sign32(s * 0x8000_0000 + e * 0x80_0000 + f) == s
    ensures Exponent32(s * 0x8000_0000 + e * 0x80_0000 + f) == e
    ensures Fraction32(s * 0x8000_0000 + e * 0x80_0000 + f) == f
  {
    var x := s * 0x8000_0000 + e * 0x80_0000 + f;
    DivExact(x, 0x8000_0000, s, e * 0x80_0000 + f);
    DivExact(x, 0x80_0000, s * 0x100 + e, f);
    DivExact(s * 0x100 + e, 0x100, s, e);
  }

  /** The reference encoding split into its fields, case by case. */
  lemma ReferenceFields(h: Uint16)
    ensures Fp16ToFp32Reference(h) < TwoPow32
    ensures Sign32(Fp16ToFp32Reference(h)) == Sign16(h)
    ensures Exponent16(h) == 0x1F ==> (Exponent32(Fp16ToFp32Reference(h)) == 0xFF
      && Fraction32(Fp16ToFp32Reference(h)) == Fraction16(h) * 0x2000)
    ensures 0 < Exponent16(h) < 0x1F ==> (Exponent32(Fp16ToFp32Reference(h)) == Exponent16(h) + 0x70
      && Fraction32(Fp16ToFp32Reference(h)) == Fraction16(h) * 0x2000)
    ensures Exponent16(h) == 0 && Fraction16(h) == 0 ==> (Fp16ToFp32Reference(h) == Sign16(h) * 0x8000_0000
      && Exponent32(Fp16ToFp32Reference(h)) == 0 && Fraction32(Fp16ToFp32Reference(h)) == 0)
    ensures Exponent16(h) == 0 && Fraction16(h) != 0 ==> (1 <= BitLength(Fraction16(h)) <= 10
      && Exponent32(Fp16ToFp32Reference(h)) == BitLength(Fraction16(h)) + 102
      && Fraction32(Fp16ToFp32Reference(h)) == SubnormalFraction(Fraction16(h)))
  {
    if Exponent16(h) != 0 {
      NonzeroExponentFields(h);
    } else if Fraction16(h) == 0 {
      ZeroFields(h);
    } else {
      SubnormalReferenceFields(h);
    }
  }

  lemma NonzeroExponentFields(h: Uint16)
    requires Exponent16(h) != 0
    ensures Fp16ToFp32Reference(h) < TwoPow32
    ensures Sign32(Fp16ToFp32Reference(h)) == Sign16(h)
    ensures Exponent32(Fp16ToFp32Reference(h))
         == (if Exponent16(h) == 0x1F then 0xFF else Exponent16(h) + 0x70)
    ensures Fraction32(Fp16ToFp32Reference(h)) == Fraction16(h) * 0x2000
  {
    HalfFields(h);
    NormalOrInfNanFields(Sign16(h), h % 0x8000);
  }

  lemma ZeroFields(h: Uint16)
    requires Exponent16(h) == 0 && Fraction16(h) == 0
    ensures Fp16ToFp32Reference(h) == Sign16(h) * 0x8000_0000 < TwoPow32
    ensures Sign32(Fp16ToFp32Reference(h)) == Sign16(h)
    ensures Exponent32(Fp16ToFp32Reference(h)) == 0 && Fraction32(Fp16ToFp32Reference(h)) == 0
  {
    HalfFields(h);
    assert MagnitudeReference(h % 0x8000) == 0;
    FieldsOf(Sign16(h), 0, 0);
  }

  lemma SubnormalReferenceFields(h: Uint16)
    requires Exponent16(h) == 0 && Fraction16(h) != 0
    ensures Fp16ToFp32Reference(h) < TwoPow32
    ensures Sign32(Fp16ToFp32Reference(h)) == Sign16(h)
    ensures 1 <= BitLength(Fraction16(h)) <= 10
    ensures Exponent32(Fp16ToFp32Reference(h)) == BitLength(Fraction16(h)) + 102
    ensures Fraction32(Fp16ToFp32Reference(h)) == SubnormalFraction(Fraction16(h))
  {
    HalfFields(h);
    ReferenceOfSubnormal(h % 0x8000);
    SubnormalFields(Sign16(h), Fraction16(h));
  }

  /** The fields of a binary16 encoding, as the reference reads them. */
  lemma HalfFields(h: Uint16)
    ensures Sign16(h) < 2
    ensures Fp16ToFp32Reference(h) == Sign16(h) * 0x8000_0000 + MagnitudeReference(h % 0x8000)
    ensures (h % 0x8000) / 0x400 == Exponent16(h) && (h % 0x8000) % 0x400 == Fraction16(h)
  {
    var s, m := h / 0x8000, h % 0x8000;
    var e, f := m / 0x400, m % 0x400;
    DivExact(h as int, 0x400, s * 0x20 + e, f);
    DivExact(s * 0x20 + e, 0x20, s, e);
  }

  /** The reference for a nonzero exponent, infinite and NaN or normal, field by field. */
  lemma NormalOrInfNanFields(s: nat, m: nat)
    requires s < 2 && 0x400 <= m < 0x8000
    ensures s * 0x8000_0000 + MagnitudeReference(m) < TwoPow32
    ensures Sign32(s * 0x8000_0000 + MagnitudeReference(m)) == s
    ensures Exponent32(s * 0x8000_0000 + MagnitudeReference(m))
         == (if m / 0x400 == 0x1F then 0xFF else m / 0x400 + 0x70)
    ensures Fraction32(s * 0x8000_0000 + MagnitudeReference(m)) == (m % 0x400) * 0x2000
  {
    var e, f := m / 0x400, m % 0x400;
    var E := if e == 0x1F then 0xFF else e + 0x70;
    assert MagnitudeReference(m) == E * 0x80_0000 + f * 0x2000;
    FieldsOf(s, E, f * 0x2000);
  }

  lemma SubnormalFields(s: nat, f: nat)
    requires s < 2 && 0 < f < 0x400
    ensures 1 <= BitLength(f) <= 10
    ensures SubnormalAsNormal(f) < 0x8000_0000
    ensures Exponent32(s * 0x8000_0000 + SubnormalAsNormal(f)) == BitLength(f) + 102
    ensures Fraction32(s * 0x8000_0000 + SubnormalAsNormal(f)) == SubnormalFraction(f)
    ensures Sign32(s * 0x8000_0000 + SubnormalAsNormal(f)) == s
  {
    SubnormalLength(f);
    FieldsOf(s, BitLength(f) + 102, SubnormalFraction(f));
  }

  lemma FractionBelow(frac: nat, lead: nat, scale: nat)
    requires frac < lead && lead * scale == 0x80_0000
    ensures frac * scale < 0x80_0000
  {
    MulLe(frac + 1, lead, scale);
  }

  /** Bit 31 of the result is bit 15 of the input. */
  lemma SignPreserved(h: Uint16)
    ensures Fp16ToFp32Bits(h) < TwoPow32
    ensures Sign32(Fp16ToFp32Bits(h)) == Sign16(h)
  {
    Fp16ToFp32BitsMatchesReference(h);
    ReferenceFields(h);
  }

  /** ±0 map to ±0: only the sign bit survives. */
  lemma ZerosPreserved(h: Uint16)
    requires h % 0x8000 == 0
    ensures Fp16ToFp32Bits(h) == Sign16(h) * 0x8000_0000
  {
    Fp16ToFp32BitsMatchesReference(h);
    HalfFields(h);
    assert MagnitudeReference(0) == 0;
  }

  /** Infinities and NaNs: exponent all ones, the fraction moved up by 13,
      so an infinity stays an infinity and a NaN stays a NaN. */
  lemma InfNanPreserved(h: Uint16)
    requires Exponent16(h) == 0x1F
    ensures Exponent32(Fp16ToFp32Bits(h)) == 0xFF
    ensures Fraction32(Fp16ToFp32Bits(h)) == Fraction16(h) * 0x2000
    ensures Fraction32(Fp16ToFp32Bits(h)) == 0 <==> Fraction16(h) == 0
  {
    Fp16ToFp32BitsMatchesReference(h);
    ReferenceFields(h);
  }

  /** Normal numbers: the exponent is rebiased by 0x70 (127 - 15), the
      fraction moved up by 13. */
  lemma NormalRebiased(h: Uint16)
    requires 0 < Exponent16(h) < 0x1F
    ensures Exponent32(Fp16ToFp32Bits(h)) == Exponent16(h) + 0x70
    ensures Fraction32(Fp16ToFp32Bits(h)) == Fraction16(h) * 0x2000
  {
    Fp16ToFp32BitsMatchesReference(h);
    ReferenceFields(h);
  }

  /** Subnormal numbers become normal binary32 numbers. */
  lemma SubnormalRenormalised(h: Uint16)
    requires Exponent16(h) == 0 && Fraction16(h) != 0
    ensures 103 <= Exponent32(Fp16ToFp32Bits(h)) <= 112
  {
    Fp16ToFp32BitsMatchesReference(h);
    ReferenceFields(h);
  }

  /** The worked example next to the code: 32, the subnormal 2^-19, becomes
      0x36000000 (exponent 108, fraction 0). */
  lemma SubnormalExample()
    ensures Fp16ToFp32Bits(32) == 0x3600_0000
  {
    Fp16ToFp32BitsMatchesReference(32);
    ReferenceExample();
  }

  lemma ReferenceExample()
    ensures Fp16ToFp32Reference(32) == 0x3600_0000
  {
    HalfFields(32);
    ReferenceOfSubnormal(32);
    SubnormalOf32();
  }

  /** 32 = 2^5 has six significant bits and nothing below its leading one. */
  lemma SubnormalOf32()
    ensures BitLength(32) == 6 && SubnormalFraction(32) == 0
  {
    var n := BitLength(32);
    assert Pow2(5) == 32 && Pow2(6) == 64;
    Pow2StrictlyMonotone(n - 1, 6);
    Pow2StrictlyMonotone(4, n);
  }

  /** Every finite input keeps its value: the result is finite, has the same
      sign, and denotes the same magnitude (2^149 times the binary32 value
      equals 2^125 times 2^24 times the binary16 value). */
  lemma ValuePreserved(h: Uint16)
    requires Exponent16(h) != 0x1F
    ensures Exponent32(Fp16ToFp32Bits(h)) != 0xFF
    ensures Sign32(Fp16ToFp32Bits(h)) == Sign16(h)
    ensures Scaled32(Fp16ToFp32Bits(h)) == Scaled16(h) * Pow2(125)
  {
    Fp16ToFp32BitsMatchesReference(h);
    ReferenceValue(h);
  }

  lemma ReferenceValue(h: Uint16)
    requires Exponent16(h) != 0x1F
    ensures Exponent32(Fp16ToFp32Reference(h)) != 0xFF
    ensures Sign32(Fp16ToFp32Reference(h)) == Sign16(h)
    ensures Scaled32(Fp16ToFp32Reference(h)) == Scaled16(h) * Pow2(125)
  {
    ReferenceFields(h);
    ReferenceScaled(h);
  }

  /** The magnitude part of `ReferenceValue`, case by case. */
  lemma ReferenceScaled(h: Uint16)
    requires Exponent16(h) != 0x1F
    ensures Scaled32(Fp16ToFp32Reference(h)) == Scaled16(h) * Pow2(125)
  {
    if Exponent16(h) != 0 {
      NormalScaled(h);
    } else if Fraction16(h) == 0 {
      ZeroScaled(h);
    } else {
      SubnormalScaled(h);
    }
  }

  lemma ZeroScaled(h: Uint16)
    requires Exponent16(h) == 0 && Fraction16(h) == 0
    ensures Scaled32(Fp16ToFp32Reference(h)) == 0 == Scaled16(h)
  {
    ReferenceFields(h);
  }

  lemma NormalScaled(h: Uint16)
    requires 0 < Exponent16(h) < 0x1F
    ensures Scaled32(Fp16ToFp32Reference(h)) == Scaled16(h) * Pow2(125)
  {
    ReferenceFields(h);
    var e, f := Exponent16(h), Fraction16(h);
    var x := Fp16ToFp32Reference(h);
    assert Scaled32(x) == (0x80_0000 + f * 0x2000) * Pow2(e + 0x70 - 1);
    assert Scaled16(h) == (0x400 + f) * Pow2(e - 1);
    NormalValue(e, f);
  }

  lemma SubnormalScaled(h: Uint16)
    requires Exponent16(h) == 0 && Fraction16(h) != 0
    ensures Scaled32(Fp16ToFp32Reference(h)) == Scaled16(h) * Pow2(125)
  {
    ReferenceFields(h);
    var f := Fraction16(h);
    var x := Fp16ToFp32Reference(h);
    assert Scaled32(x) == (0x80_0000 + SubnormalFraction(f)) * Pow2(BitLength(f) + 101);
    SubnormalValue(f);
  }

  lemma NormalValue(e: nat, f: nat)
    requires 0 < e < 0x1F && f < 0x400
    ensures (0x80_0000 + f * 0x2000) * Pow2(e + 0x70 - 1) == (0x400 + f) * Pow2(e - 1) * Pow2(125)
  {
    Pow2Add(13, e + 111);
    Pow2Add(e - 1, 125);
    SmallPowers13();
    ScaleArith(f, Pow2(e + 111), Pow2(e - 1), Pow2(125));
  }

  lemma SmallPowers13()
    ensures Pow2(13) == 0x2000
  {
    Pow2Table();
  }

  lemma ScaleArith(f: nat, a: nat, b: nat, c: nat)
    requires 0x2000 * a == b * c
    ensures (0x80_0000 + f * 0x2000) * a == (0x400 + f) * b * c
  {
    assert 0x80_0000 + f * 0x2000 == (0x400 + f) * 0x2000;
    assert (0x400 + f) * 0x2000 * a == (0x400 + f) * (0x2000 * a);
    assert (0x400 + f) * b * c == (0x400 + f) * (b * c);
  }

  lemma SubnormalValue(f: nat)
    requires 0 < f < 0x400
    ensures 1 <= BitLength(f) <= 10
    ensures (0x80_0000 + SubnormalFraction(f)) * Pow2(BitLength(f) + 101) == f * Pow2(125)
  {
    SplitSubnormal(f);
    var n := BitLength(f);
    Pow2Add(24 - n, n + 101);
    Assoc(f, Pow2(24 - n), Pow2(n + 101));
  }

  lemma Assoc(a: nat, b: nat, c: nat)
    ensures a * b * c == a * (b * c)
  {
  }
}
