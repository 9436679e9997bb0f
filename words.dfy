/** Unsigned machine words as natural numbers, with the bitwise operators the
    C++ code applies to them. Bit `i` of `x` is `(x / 2^i) % 2`. */
module Words {
  import opened BitsUtil

  /** Bit `i` of `x` is set. */
  predicate Bit(x: nat, i: nat) {
    (x / Pow2(i)) % 2 == 1
  }

  /** `a & b`. */
  function And(a: nat, b: nat): (r: nat)
    ensures r <= a && r <= b
    decreases a
  {
    if a == 0 || b == 0 then 0
    else 2 * And(a / 2, b / 2) + (if a % 2 == 1 && b % 2 == 1 then 1 else 0)
  }

  /** `a | b`. */
  function Or(a: nat, b: nat): (r: nat)
    ensures a <= r && b <= r && r <= a + b
    decreases a + b
  {
    if a == 0 then b
    else if b == 0 then a
    else 2 * Or(a / 2, b / 2) + (if a % 2 == 1 || b % 2 == 1 then 1 else 0)
  }

  /** `a ^ b`. */
  function Xor(a: nat, b: nat): (r: nat)
    ensures r <= a + b
    decreases a + b
  {
    if a == 0 then b
    else if b == 0 then a
    else 2 * Xor(a / 2, b / 2) + (if a % 2 != b % 2 then 1 else 0)
  }

  lemma BitZeroWord(i: nat)
    ensures !Bit(0, i)
  {
  }

  lemma BitLow(x: nat)
    ensures Bit(x, 0) <==> x % 2 == 1
  {
  }

  /** Bit `i + 1` of `x` is bit `i` of `x >> 1`. */
  lemma BitOfHalf(x: nat, i: nat)
    ensures Bit(x, i + 1) <==> Bit(x / 2, i)
  {
    DivTwice(x, Pow2(i));
  }

  /** A word below `2^w` has no bit at `w` or above. */
  lemma {:induction false} BitAbove(x: nat, w: nat, i: nat)
    requires x < Pow2(w) && i >= w
    ensures !Bit(x, i)
  {
    if i == 0 {
    } else if w == 0 {
      assert x == 0;
      BitZeroWord(i);
    } else {
      BitOfHalf(x, i - 1);
      BitAbove(x / 2, w - 1, i - 1);
    }
  }

  /** Words below `2^w` with the same bits below `w` are equal. */
  lemma {:induction false} BitsEqual(a: nat, b: nat, w: nat)
    requires a < Pow2(w) && b < Pow2(w)
    requires forall i :: 0 <= i < w ==> (Bit(a, i) <==> Bit(b, i))
    ensures a == b
  {
    if w > 0 {
      BitLow(a);
      BitLow(b);
      forall i | 0 <= i < w - 1
        ensures Bit(a / 2, i) <==> Bit(b / 2, i)
      {
        BitOfHalf(a, i);
        BitOfHalf(b, i);
      }
      BitsEqual(a / 2, b / 2, w - 1);
    }
  }

  /** `(a & b) >> 1 == (a >> 1) & (b >> 1)`, and the low bit of `a & b`. */
  lemma AndHalf(a: nat, b: nat)
    ensures And(a, b) / 2 == And(a / 2, b / 2)
    ensures And(a, b) % 2 == (if a % 2 == 1 && b % 2 == 1 then 1 else 0)
  {
    if a != 0 && b != 0 {
      DivExact(And(a, b), 2, And(a / 2, b / 2), if a % 2 == 1 && b % 2 == 1 then 1 else 0);
    }
  }

  /** `(a | b) >> 1 == (a >> 1) | (b >> 1)`, and the low bit of `a | b`. */
  lemma OrHalf(a: nat, b: nat)
    ensures Or(a, b) / 2 == Or(a / 2, b / 2)
    ensures Or(a, b) % 2 == (if a % 2 == 1 || b % 2 == 1 then 1 else 0)
  {
    if a == 0 {
      assert Or(a / 2, b / 2) == b / 2;
    } else if b == 0 {
      assert Or(a / 2, b / 2) == a / 2;
    } else {
      DivExact(Or(a, b), 2, Or(a / 2, b / 2), if a % 2 == 1 || b % 2 == 1 then 1 else 0);
    }
  }

  /** `(a ^ b) >> 1 == (a >> 1) ^ (b >> 1)`, and the low bit of `a ^ b`. */
  lemma XorHalf(a: nat, b: nat)
    ensures Xor(a, b) / 2 == Xor(a / 2, b / 2)
    ensures Xor(a, b) % 2 == (if a % 2 != b % 2 then 1 else 0)
  {
    if a == 0 {
      assert Xor(a / 2, b / 2) == b / 2;
    } else if b == 0 {
      assert Xor(a / 2, b / 2) == a / 2;
    } else {
      DivExact(Xor(a, b), 2, Xor(a / 2, b / 2), if a % 2 != b % 2 then 1 else 0);
    }
  }

  lemma {:induction false} BitAnd(a: nat, b: nat, i: nat)
    ensures Bit(And(a, b), i) <==> Bit(a, i) && Bit(b, i)
    decreases i
  {
    var c := And(a, b);
    AndHalf(a, b);
    if i == 0 {
      BitLow(a);
      BitLow(b);
      BitLow(c);
    } else {
      BitOfHalf(a, i - 1);
      BitOfHalf(b, i - 1);
      BitOfHalf(c, i - 1);
      BitAnd(a / 2, b / 2, i - 1);
    }
  }

  lemma {:induction false} BitOr(a: nat, b: nat, i: nat)
    ensures Bit(Or(a, b), i) <==> Bit(a, i) || Bit(b, i)
    decreases i
  {
    var c := Or(a, b);
    OrHalf(a, b);
    if i == 0 {
      BitLow(a);
      BitLow(b);
      BitLow(c);
    } else {
      BitOfHalf(a, i - 1);
      BitOfHalf(b, i - 1);
      BitOfHalf(c, i - 1);
      BitOr(a / 2, b / 2, i - 1);
    }
  }

  lemma {:induction false} BitXor(a: nat, b: nat, i: nat)
    ensures Bit(Xor(a, b), i) <==> (Bit(a, i) != Bit(b, i))
    decreases i
  {
    var c := Xor(a, b);
    XorHalf(a, b);
    if i == 0 {
      BitLow(a);
      BitLow(b);
      BitLow(c);
    } else {
      BitOfHalf(a, i - 1);
      BitOfHalf(b, i - 1);
      BitOfHalf(c, i - 1);
      BitXor(a / 2, b / 2, i - 1);
    }
  }

  /** `~x` flips every bit below the width. */
  lemma {:induction false} BitComplement(w: nat, x: nat, i: nat)
    requires x < Pow2(w) && i < w
    ensures Bit(Complement(w, x), i) <==> !Bit(x, i)
    decreases i
  {
    var c := Complement(w, x);
    assert Pow2(w) == 2 * Pow2(w - 1);
    if i == 0 {
      BitLow(x);
      BitLow(c);
    } else {
      BitOfHalf(x, i - 1);
      BitOfHalf(c, i - 1);
      assert c / 2 == Complement(w - 1, x / 2);
      BitComplement(w - 1, x / 2, i - 1);
    }
  }

  /** `2^k - 1` has exactly the bits below `k`. */
  lemma {:induction false} BitLowMask(k: nat, i: nat)
    ensures Bit(Pow2(k) - 1, i) <==> i < k
    decreases i
  {
    if k == 0 {
      BitZeroWord(i);
    } else {
      var m: nat := Pow2(k) - 1;
      assert Pow2(k) == 2 * Pow2(k - 1);
      assert m % 2 == 1 && m / 2 == Pow2(k - 1) - 1;
      if i == 0 {
        BitLow(m);
      } else {
        BitOfHalf(m, i - 1);
        BitLowMask(k - 1, i - 1);
      }
    }
  }

  /** `1 << k` has exactly bit `k`. */
  lemma {:induction false} BitSingle(k: nat, i: nat)
    ensures Bit(Pow2(k), i) <==> i == k
    decreases i
  {
    if i == 0 {
      BitLow(Pow2(k));
      if k > 0 {
        assert Pow2(k) == 2 * Pow2(k - 1);
      }
    } else if k == 0 {
      BitOfHalf(1, i - 1);
      BitZeroWord(i - 1);
    } else {
      BitOfHalf(Pow2(k), i - 1);
      assert Pow2(k) / 2 == Pow2(k - 1);
      BitSingle(k - 1, i - 1);
    }
  }

  lemma {:induction false} AndBound(a: nat, b: nat, w: nat)
    requires a < Pow2(w) || b < Pow2(w)
    ensures And(a, b) < Pow2(w)
  {
  }

  lemma {:induction false} OrBound(a: nat, b: nat, w: nat)
    requires a < Pow2(w) && b < Pow2(w)
    ensures Or(a, b) < Pow2(w)
    decreases a + b
  {
    if a != 0 && b != 0 && w > 0 {
      OrBound(a / 2, b / 2, w - 1);
    }
  }

  lemma {:induction false} XorBound(a: nat, b: nat, w: nat)
    requires a < Pow2(w) && b < Pow2(w)
    ensures Xor(a, b) < Pow2(w)
    decreases a + b
  {
    if a != 0 && b != 0 && w > 0 {
      XorBound(a / 2, b / 2, w - 1);
    }
  }

  /** Two words are disjoint when no bit is set in both. */
  lemma {:induction false} OrDisjointIsSum(a: nat, b: nat)
    requires And(a, b) == 0
    ensures Or(a, b) == a + b
    decreases a + b
  {
    if a != 0 && b != 0 {
      OrDisjointIsSum(a / 2, b / 2);
    }
  }

  lemma AndMembers(a: nat, b: nat)
    ensures forall i: nat :: Bit(And(a, b), i) <==> Bit(a, i) && Bit(b, i)
  {
    forall i: nat ensures Bit(And(a, b), i) <==> Bit(a, i) && Bit(b, i) {
      BitAnd(a, b, i);
    }
  }

  lemma OrMembers(a: nat, b: nat)
    ensures forall i: nat :: Bit(Or(a, b), i) <==> Bit(a, i) || Bit(b, i)
  {
    forall i: nat ensures Bit(Or(a, b), i) <==> Bit(a, i) || Bit(b, i) {
      BitOr(a, b, i);
    }
  }

  lemma XorMembers(a: nat, b: nat)
    ensures forall i: nat :: Bit(Xor(a, b), i) <==> (Bit(a, i) != Bit(b, i))
  {
    forall i: nat ensures Bit(Xor(a, b), i) <==> (Bit(a, i) != Bit(b, i)) {
      BitXor(a, b, i);
    }
  }

  /** Bits of `~x` on a `w`-bit word: the flipped bits below `w`, nothing above. */
  lemma ComplementMembers(w: nat, x: nat)
    requires x < Pow2(w)
    ensures forall i: nat :: Bit(Complement(w, x), i) <==> i < w && !Bit(x, i)
  {
    forall i: nat ensures Bit(Complement(w, x), i) <==> i < w && !Bit(x, i) {
      if i < w {
        BitComplement(w, x, i);
      } else {
        BitAbove(Complement(w, x), w, i);
      }
    }
  }

  /** `(1 << k) - 1`. */
  function Ones(k: nat): nat {
    Pow2(k) - 1
  }

  lemma LowMaskMembers(k: nat)
    ensures forall i: nat :: Bit(Ones(k), i) <==> i < k
  {
    forall i: nat ensures Bit(Ones(k), i) <==> i < k {
      BitLowMask(k, i);
      assert Ones(k) == Pow2(k) - 1;
    }
  }

  lemma SingleMembers(k: nat)
    ensures forall i: nat :: Bit(Pow2(k), i) <==> i == k
  {
    forall i: nat ensures Bit(Pow2(k), i) <==> i == k {
      BitSingle(k, i);
    }
  }

  /** No bit at or above the width. */
  lemma NoMembersAbove(x: nat, w: nat)
    requires x < Pow2(w)
    ensures forall i: nat :: i >= w ==> !Bit(x, i)
  {
    forall i: nat | i >= w ensures !Bit(x, i) {
      BitAbove(x, w, i);
    }
  }

  /** Words below `2^w` are equal exactly when they have the same bits. */
  lemma SameMembers(a: nat, b: nat, w: nat)
    requires a < Pow2(w) && b < Pow2(w)
    requires forall i: nat :: Bit(a, i) <==> Bit(b, i)
    ensures a == b
  {
    BitsEqual(a, b, w);
  }

  /** A word is zero exactly when it has no bit set. */
  lemma ZeroMembers(x: nat, w: nat)
    requires x < Pow2(w)
    ensures x == 0 <==> forall i: nat :: !Bit(x, i)
  {
    if forall i: nat :: !Bit(x, i) {
      forall i: nat ensures Bit(x, i) <==> Bit(0, i) {
        BitZeroWord(i);
      }
      BitsEqual(x, 0, w);
    }
    if x == 0 {
      forall i: nat ensures !Bit(x, i) {
        BitZeroWord(i);
      }
    }
  }

  /** Number of bits of `x`: the 1-based index of its highest set bit, 0 for 0. */
  function BitLength(x: nat): (r: nat)
    ensures x == 0 <==> r == 0
    ensures r > 0 ==> Pow2(r - 1) <= x < Pow2(r)
  {
    if x == 0 then 0 else 1 + BitLength(x / 2)
  }

  /** The bit-level reading of `BitLength`: bit `r - 1` is set and none above it. */
  lemma BitLengthMembers(x: nat, w: nat)
    requires x < Pow2(w)
    ensures BitLength(x) <= w
    ensures BitLength(x) > 0 ==> Bit(x, BitLength(x) - 1)
    ensures forall i: nat :: i >= BitLength(x) ==> !Bit(x, i)
  {
    var r := BitLength(x);
    if r > 0 {
      assert x / Pow2(r - 1) == 1 by {
        Pow2Add(r - 1, 1);
        DivExact(x, Pow2(r - 1), 1, x - Pow2(r - 1));
      }
    }
    NoMembersAbove(x, r);
  }

  /** Two different single bits share no bit. */
  lemma {:induction false} SinglesDisjoint(f: nat, b: nat)
    requires f != b
    ensures And(Pow2(f), Pow2(b)) == 0
    decreases f
  {
    if f == 0 {
      assert Pow2(b) % 2 == 0;
    } else if b == 0 {
      assert Pow2(f) % 2 == 0;
    } else {
      assert Pow2(f) / 2 == Pow2(f - 1) && Pow2(f) % 2 == 0;
      assert Pow2(b) / 2 == Pow2(b - 1) && Pow2(b) % 2 == 0;
      SinglesDisjoint(f - 1, b - 1);
    }
  }

  /** Two different single bits add up to their union. */
  lemma SingleBitsSum(f: nat, b: nat, w: nat)
    requires f != b && f < w && b < w
    ensures Pow2(f) + Pow2(b) == Or(Pow2(f), Pow2(b)) < Pow2(w)
  {
    var x, y := Pow2(f), Pow2(b);
    Pow2StrictlyMonotone(f, w);
    Pow2StrictlyMonotone(b, w);
    SinglesDisjoint(f, b);
    OrDisjointIsSum(x, y);
    OrBound(x, y, w);
  }

  /** The members of the sum of two different single bits. */
  lemma TwoBitsMembers(x: nat, f: nat, b: nat, w: nat)
    requires f != b && f < w && b < w && x == Pow2(f) + Pow2(b)
    ensures x < Pow2(w)
    ensures forall i: nat :: Bit(x, i) <==> i == f || i == b
  {
    SingleBitsSum(f, b, w);
    forall i: nat
      ensures Bit(x, i) <==> i == f || i == b
    {
      BitOr(Pow2(f), Pow2(b), i);
      BitSingle(f, i);
      BitSingle(b, i);
    }
  }

  /** `A * 2^k` is twice `A * 2^(k-1)`. */
  lemma MulPow2Step(A: nat, k: nat)
    requires k > 0
    ensures A * Pow2(k) == 2 * (A * Pow2(k - 1))
  {
  }

  /** One step of `&`: the low bit, and the rest shifted right by one. */
  lemma AndStep(x: nat, y: nat)
    ensures And(x, y) == 2 * And(x / 2, y / 2) + (if x % 2 == 1 && y % 2 == 1 then 1 else 0)
  {
  }

  /** One step of `|`: the low bit, and the rest shifted right by one. */
  lemma OrStep(x: nat, y: nat)
    ensures Or(x, y) == 2 * Or(x / 2, y / 2) + (if x % 2 == 1 || y % 2 == 1 then 1 else 0)
  {
    if x == 0 {
      assert Or(x / 2, y / 2) == y / 2;
    } else if y == 0 {
      assert Or(x / 2, y / 2) == x / 2;
    }
  }

  /** `a << k`, doubling `k` times: a shift that stays linear. */
  function Shl(a: nat, k: nat): nat {
    if k == 0 then a else 2 * Shl(a, k - 1)
  }

  lemma {:induction false} ShlIsMul(a: nat, k: nat)
    ensures Shl(a, k) == a * Pow2(k)
  {
    if k > 0 {
      ShlIsMul(a, k - 1);
      MulPow2Step(a, k);
    }
  }

  /** Halving `(a << k) + b` (with `b < 2^k`, `k > 0`) halves the low part. */
  lemma ShlHalf(a: nat, b: nat, k: nat)
    requires k > 0 && b < Pow2(k)
    ensures (Shl(a, k) + b) / 2 == Shl(a, k - 1) + b / 2
    ensures (Shl(a, k) + b) % 2 == b % 2
    ensures b / 2 < Pow2(k - 1)
  {
  }

  /** `&` on `x == (a << k) + b` and `y == (c << k) + d` with `b, d < 2^k`. */
  lemma {:induction false} AndShlSplit(x: nat, y: nat, a: nat, b: nat, c: nat, d: nat, k: nat)
    requires b < Pow2(k) && d < Pow2(k) && x == Shl(a, k) + b && y == Shl(c, k) + d
    ensures And(x, y) == Shl(And(a, c), k) + And(b, d)
    decreases k
  {
    if k > 0 {
      ShlHalf(a, b, k);
      ShlHalf(c, d, k);
      var xh, yh := x / 2, y / 2;
      AndShlSplit(xh, yh, a, b / 2, c, d / 2, k - 1);
      AndStep(x, y);
      AndStep(b, d);
      assert x % 2 == b % 2 && y % 2 == d % 2;
      assert Shl(And(a, c), k) == 2 * Shl(And(a, c), k - 1);
    }
  }

  /** `|` on `x == (a << k) + b` and `y == (c << k) + d` with `b, d < 2^k`. */
  lemma {:induction false} OrShlSplit(x: nat, y: nat, a: nat, b: nat, c: nat, d: nat, k: nat)
    requires b < Pow2(k) && d < Pow2(k) && x == Shl(a, k) + b && y == Shl(c, k) + d
    ensures Or(x, y) == Shl(Or(a, c), k) + Or(b, d)
    decreases k
  {
    if k > 0 {
      ShlHalf(a, b, k);
      ShlHalf(c, d, k);
      var xh, yh := x / 2, y / 2;
      OrShlSplit(xh, yh, a, b / 2, c, d / 2, k - 1);
      OrStep(x, y);
      OrStep(b, d);
      assert x % 2 == b % 2 && y % 2 == d % 2;
      assert Shl(Or(a, c), k) == 2 * Shl(Or(a, c), k - 1);
    }
  }

  /** `&` works separately above and below bit `k`. */
  lemma AndSplit(a: nat, b: nat, c: nat, d: nat, k: nat)
    requires b < Pow2(k) && d < Pow2(k)
    ensures And(a * Pow2(k) + b, c * Pow2(k) + d) == And(a, c) * Pow2(k) + And(b, d)
  {
    var x: nat, y: nat := a * Pow2(k) + b, c * Pow2(k) + d;
    ShlIsMul(a, k);
    ShlIsMul(c, k);
    ShlIsMul(And(a, c), k);
    AndShlSplit(x, y, a, b, c, d, k);
  }

  /** `|` works separately above and below bit `k`. */
  lemma OrSplit(a: nat, b: nat, c: nat, d: nat, k: nat)
    requires b < Pow2(k) && d < Pow2(k)
    ensures Or(a * Pow2(k) + b, c * Pow2(k) + d) == Or(a, c) * Pow2(k) + Or(b, d)
  {
    var x: nat, y: nat := a * Pow2(k) + b, c * Pow2(k) + d;
    ShlIsMul(a, k);
    ShlIsMul(c, k);
    ShlIsMul(Or(a, c), k);
    OrShlSplit(x, y, a, b, c, d, k);
  }

  /** `(s << k) + lo` masked with `2^k - 1` keeps the low part. */
  lemma AndLowPart(x: nat, s: nat, lo: nat, k: nat)
    requires lo < Pow2(k) && x == s * Pow2(k) + lo
    ensures And(x, Pow2(k) - 1) == lo
  {
    ShlIsMul(s, k);
    AndLowShl(x, s, lo, k);
  }

  lemma {:induction false} AndLowShl(x: nat, s: nat, lo: nat, k: nat)
    requires lo < Pow2(k) && x == Shl(s, k) + lo
    ensures And(x, Ones(k)) == lo
    decreases k
  {
    if k > 0 {
      ShlHalf(s, lo, k);
      AndLowShl(x / 2, s, lo / 2, k - 1);
      assert Ones(k) / 2 == Ones(k - 1) && Ones(k) % 2 == 1;
      AndStep(x, Ones(k));
    }
  }

  /** `(s << k) + lo` masked with bit `k` keeps that bit, for `s` below 2. */
  lemma AndBitPart(x: nat, s: nat, lo: nat, k: nat)
    requires s < 2 && lo < Pow2(k) && x == s * Pow2(k) + lo
    ensures And(x, Pow2(k)) == s * Pow2(k)
  {
    ShlIsMul(s, k);
    AndBitShl(x, s, lo, k);
  }

  lemma {:induction false} AndBitShl(x: nat, s: nat, lo: nat, k: nat)
    requires s < 2 && lo < Pow2(k) && x == Shl(s, k) + lo
    ensures And(x, Pow2(k)) == Shl(s, k)
    decreases k
  {
    if k == 0 {
      assert x == s;
    } else {
      ShlHalf(s, lo, k);
      AndBitShl(x / 2, s, lo / 2, k - 1);
      assert Pow2(k) / 2 == Pow2(k - 1) && Pow2(k) % 2 == 0;
      AndStep(x, Pow2(k));
    }
  }

  /** `x & x` is `x`. */
  lemma {:induction false} AndSelf(x: nat)
    ensures And(x, x) == x
  {
    if x > 0 {
      AndSelf(x / 2);
    }
  }

  /** `x | (2^k - 1)` is the mask itself for a word below `2^k`. */
  lemma OrLowMask(x: nat, k: nat)
    requires x < Pow2(k)
    ensures Or(x, Pow2(k) - 1) == Pow2(k) - 1
  {
    OrBound(x, Pow2(k) - 1, k);
    LowMaskMembers(k);
    OrMembers(x, Ones(k));
    NoMembersAbove(x, k);
    SameMembers(Or(x, Pow2(k) - 1), Pow2(k) - 1, k);
  }

  /** `x & (2^k - 1)` keeps a word below `2^k` as it is. */
  lemma AndLowMask(x: nat, k: nat)
    requires x < Pow2(k)
    ensures And(x, Pow2(k) - 1) == x
  {
    AndBound(x, Pow2(k) - 1, k);
    LowMaskMembers(k);
    AndMembers(x, Ones(k));
    NoMembersAbove(x, k);
    SameMembers(And(x, Pow2(k) - 1), x, k);
  }
}
