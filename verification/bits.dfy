/**
  Python's bitwise operators on non-negative integers, and the facts about
  them the codec relies on: a low mask is a remainder, a shift is a
  multiplication or a floor division by a power of two, and OR of values
  with no common bit is their sum.
*/
module Bits {

  /** An element of a Python `bytearray`. */
  type Byte = x: int | 0 <= x < 256

  function Pow2(k: nat): (r: nat)
    ensures r > 0
  {
    if k == 0 then 1 else 2 * Pow2(k - 1)
  }

  /** `a << k` */
  function ShiftLeft(a: nat, k: nat): nat {
    if k == 0 then a else 2 * ShiftLeft(a, k - 1)
  }

  /** `a >> k` on a non-negative integer: drop the `k` lowest bits. */
  function ShiftRight(a: nat, k: nat): nat {
    if k == 0 then a else ShiftRight(a / 2, k - 1)
  }

  /** `a & b`, bit by bit from the least significant end. */
  function BitAnd(a: nat, b: nat): nat
    decreases a
  {
    if a == 0 || b == 0 then 0
    else 2 * BitAnd(a / 2, b / 2) + (if a % 2 == 1 && b % 2 == 1 then 1 else 0)
  }

  /** `a | b`, bit by bit from the least significant end. */
  function BitOr(a: nat, b: nat): nat
    decreases a + b
  {
    if a == 0 then b
    else if b == 0 then a
    else 2 * BitOr(a / 2, b / 2) + (if a % 2 == 1 || b % 2 == 1 then 1 else 0)
  }

  /** Bit `k` of `a`, counting from the least significant bit. */
  function BitAt(a: nat, k: nat): nat {
    ShiftRight(a, k) % 2
  }

  // ---------------------------------------------------------------------
  // Arithmetic meaning of the shifts

  /** A product with a factor of at least one is at least the other factor. */
  lemma {:induction false} MulAtLeast(t: int, d: int)
    requires t >= 1 && d > 0
    ensures t * d >= d
    decreases t
  {
    if t > 1 {
      MulAtLeast(t - 1, d);
      assert t * d == (t - 1) * d + d;
    }
  }

  /** Quotient and remainder are unique. */
  lemma DivUnique(x: int, d: int, q: int, rem: int)
    requires d > 0 && 0 <= rem < d && x == q * d + rem
    ensures x / d == q && x % d == rem
  {
    var q', r' := x / d, x % d;
    assert x == q' * d + r';
    assert (q - q') * d == r' - rem;
    if q > q' {
      MulAtLeast(q - q', d);
    } else if q < q' {
      MulAtLeast(q' - q, d);
    }
  }

  /** Halving, then dividing by `p`, is dividing by `2 * p`. */
  lemma DivHalf(x: nat, p: nat)
    requires p > 0
    ensures (x / 2) / p == x / (2 * p)
  {
    var q, r := (x / 2) / p, (x / 2) % p;
    assert x / 2 == q * p + r;
    assert x == q * (2 * p) + (2 * r + x % 2);
    DivUnique(x, 2 * p, q, 2 * r + x % 2);
  }

  /** The remainder modulo `2 * p` is built from the remainder of the half modulo `p` and the lowest bit. */
  lemma ModDouble(x: nat, p: nat)
    requires p > 0
    ensures x % (2 * p) == 2 * ((x / 2) % p) + x % 2
  {
    var q, r := (x / 2) / p, (x / 2) % p;
    assert x / 2 == q * p + r;
    assert x == q * (2 * p) + (2 * r + x % 2);
    DivUnique(x, 2 * p, q, 2 * r + x % 2);
  }

  /** `a << k` is `a * 2**k`. */
  lemma {:induction false} ShiftLeftIsMul(a: nat, k: nat)
    ensures ShiftLeft(a, k) == a * Pow2(k)
  {
    if k > 0 {
      ShiftLeftIsMul(a, k - 1);
      assert a * Pow2(k) == 2 * (a * Pow2(k - 1));
    }
  }

  /** `a >> k` is `a / 2**k`. */
  lemma {:induction false} ShiftRightIsDiv(a: nat, k: nat)
    ensures ShiftRight(a, k) == a / Pow2(k)
  {
    if k > 0 {
      ShiftRightIsDiv(a / 2, k - 1);
      DivHalf(a, Pow2(k - 1));
    }
  }

  /** Shifting right by one more place halves the result. */
  lemma {:induction false} ShiftRightLast(a: nat, k: nat)
    ensures ShiftRight(a, k + 1) == ShiftRight(a, k) / 2
  {
    if k > 0 {
      ShiftRightLast(a / 2, k - 1);
    }
  }

  /** A value below 2**k has nothing left after shifting right by `k`. */
  lemma {:induction false} ShiftRightOfSmall(a: nat, k: nat)
    requires a < Pow2(k)
    ensures ShiftRight(a, k) == 0
  {
    if k > 0 {
      ShiftRightOfSmall(a / 2, k - 1);
    }
  }

  /** Shifting zero either way gives zero. */
  lemma {:induction false} ShiftOfZero(k: nat)
    ensures ShiftLeft(0, k) == 0 && ShiftRight(0, k) == 0
  {
    if k > 0 {
      ShiftOfZero(k - 1);
    }
  }

  /** A left shift is undone by the right shift of the same amount. */
  lemma {:induction false} ShiftRightOfShiftLeft(z: nat, k: nat)
    ensures ShiftRight(ShiftLeft(z, k), k) == z
  {
    if k > 0 {
      ShiftRightOfShiftLeft(z, k - 1);
      assert ShiftLeft(z, k) / 2 == ShiftLeft(z, k - 1);
    }
  }

  // ---------------------------------------------------------------------
  // AND

  lemma {:induction false} BitAndCommutes(a: nat, b: nat)
    ensures BitAnd(a, b) == BitAnd(b, a)
    decreases a
  {
    if a != 0 && b != 0 {
      BitAndCommutes(a / 2, b / 2);
    }
  }

  /** An odd mask keeps the lowest bit and masks the rest one place down. */
  lemma OddMaskStep(a: nat, m: nat)
    ensures BitAnd(a, 2 * m + 1) == 2 * BitAnd(a / 2, m) + a % 2
  {
    assert (2 * m + 1) / 2 == m && (2 * m + 1) % 2 == 1;
    if a == 0 {
      assert BitAnd(a / 2, m) == 0;
    }
  }

  /** Masking with 2**k - 1 for k = 1, 2, 3, 4 keeps the remainder modulo 2**k. */
  lemma MaskOne(a: nat)
    ensures BitAnd(a, 1) == a % 2
  {
    OddMaskStep(a, 0);
    assert BitAnd(a / 2, 0) == 0;
  }

  lemma MaskThree(a: nat)
    ensures BitAnd(a, 3) == a % 4
  {
    OddMaskStep(a, 1);
    MaskOne(a / 2);
    ModDouble(a, 2);
  }

  lemma MaskSeven(a: nat)
    ensures BitAnd(a, 7) == a % 8
  {
    OddMaskStep(a, 3);
    MaskThree(a / 2);
    ModDouble(a, 4);
  }

  lemma MaskFifteen(a: nat)
    ensures BitAnd(a, 15) == a % 16
  {
    OddMaskStep(a, 7);
    MaskSeven(a / 2);
    ModDouble(a, 8);
  }

  /** AND with a mask shifted left by `k` is the shifted AND of `a >> k` with the mask. */
  lemma {:induction false} BitAndShiftedMask(a: nat, m: nat, k: nat)
    ensures BitAnd(a, ShiftLeft(m, k)) == ShiftLeft(BitAnd(ShiftRight(a, k), m), k)
  {
    ShiftOfZero(k);
    if k > 0 && a != 0 && m != 0 {
      var shifted := ShiftLeft(m, k - 1);
      assert shifted > 0 by {
        ShiftLeftIsMul(m, k - 1);
        MulAtLeast(m, Pow2(k - 1));
      }
      assert BitAnd(a, 2 * shifted) == 2 * BitAnd(a / 2, shifted);
      BitAndShiftedMask(a / 2, m, k - 1);
    }
  }

  /** Testing one bit with a single-bit mask. */
  lemma BitTest(a: nat, k: nat)
    ensures BitAnd(a, ShiftLeft(1, k)) > 0 <==> BitAt(a, k) == 1
  {
    BitAndShiftedMask(a, 1, k);
    MaskOne(ShiftRight(a, k));
    ShiftRightOfShiftLeft(BitAnd(ShiftRight(a, k), 1), k);
    ShiftOfZero(k);
  }

  /** Extracting a two-bit field at position `k`. */
  lemma TwoBitField(a: nat, k: nat)
    ensures ShiftRight(BitAnd(a, ShiftLeft(3, k)), k) == 2 * BitAt(a, k + 1) + BitAt(a, k)
  {
    var y := ShiftRight(a, k);
    assert ShiftRight(BitAnd(a, ShiftLeft(3, k)), k) == BitAnd(y, 3) by {
      BitAndShiftedMask(a, 3, k);
      ShiftRightOfShiftLeft(BitAnd(y, 3), k);
    }
    MaskThree(y);
    ShiftRightLast(a, k);
  }

  // ---------------------------------------------------------------------
  // OR

  /** OR of values with no common bit is their sum. */
  lemma {:induction false} BitOrDisjoint(a: nat, b: nat)
    requires BitAnd(a, b) == 0
    ensures BitOr(a, b) == a + b
    decreases a + b
  {
    if a != 0 && b != 0 {
      BitOrDisjoint(a / 2, b / 2);
    }
  }

  /** ORing a 0/1 flag into bit `k` of a value whose bit `k` is clear adds `flag << k`. */
  lemma SetClearBit(a: nat, flag: nat, k: nat)
    requires flag <= 1 && BitAt(a, k) == 0
    ensures BitOr(a, ShiftLeft(flag, k)) == a + ShiftLeft(flag, k)
  {
    ShiftOfZero(k);
    if flag == 1 {
      BitAndShiftedMask(a, 1, k);
      MaskOne(ShiftRight(a, k));
      BitOrDisjoint(a, ShiftLeft(1, k));
    }
  }

  /** ORing a 0/1 flag into bit `k`, just below a value shifted left by `k + 1`, appends the flag to that value. */
  lemma {:induction false} OrFlagBelow(q: nat, flag: nat, k: nat)
    requires flag <= 1
    ensures BitOr(ShiftLeft(q, k + 1), ShiftLeft(flag, k)) == ShiftLeft(2 * q + flag, k)
  {
    if k == 0 {
      assert ShiftLeft(q, 1) == 2 * q;
    } else {
      OrFlagBelow(q, flag, k - 1);
      var x, y := ShiftLeft(q, k), ShiftLeft(flag, k - 1);
      assert ShiftLeft(q, k + 1) == 2 * x && ShiftLeft(flag, k) == 2 * y;
      if x != 0 && y != 0 {
        assert (2 * x) / 2 == x && (2 * y) / 2 == y;
      }
    }
  }

  /** Placing a value below 2**k under a value shifted left by `k` adds the two. */
  lemma OrBelowShifted(high: nat, low: nat, k: nat)
    requires low < Pow2(k)
    ensures BitOr(ShiftLeft(high, k), low) == ShiftLeft(high, k) + low
  {
    assert BitAnd(ShiftLeft(high, k), low) == 0 by {
      ShiftRightOfSmall(low, k);
      BitAndShiftedMask(low, high, k);
      ShiftOfZero(k);
      BitAndCommutes(ShiftLeft(high, k), low);
    }
    BitOrDisjoint(ShiftLeft(high, k), low);
  }
}
