/** Python's arithmetic on non-negative integers of unbounded width: powers of
    two, the left shift `x << k` and the bitwise or `a | b`. */
module Bits {

  /** 2 to the power k. */
  function Pow2(k: nat): (p: nat)
    ensures p >= 1
  {
    if k == 0 then 1 else 2 * Pow2(k - 1)
  }

  /** `x << k` on a non-negative integer: no bits are lost, as Python's ints are unbounded. */
  function ShiftLeft(x: nat, k: nat): nat
  {
    if k == 0 then x else 2 * ShiftLeft(x, k - 1)
  }

  /** Shifting left by k multiplies by 2 to the power k. */
  lemma {:induction false} ShiftLeftIsMul(x: nat, k: nat)
    ensures ShiftLeft(x, k) == x * Pow2(k)
  {
    if k > 0 {
      ShiftLeftIsMul(x, k - 1);
      assert x * Pow2(k) == 2 * (x * Pow2(k - 1));
    }
  }

  /** `a | b` on non-negative integers, computed from the least significant bit upwards. */
  function BitOr(a: nat, b: nat): nat
    decreases a
  {
    if a == 0 then b
    else if b == 0 then a
    else 2 * BitOr(a / 2, b / 2) + (if a % 2 == 1 || b % 2 == 1 then 1 else 0)
  }

  /** `x >> k` on a non-negative integer: k halvings, rounding down. */
  function ShiftRight(x: nat, k: nat): nat
  {
    if k == 0 then x else ShiftRight(x / 2, k - 1)
  }

  /** `x & (2**width - 1)`: the lowest `width` bits of x. */
  function LowBits(x: nat, width: nat): (r: nat)
    ensures r < Pow2(width)
  {
    if width == 0 then 0 else 2 * LowBits(x / 2, width - 1) + x % 2
  }

  /** `(x >> i) & 1 == 1`: bit i of x is set (bit 0 is the least significant one). */
  predicate TestBit(x: nat, i: nat)
  {
    ShiftRight(x, i) % 2 == 1
  }

  /** `(w >> shift) & (2**width - 1)`: the bit field of `width` bits that starts at bit `shift`. */
  function Field(w: nat, shift: nat, width: nat): (f: nat)
    ensures f < Pow2(width)
  {
    LowBits(ShiftRight(w, shift), width)
  }

  lemma {:induction false} ZeroHasNoBits(i: nat)
    ensures !TestBit(0, i)
  {
    if i > 0 {
      ZeroHasNoBits(i - 1);
    }
  }

  /** BitOr is the bitwise or: bit i of the result is set exactly when bit i
      of one of the operands is. */
  lemma {:induction false} BitOrBits(a: nat, b: nat, i: nat)
    ensures TestBit(BitOr(a, b), i) <==> TestBit(a, i) || TestBit(b, i)
    decreases i
  {
    if a == 0 {
      ZeroHasNoBits(i);
    } else if b == 0 {
      ZeroHasNoBits(i);
    } else if i > 0 {
      assert BitOr(a, b) / 2 == BitOr(a / 2, b / 2);
      BitOrBits(a / 2, b / 2, i - 1);
    }
  }

  /** A value that fits below bit k and a value shifted up by k share no bits,
      so or-ing them is the same as adding them. */
  lemma {:induction false} BitOrDisjoint(a: nat, b: nat, k: nat)
    requires a < Pow2(k)
    ensures BitOr(a, ShiftLeft(b, k)) == a + ShiftLeft(b, k)
    decreases k
  {
    if a != 0 {
      BitOrDisjoint(a / 2, b, k - 1);
    }
  }

  /** A value below bit k plus a value shifted up by k splits back into the
      two: the low k bits are the first, the shift right by k is the second. */
  lemma {:induction false} SplitAt(a: nat, b: nat, k: nat)
    requires a < Pow2(k)
    ensures LowBits(a + ShiftLeft(b, k), k) == a
    ensures ShiftRight(a + ShiftLeft(b, k), k) == b
    decreases k
  {
    if k > 0 {
      var x := a + ShiftLeft(b, k);
      assert x / 2 == a / 2 + ShiftLeft(b, k - 1) && x % 2 == a % 2;
      SplitAt(a / 2, b, k - 1);
    }
  }

  /** Shifting right by i and then by j is shifting right by i + j. */
  lemma {:induction false} ShiftRightAdd(x: nat, i: nat, j: nat)
    ensures ShiftRight(x, i + j) == ShiftRight(ShiftRight(x, i), j)
    decreases i
  {
    if i > 0 {
      ShiftRightAdd(x / 2, i - 1, j);
    }
  }

  /** x is its low k bits plus the rest shifted back into place. */
  lemma {:induction false} Recompose(x: nat, k: nat)
    ensures x == LowBits(x, k) + ShiftLeft(ShiftRight(x, k), k)
    decreases k
  {
    if k > 0 {
      Recompose(x / 2, k - 1);
    }
  }
}
