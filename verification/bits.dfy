/**
 * Bitwise AND and OR on non-negative integers, defined one binary digit at a
 * time, with their per-bit meaning and the extensionality that lets a value
 * be pinned down by its bits.
 */
module Bits {

  function Pow2(k: nat): (p: nat)
    ensures p > 0
  {
    if k == 0 then 1 else 2 * Pow2(k - 1)
  }

  /** Bit `k` of `m` is one. */
  predicate BitSet(m: nat, k: nat) {
    if k == 0 then m % 2 == 1 else BitSet(m / 2, k - 1)
  }

  function AndBits(a: nat, b: nat): nat
    decreases a
  {
    if a == 0 || b == 0 then 0
    else 2 * AndBits(a / 2, b / 2) + (if a % 2 == 1 && b % 2 == 1 then 1 else 0)
  }

  function OrBits(a: nat, b: nat): nat
    decreases a + b
  {
    if a == 0 then b
    else if b == 0 then a
    else 2 * OrBits(a / 2, b / 2) + (if a % 2 == 1 || b % 2 == 1 then 1 else 0)
  }

  /** Zero has no bit set. */
  lemma {:induction false} ZeroBits(k: nat)
    ensures !BitSet(0, k)
  {
    if k > 0 {
      ZeroBits(k - 1);
    }
  }

  /** A power of two has exactly its own bit set. */
  lemma {:induction false} PowBit(k: nat, j: nat)
    ensures BitSet(Pow2(k), j) <==> j == k
  {
    if j == 0 {
    } else if k == 0 {
      ZeroBits(j - 1);
    } else {
      PowBit(k - 1, j - 1);
    }
  }

  /** Bit `k` of an AND is set exactly when it is set in both operands. */
  lemma {:induction false} AndBit(a: nat, b: nat, k: nat)
    ensures BitSet(AndBits(a, b), k) <==> BitSet(a, k) && BitSet(b, k)
  {
    if a == 0 || b == 0 {
      ZeroBits(k);
    } else if k > 0 {
      AndBit(a / 2, b / 2, k - 1);
    }
  }

  /** Bit `k` of an OR is set exactly when it is set in either operand. */
  lemma {:induction false} OrBit(a: nat, b: nat, k: nat)
    ensures BitSet(OrBits(a, b), k) <==> BitSet(a, k) || BitSet(b, k)
  {
    if a == 0 {
      ZeroBits(k);
    } else if b == 0 {
      ZeroBits(k);
    } else if k > 0 {
      OrBit(a / 2, b / 2, k - 1);
    }
  }

  /** AND never exceeds its first operand. */
  lemma {:induction false} AndBound(a: nat, b: nat)
    ensures AndBits(a, b) <= a
    decreases a
  {
    if a != 0 && b != 0 {
      AndBound(a / 2, b / 2);
    }
  }

  /** OR of two `n`-bit values is an `n`-bit value. */
  lemma {:induction false} OrBound(a: nat, b: nat, n: nat)
    requires a < Pow2(n) && b < Pow2(n)
    ensures OrBits(a, b) < Pow2(n)
  {
    if a != 0 && b != 0 {
      OrBound(a / 2, b / 2, n - 1);
    }
  }

  /** Two `n`-bit values that agree on every bit are equal. */
  lemma {:induction false} BitsEqual(a: nat, b: nat, n: nat)
    requires a < Pow2(n) && b < Pow2(n)
    requires forall k :: 0 <= k < n ==> (BitSet(a, k) <==> BitSet(b, k))
    ensures a == b
  {
    if n > 0 {
      assert BitSet(a, 0) <==> BitSet(b, 0);
      forall k | 0 <= k < n - 1
        ensures BitSet(a / 2, k) <==> BitSet(b / 2, k)
      {
        assert BitSet(a, k + 1) <==> BitSet(b, k + 1);
      }
      BitsEqual(a / 2, b / 2, n - 1);
    }
  }
}
