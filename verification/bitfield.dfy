/**
 * Non-negative integers read as bitfields, the way Python's arbitrary-precision
 * shift and bitwise operators treat them. Each operator is defined bit by bit
 * (lowest bit first, then the rest shifted right by one), and the lemmas state
 * what it does to every single bit.
 */
module Bitfield {
  /** `1 << i`. */
  function Pow2(i: nat): (r: nat)
    ensures r >= 1
  {
    if i == 0 then 1 else 2 * Pow2(i - 1)
  }

  /** `(d >> j) & 1`: shift right by `j` places, then keep the lowest bit. */
  function Bit(d: nat, j: nat): nat
  {
    if j == 0 then d % 2 else Bit(d / 2, j - 1)
  }

  /** `a | b`. */
  function Or(a: nat, b: nat): nat
    decreases a + b
  {
    if a == 0 then b
    else if b == 0 then a
    else 2 * Or(a / 2, b / 2) + (if a % 2 == 1 || b % 2 == 1 then 1 else 0)
  }

  /** `a & ~b`: the bits of `a` that `b` does not have. */
  function AndNot(a: nat, b: nat): nat
    decreases a
  {
    if a == 0 then 0
    else 2 * AndNot(a / 2, b / 2) + (if a % 2 == 1 && b % 2 == 0 then 1 else 0)
  }

  /** Every bit is 0 or 1. */
  lemma {:induction false} BitIsBinary(d: nat, j: nat)
    ensures Bit(d, j) == 0 || Bit(d, j) == 1
  {
    if j > 0 {
      BitIsBinary(d / 2, j - 1);
    }
  }

  /** Zero has no bit set. */
  lemma {:induction false} BitOfZero(j: nat)
    ensures Bit(0, j) == 0
  {
    if j > 0 {
      BitOfZero(j - 1);
    }
  }

  /** `1 << i` has bit `i` set and no other. */
  lemma {:induction false} BitOfPow2(i: nat, j: nat)
    ensures Bit(Pow2(i), j) == if i == j then 1 else 0
  {
    if j > 0 {
      if i == 0 {
        BitOfZero(j - 1);
      } else {
        assert Pow2(i) / 2 == Pow2(i - 1);
        BitOfPow2(i - 1, j - 1);
      }
    }
  }

  /** A bit of `a | b` is set exactly when it is set in `a` or in `b`. */
  lemma {:induction false} BitOfOr(a: nat, b: nat, j: nat)
    ensures Bit(Or(a, b), j) == if Bit(a, j) == 1 || Bit(b, j) == 1 then 1 else 0
    decreases j
  {
    BitIsBinary(a, j);
    BitIsBinary(b, j);
    if j > 0 {
      if a == 0 {
        BitOfZero(j - 1);
      } else if b == 0 {
        BitOfZero(j - 1);
      } else {
        BitOfOr(a / 2, b / 2, j - 1);
      }
    }
  }

  /** A bit of `a & ~b` is set exactly when it is set in `a` and not in `b`. */
  lemma {:induction false} BitOfAndNot(a: nat, b: nat, j: nat)
    ensures Bit(AndNot(a, b), j) == if Bit(a, j) == 1 && Bit(b, j) == 0 then 1 else 0
    decreases j
  {
    BitIsBinary(b, j);
    if j > 0 {
      if a == 0 {
        BitOfZero(j - 1);
      } else {
        BitOfAndNot(a / 2, b / 2, j - 1);
      }
    }
  }

  /** Two numbers with the same bits are equal. */
  lemma {:induction false} SameBits(a: nat, b: nat)
    requires forall j: nat :: Bit(a, j) == Bit(b, j)
    ensures a == b
    decreases a + b
  {
    if a != 0 || b != 0 {
      assert a % 2 == b % 2 by { assert Bit(a, 0) == Bit(b, 0); }
      forall j: nat
        ensures Bit(a / 2, j) == Bit(b / 2, j)
      {
        assert Bit(a, j + 1) == Bit(b, j + 1);
      }
      SameBits(a / 2, b / 2);
    }
  }
}
