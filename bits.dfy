/**
 * Bitwise `&` and `|` on non-negative PHP integers, defined bit by bit on
 * unbounded naturals, and the bit test they are reasoned about through.
 */
module Bits {

  function Pow2(k: nat): (p: nat)
    ensures p >= 1
  {
    if k == 0 then 1 else 2 * Pow2(k - 1)
  }

  /** Bit `k` of `x` (bit 0 is the least significant). */
  predicate Bit(x: nat, k: nat)
  {
    if k == 0 then x % 2 == 1 else Bit(x / 2, k - 1)
  }

  /** `a & b`. */
  function And(a: nat, b: nat): (r: nat)
    ensures r <= a && r <= b
  {
    if a == 0 || b == 0 then 0 else 2 * And(a / 2, b / 2) + (a % 2) * (b % 2)
  }

  /** `a | b`. */
  function Or(a: nat, b: nat): (r: nat)
    ensures a <= r <= a + b
  {
    if a == 0 then b else if b == 0 then a else 2 * Or(a / 2, b / 2) + (if a % 2 == 1 || b % 2 == 1 then 1 else 0)
  }

  /** A bit of `a & b` is set exactly when it is set in both. */
  lemma {:induction false} AndBit(a: nat, b: nat, k: nat)
    ensures Bit(And(a, b), k) <==> Bit(a, k) && Bit(b, k)
  {
    if a == 0 || b == 0 {
      ZeroBit(k);
    } else if k > 0 {
      AndBit(a / 2, b / 2, k - 1);
    }
  }

  /** A bit of `a | b` is set exactly when it is set in either. */
  lemma {:induction false} OrBit(a: nat, b: nat, k: nat)
    ensures Bit(Or(a, b), k) <==> Bit(a, k) || Bit(b, k)
  {
    if a == 0 {
      ZeroBit(k);
    } else if b == 0 {
      ZeroBit(k);
    } else if k > 0 {
      OrBit(a / 2, b / 2, k - 1);
    }
  }

  /** Zero has no bit set. */
  lemma {:induction false} ZeroBit(k: nat)
    ensures !Bit(0, k)
  {
    if k > 0 {
      ZeroBit(k - 1);
    }
  }

  /** `2^j` has exactly bit `j` set. */
  lemma {:induction false} Pow2Bit(j: nat, k: nat)
    ensures Bit(Pow2(j), k) <==> j == k
  {
    if j > 0 && k > 0 {
      Pow2Bit(j - 1, k - 1);
    } else if j > 0 {
      assert Pow2(j) % 2 == 0;
    } else if k > 0 {
      ZeroBit(k - 1);
    }
  }

  /** `x & 2^k` is zero exactly when bit `k` of `x` is clear. */
  lemma {:induction false} AndPow2(x: nat, k: nat)
    ensures And(x, Pow2(k)) != 0 <==> Bit(x, k)
  {
    if And(x, Pow2(k)) != 0 {
      NonZeroBit(And(x, Pow2(k)));
      var j: nat :| Bit(And(x, Pow2(k)), j);
      AndBit(x, Pow2(k), j);
      Pow2Bit(k, j);
    } else {
      AndBit(x, Pow2(k), k);
      Pow2Bit(k, k);
      ZeroBit(k);
    }
  }

  /** A non-zero number has some bit set. */
  lemma {:induction false} NonZeroBit(x: nat)
    requires x != 0
    ensures exists k: nat :: Bit(x, k)
  {
    if x % 2 == 1 {
      assert Bit(x, 0);
    } else {
      NonZeroBit(x / 2);
      var k: nat :| Bit(x / 2, k);
      assert Bit(x, k + 1);
    }
  }
}
