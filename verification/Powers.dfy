/**
 Powers, and what they mean for the order of numbers.
 */
module Powers {
  function Pow2(n: nat): (p: nat)
    ensures p >= 1
  {
    if n == 0 then 1 else 2 * Pow2(n - 1)
  }

  /** Two to the power of a sum; with `Pow2(1) == 2` this fixes every power. */
  lemma {:induction false} Pow2Adds(m: nat, n: nat)
    ensures Pow2(m + n) == Pow2(m) * Pow2(n) && Pow2(1) == 2
  {
    if m == 0 {
      assert Pow2(0 + n) == Pow2(n);
    } else {
      Pow2Adds(m - 1, n);
      assert Pow2(m + n) == 2 * Pow2(m - 1 + n);
      assert Pow2(m) * Pow2(n) == 2 * (Pow2(m - 1) * Pow2(n));
    }
  }

  /** `x` to the power `n`. */
  function Power(x: real, n: nat): real {
    if n == 0 then 1.0 else x * Power(x, n - 1)
  }

  lemma {:induction false} PowerOrdered(x: real, y: real, n: nat)
    requires 0.0 <= x <= y
    ensures 0.0 <= Power(x, n) <= Power(y, n)
  {
    if n > 0 {
      PowerOrdered(x, y, n - 1);
    }
  }

  lemma {:induction false} PowerStrict(x: real, y: real, n: nat)
    requires 0.0 <= x < y && n >= 1
    ensures 0.0 <= Power(x, n) < Power(y, n)
  {
    PowerOrdered(x, x, n);
    if n > 1 {
      PowerStrict(x, y, n - 1);
    }
  }

  lemma {:induction false} PowerOfProduct(x: real, y: real, n: nat)
    ensures Power(x * y, n) == Power(x, n) * Power(y, n)
  {
    if n > 0 {
      PowerOfProduct(x, y, n - 1);
      var p, q := Power(x, n - 1), Power(y, n - 1);
      assert (x * y) * (p * q) == (x * p) * (y * q);
    }
  }
}
