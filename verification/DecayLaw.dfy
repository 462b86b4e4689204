/**
 What a flag weighs at every age, half-life and source multiplier, in terms of
 powers of whole numbers.
 */
module DecayLaw {
  import opened FlagPolicy
  import opened Powers
  import opened Decay

  ghost predicate TurnsSumIntoProduct(pow: real -> real, x: real, y: real) {
    pow(x + y) == pow(x) * pow(y)
  }

  /** `pow(x)` is 2 to the power -x. */
  ghost predicate Exponential(pow: real -> real) {
    Halving(pow) && pow(1.0) == 0.5 && forall x, y :: TurnsSumIntoProduct(pow, x, y)
  }

  // ---------- whole powers ----------

  lemma PowSplits(pow: real -> real, x: real, y: real, z: real)
    requires Exponential(pow) && x + y == z
    ensures pow(z) == pow(x) * pow(y)
  {
    assert TurnsSumIntoProduct(pow, x, y);
  }

  lemma {:induction false} PowTimes(pow: real -> real, x: real, n: nat)
    requires Exponential(pow)
    ensures Power(pow(x), n) == pow(n as real * x)
  {
    if n == 0 {
      assert 0 as real * x == 0.0;
    } else {
      PowTimes(pow, x, n - 1);
      PowSplits(pow, x, (n - 1) as real * x, n as real * x);
    }
  }

  lemma {:induction false} PowWhole(pow: real -> real, k: nat) returns (two: real)
    requires Exponential(pow)
    ensures two == Power(2.0, k) > 0.0 && pow(k as real) * two == 1.0
  {
    two := 1.0;
    if k > 0 {
      var less := PowWhole(pow, k - 1);
      PowSplits(pow, 1.0, (k - 1) as real, k as real);
      two := 2.0 * less;
    }
  }

  lemma PowOfRest(pow: real -> real, d: real, r: real, s: real, x: real, y: real)
    requires Exponential(pow) && d + r == s && pow(s) * x == 1.0 && pow(r) * y == 1.0
    ensures pow(d) * x == y
  {
    PowSplits(pow, d, r, s);
  }

  lemma PowOfDifference(pow: real -> real, p: nat, q: nat) returns (x: real, y: real)
    requires Exponential(pow)
    ensures x == Power(2.0, p) > 0.0 && y == Power(2.0, q)
    ensures pow((p - q) as real) * x == y
  {
    x := PowWhole(pow, p);
    y := PowWhole(pow, q);
    PowOfRest(pow, (p - q) as real, q as real, p as real, x, y);
  }

  // ---------- comparing without fractions ----------

  /** `x` doubled `n` times. */
  function Doubled(x: real, n: nat): real {
    if n == 0 then x else 2.0 * Doubled(x, n - 1)
  }

  lemma {:induction false} DoubledIsTimes(v: real, n: nat, x: real)
    requires x == Power(2.0, n)
    ensures Doubled(v, n) == v * x
  {
    if n > 0 { DoubledIsTimes(v, n - 1, x / 2.0); }
  }

  lemma Cleared(lo: real, hi: real, w: real, g: real, whole: real, x: real, y: real)
    requires w >= 0.0 && lo <= w * g < hi && x > 0.0 && whole * x == y
    ensures g <= whole ==> lo * x <= w * y
    ensures g >= whole ==> w * y < hi * x
  {
    assert (w * g) * x == w * (g * x);
    if g <= whole {
      ScaledMonotone(w, g * x, y);
    }
    if g >= whole {
      ScaledMonotone(w, y, g * x);
    }
  }

  lemma ClearedAs(lo: real, hi: real, w: real, g: real, whole: real, x: real, y: real, lo': real, hi': real, w': real)
    requires w >= 0.0 && lo <= w * g < hi && x > 0.0 && whole * x == y
    requires lo' == lo * x && hi' == hi * x && w' == w * y
    ensures g <= whole ==> lo' <= w'
    ensures g >= whole ==> w' < hi'
  {
    Cleared(lo, hi, w, g, whole, x, y);
  }

  lemma ClearedByDoubling(lo: real, hi: real, w: real, g: real, whole: real, p: nat, q: nat, x: real, y: real)
    requires w >= 0.0 && lo <= w * g < hi && whole * x == y && x == Power(2.0, p) > 0.0 && y == Power(2.0, q)
    ensures g <= whole ==> Doubled(lo, p) <= Doubled(w, q)
    ensures g >= whole ==> Doubled(w, q) < Doubled(hi, p)
  {
    DoubledIsTimes(lo, p, x);
    DoubledIsTimes(hi, p, x);
    DoubledIsTimes(w, q, y);
    ClearedAs(lo, hi, w, g, whole, x, y, Doubled(lo, p), Doubled(hi, p), Doubled(w, q));
  }

  lemma ComparedWithPow(pow: real -> real, lo: real, hi: real, w: real, g: real, p: nat, q: nat)
    requires Exponential(pow) && w >= 0.0 && lo <= w * g < hi
    ensures g <= pow((p - q) as real) ==> Doubled(lo, p) <= Doubled(w, q)
    ensures g >= pow((p - q) as real) ==> Doubled(w, q) < Doubled(hi, p)
  {
    var x, y := PowOfDifference(pow, p, q);
    ClearedByDoubling(lo, hi, w, g, pow((p - q) as real), p, q, x, y);
  }

  // ---------- the rounded weight ----------

  lemma PowersBetween(e: real, w: real, factor: real, above: real, n: nat)
    returns (lo: real, hi: real, wn: real, g: real)
    requires w >= 0.0 && 0.0 <= e <= w * factor < above && n >= 1
    ensures lo == Power(e, n) && hi == Power(above, n) && wn == Power(w, n) && g == Power(factor, n)
    ensures wn >= 0.0 && lo <= wn * g < hi
  {
    PowerOrdered(e, w * factor, n);
    PowerStrict(w * factor, above, n);
    PowerOfProduct(w, factor, n);
    PowerOrdered(0.0, w, n);
    lo, hi, wn, g := Power(e, n), Power(above, n), Power(w, n), Power(factor, n);
  }

  lemma ScaledPower(weight: nat, factor: real, n: nat) returns (lo: real, hi: real, w: real, g: real)
    requires factor >= 0.0 && n >= 1
    ensures
      var e := Scaled(weight, factor);
      e >= 0 && lo == Power(e as real, n) && hi == Power((e + 1) as real, n)
    ensures w == Power(weight as real, n) && g == Power(factor, n)
    ensures w >= 0.0 && lo <= w * g < hi
  {
    var e := Scaled(weight, factor);
    ScaledMonotone(weight as real, 0.0, factor);
    lo, hi, w, g := PowersBetween(e as real, weight as real, factor, (e + 1) as real, n);
  }

  lemma ScaledByPow(pow: real -> real, weight: nat, factor: real, n: nat, p: nat, q: nat)
    requires Exponential(pow) && n >= 1 && factor >= 0.0
    ensures
      var e, w, whole := Scaled(weight, factor), Power(weight as real, n), pow((p - q) as real);
      && e >= 0
      && (Power(factor, n) <= whole ==> Doubled(Power(e as real, n), p) <= Doubled(w, q))
      && (Power(factor, n) >= whole ==> Doubled(w, q) < Doubled(Power((e + 1) as real, n), p))
  {
    var lo, hi, w, g := ScaledPower(weight, factor, n);
    ComparedWithPow(pow, lo, hi, w, g, p, q);
  }

  // ---------- the age ----------

  lemma FactorAtAge(c: Settings, f: Flag, now: int, n: nat, d: int)
    requires Exponential(c.pow) && c.halfLifeDays > 0.0
    ensures
      var lived := (now - f.createdAt) as real * c.mult(f.source) * n as real;
      var span := d as real * (86400000.0 * c.halfLifeDays);
      && (lived >= span ==> Power(Factor(c, f, now), n) <= c.pow(d as real))
      && (lived <= span ==> Power(Factor(c, f, now), n) >= c.pow(d as real))
  {
    PowTimes(c.pow, Exponent(c, f, now), n);
  }

  lemma WeightByFactor(c: Settings, f: Flag, now: int, n: nat, p: nat, q: nat)
    requires Exponential(c.pow) && f.weight >= 0 && n >= 1
    requires f.source != AdminOverride && c.halfLifeDays > 0.0
    ensures
      var e, w := EffectiveWeightForFlag(c, f, now), Power(f.weight as real, n);
      var factor, whole := Power(Factor(c, f, now), n), c.pow((p - q) as real);
      && e >= 0
      && (factor <= whole ==> Doubled(Power(e as real, n), p) <= Doubled(w, q))
      && (factor >= whole ==> Doubled(w, q) < Doubled(Power((e + 1) as real, n), p))
  {
    ScaledByPow(c.pow, f.weight, Factor(c, f, now), n, p, q);
  }

  /**
   The decayed weight e at every age, multiplier and half-life.  If the age times
   the multiplier is (p - q)/n half-lives, e is the greatest whole number with
   e^n * 2^p <= weight^n * 2^q; if it is more, or less, the bound on that side
   still holds.
   */
  lemma WeightAtAge(c: Settings, f: Flag, now: int, n: nat, p: nat, q: nat)
    requires Exponential(c.pow) && f.weight >= 0 && n >= 1
    requires f.source != AdminOverride && c.halfLifeDays > 0.0
    ensures
      var e, w := EffectiveWeightForFlag(c, f, now), Power(f.weight as real, n);
      var lived := (now - f.createdAt) as real * c.mult(f.source) * n as real;
      var span := (p - q) as real * (86400000.0 * c.halfLifeDays);
      && e >= 0
      && (lived >= span ==> Doubled(Power(e as real, n), p) <= Doubled(w, q))
      && (lived <= span ==> Doubled(w, q) < Doubled(Power((e + 1) as real, n), p))
  {
    WeightByFactor(c, f, now, n, p, q);
    FactorAtAge(c, f, now, n, p - q);
  }

  /** For instance halfway through the first half-life: the weight over the square root of two, rounded down. */
  lemma WeightHalfway(c: Settings, f: Flag, now: int, halfLife: nat)
    requires Exponential(c.pow) && f.weight >= 0 && f.source != AdminOverride && c.mult(f.source) == 1.0
    requires halfLife >= 1 && c.halfLifeDays == halfLife as real && now - f.createdAt == halfLife * 43200000
    ensures
      var e := EffectiveWeightForFlag(c, f, now);
      2 * (e * e) <= f.weight * f.weight < 2 * ((e + 1) * (e + 1))
  {
    var e := EffectiveWeightForFlag(c, f, now);
    WeightAtAge(c, f, now, 2, 1, 0);
    Squared(e);
    Squared(e + 1);
    Squared(f.weight);
    assert Doubled(Power(e as real, 2), 1) == 2.0 * Power(e as real, 2);
    assert Doubled(Power((e + 1) as real, 2), 1) == 2.0 * Power((e + 1) as real, 2);
  }

  lemma Squared(x: int)
    ensures Power(x as real, 2) == (x * x) as real
  {
    assert Power(x as real, 2) == x as real * (x as real * Power(x as real, 0));
  }

  /** Overrides, and all flags when the half-life is not positive, keep their weight. */
  lemma UndecayedKeepsWeight(c: Settings, f: Flag, now: int)
    requires f.source == AdminOverride || c.halfLifeDays <= 0.0
    ensures EffectiveWeightForFlag(c, f, now) == f.weight
  {
  }

  /** A source's multiplier stretches the age and does nothing else. */
  lemma MultiplierStretchesAge(c: Settings, f: Flag, g: Flag, now: int, now': int)
    requires f.weight == g.weight && f.source != AdminOverride && g.source != AdminOverride
    requires (now - f.createdAt) as real * c.mult(f.source) == (now' - g.createdAt) as real * c.mult(g.source)
    ensures EffectiveWeightForFlag(c, f, now) == EffectiveWeightForFlag(c, g, now')
  {
    if c.halfLifeDays > 0.0 {
      var a, b := (now - f.createdAt) as real, (now' - g.createdAt) as real;
      assert a / DAY_MS * c.mult(f.source) == a * c.mult(f.source) / DAY_MS;
      assert b / DAY_MS * c.mult(g.source) == b * c.mult(g.source) / DAY_MS;
      assert Exponent(c, f, now) == Exponent(c, g, now');
    }
  }
}
