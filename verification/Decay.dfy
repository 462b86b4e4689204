/**
 Flags and the decay of their weights.
 */
module Decay {
  import opened Options
  import opened FlagPolicy
  import opened Powers

  datatype Source = TrustedCommand | CommunityReport | AdminOverride | Api | ReportEscalation | System

  /** A row of `flags`; a missing effective weight stands for the weight itself. */
  datatype Flag = Flag(id: nat, weight: int, effective: Option<int>, source: Source, createdAt: int)

  /** `pow(x)` is 2 to the power -x; `mult` gives a source its decay multiplier, 1 by default. */
  datatype Settings = Settings(th: Thresholds, halfLifeDays: real, mult: Source -> real, pow: real -> real)

  const DAY_MS := 86400000.0

  ghost predicate Halving(pow: real -> real) {
    && pow(0.0) == 1.0
    && (forall x :: pow(x) >= 0.0)
    && (forall x, y | x <= y :: pow(y) <= pow(x))
  }

  ghost predicate ValidSettings(c: Settings) {
    Halving(c.pow) && forall s :: c.mult(s) >= 0.0
  }

  function Effective(f: Flag): int {
    match f.effective
    case Some(e) => e
    case None => f.weight
  }

  function Exponent(c: Settings, f: Flag, now: int): real
    requires c.halfLifeDays > 0.0
  {
    (now - f.createdAt) as real / DAY_MS * c.mult(f.source) / c.halfLifeDays
  }

  function Factor(c: Settings, f: Flag, now: int): real
    requires c.halfLifeDays > 0.0
  {
    c.pow(Exponent(c, f, now))
  }

  /** `max(0, floor(weight * factor))` */
  function Scaled(weight: int, factor: real): int {
    var decayed := (weight as real * factor).Floor;
    if decayed < 0 then 0 else decayed
  }

  function EffectiveWeightForFlag(c: Settings, f: Flag, now: int): int {
    if f.source == AdminOverride then f.weight
    else if c.halfLifeDays <= 0.0 then f.weight
    else Scaled(f.weight, Factor(c, f, now))
  }

  /** `sum(effectiveWeight ?? weight)`. */
  function Sum(flags: seq<Flag>): int {
    if flags == [] then 0 else Sum(flags[..|flags| - 1]) + Effective(flags[|flags| - 1])
  }

  function DecayFlag(c: Settings, f: Flag, now: int): Flag {
    f.(effective := Some(EffectiveWeightForFlag(c, f, now)))
  }

  function DecayAll(c: Settings, flags: seq<Flag>, now: int): (r: seq<Flag>)
    ensures |r| == |flags| && forall i | 0 <= i < |flags| :: r[i] == DecayFlag(c, flags[i], now)
  {
    seq(|flags|, i requires 0 <= i < |flags| => DecayFlag(c, flags[i], now))
  }

  /** The test that lets a pass leave a user alone. */
  predicate AnyChanged(c: Settings, flags: seq<Flag>, now: int) {
    exists i | 0 <= i < |flags| :: Effective(flags[i]) != EffectiveWeightForFlag(c, flags[i], now)
  }

  // ---------- one flag ----------

  lemma ScaledMonotone(w: real, p: real, q: real)
    requires w >= 0.0 && p <= q
    ensures w * p <= w * q
  {
  }

  lemma ExponentMonotone(c: Settings, f: Flag, t0: int, t1: int)
    requires c.halfLifeDays > 0.0 && c.mult(f.source) >= 0.0 && t0 <= t1
    ensures Exponent(c, f, t0) <= Exponent(c, f, t1)
  {
    var m, h := c.mult(f.source), c.halfLifeDays;
    var a0, a1 := (t0 - f.createdAt) as real / DAY_MS, (t1 - f.createdAt) as real / DAY_MS;
    assert a0 <= a1;
    ScaledMonotone(m, a0, a1);
  }

  /** Whatever the clock says of a flag's creation, its decayed weight only falls as time goes on. */
  lemma DecayAntitone(c: Settings, f: Flag, t0: int, t1: int)
    requires ValidSettings(c) && f.weight >= 0 && t0 <= t1
    ensures 0 <= EffectiveWeightForFlag(c, f, t1) <= EffectiveWeightForFlag(c, f, t0)
    ensures f.source == AdminOverride ==> EffectiveWeightForFlag(c, f, t1) == f.weight
  {
    if f.source != AdminOverride && c.halfLifeDays > 0.0 {
      ExponentMonotone(c, f, t0, t1);
    }
  }

  /**
   The flag is dated so far ahead of the clock that its factor adds a whole point.
   A flag that is slightly ahead keeps its weight, because of the floor.
   */
  predicate DatedAhead(c: Settings, f: Flag, now: int) {
    f.source != AdminOverride && c.halfLifeDays > 0.0
    && f.weight as real * Factor(c, f, now) >= (f.weight + 1) as real
  }

  /** A pass computes more than the weight a flag was given exactly in that case. */
  lemma ExceedsExactlyWhenAhead(c: Settings, f: Flag, now: int)
    requires ValidSettings(c) && f.weight >= 0
    ensures EffectiveWeightForFlag(c, f, now) > f.weight <==> DatedAhead(c, f, now)
  {
  }

  /** So never for a flag that exists when the clock is read. */
  lemma CreatedIsNotAhead(c: Settings, f: Flag, now: int)
    requires ValidSettings(c) && f.weight >= 0 && f.createdAt <= now
    ensures !DatedAhead(c, f, now) && EffectiveWeightForFlag(c, f, now) <= f.weight
  {
    if f.source != AdminOverride && c.halfLifeDays > 0.0 {
      ExponentMonotone(c, f, f.createdAt, now);
      assert c.pow(Exponent(c, f, now)) <= c.pow(0.0);
      ScaledMonotone(f.weight as real, Factor(c, f, now), 1.0);
    }
  }

  // ---------- whole half-lives ----------

  ghost predicate ExactHalving(pow: real -> real) {
    Halving(pow) && forall k: nat :: pow(k as real) == 1.0 / Pow2(k) as real
  }

  function HalveTimes(w: nat, k: nat): nat {
    if k == 0 then w else HalveTimes(w, k - 1) / 2
  }

  lemma {:induction false} HalvingsCompose(w: nat, k: nat)
    ensures HalveTimes(w, k) == w / Pow2(k)
  {
    if k > 0 {
      HalvingsCompose(w, k - 1);
      NestedDivision(w, Pow2(k - 1));
    }
  }

  lemma NestedDivision(w: nat, p: nat)
    requires p >= 1
    ensures (w / p) / 2 == w / (2 * p)
  {
    var q := w / p;
    var r := w % p;
    assert w == q * p + r;
    var h := q / 2;
    assert q == 2 * h + q % 2;
    assert w == h * (2 * p) + ((q % 2) * p + r);
    assert 0 <= (q % 2) * p + r < 2 * p by { if q % 2 == 0 { } else { assert q % 2 == 1; } }
    QuotientUnique(w, 2 * p, h, (q % 2) * p + r);
  }

  lemma AtLeastFactor(x: nat, d: nat)
    requires x >= 1
    ensures x * d >= d
  {
  }

  lemma QuotientUnique(w: nat, d: nat, q: nat, r: nat)
    requires d > 0 && w == q * d + r && r < d
    ensures w / d == q
  {
    var q', r' := w / d, w % d;
    assert w == q' * d + r';
    assert (q' - q) * d == r - r';
    if q' > q {
      AtLeastFactor(q' - q, d);
    } else if q' < q {
      assert (q - q') * d == r' - r;
      AtLeastFactor(q - q', d);
    }
  }

  lemma ExponentOfHalfLives(c: Settings, f: Flag, halfLife: nat, k: nat)
    requires c.mult(f.source) == 1.0 && halfLife >= 1 && c.halfLifeDays == halfLife as real
    ensures Exponent(c, f, f.createdAt + (k * halfLife) * 86400000) == k as real
  {
  }

  lemma ScaledHalving(w: nat, k: nat)
    ensures Scaled(w, 1.0 / Pow2(k) as real) == HalveTimes(w, k)
  {
    HalvingsCompose(w, k);
  }

  /** Recomputing from the original weight after `k` half-lives is the same as halving `k` times. */
  lemma WholeHalfLives(c: Settings, f: Flag, halfLife: nat, k: nat)
    requires ExactHalving(c.pow) && c.mult(f.source) == 1.0 && f.source != AdminOverride
    requires halfLife >= 1 && c.halfLifeDays == halfLife as real && f.weight >= 0
    ensures EffectiveWeightForFlag(c, f, f.createdAt + (k * halfLife) * 86400000) == HalveTimes(f.weight, k)
  {
    ExponentOfHalfLives(c, f, halfLife, k);
    ScaledHalving(f.weight, k);
  }

  // ---------- all flags of a user ----------

  /** The flag has its full weight, or what a pass at some time up to `since` left it with. */
  ghost predicate Aged(c: Settings, f: Flag, since: int) {
    f.weight >= 0
    && (Effective(f) == f.weight || exists t :: t <= since && Effective(f) == EffectiveWeightForFlag(c, f, t))
  }

  lemma {:induction false} PassNeverRaisesSum(c: Settings, flags: seq<Flag>, now: int)
    requires forall i | 0 <= i < |flags| ::
               EffectiveWeightForFlag(c, flags[i], now) <= Effective(flags[i])
    ensures Sum(DecayAll(c, flags, now)) <= Sum(flags)
  {
    if flags != [] {
      var n := |flags| - 1;
      PassNeverRaisesSum(c, flags[..n], now);
      assert DecayAll(c, flags, now)[..n] == DecayAll(c, flags[..n], now);
    }
  }

  /** Decay always starts from the original weight: a pass changes no later result. */
  lemma PassKeepsSchedule(c: Settings, f: Flag, now: int, t: int)
    ensures EffectiveWeightForFlag(c, DecayFlag(c, f, now), t) == EffectiveWeightForFlag(c, f, t)
  {
    var g := DecayFlag(c, f, now);
    if c.halfLifeDays > 0.0 {
      assert (t - g.createdAt) as real / DAY_MS == (t - f.createdAt) as real / DAY_MS;
      assert c.mult(g.source) == c.mult(f.source);
      assert Exponent(c, g, t) == Exponent(c, f, t);
    }
  }

  lemma PassAges(c: Settings, f: Flag, now: int)
    requires f.weight >= 0
    ensures Aged(c, DecayFlag(c, f, now), now)
  {
    PassKeepsSchedule(c, f, now, now);
  }

  /** A pass raises an aged flag exactly when it still has its full weight and is dated ahead of the clock. */
  lemma RaisedExactlyWhen(c: Settings, f: Flag, now: int)
    requires ValidSettings(c) && Aged(c, f, now)
    ensures EffectiveWeightForFlag(c, f, now) > Effective(f) <==> Effective(f) == f.weight && DatedAhead(c, f, now)
    ensures f.source == AdminOverride ==> Effective(f) == f.weight
  {
    ExceedsExactlyWhenAhead(c, f, now);
    if Effective(f) != f.weight {
      var t :| t <= now && Effective(f) == EffectiveWeightForFlag(c, f, t);
      DecayAntitone(c, f, t, now);
    }
  }

  /** A second pass at the same instant finds nothing to do. */
  lemma RepeatedPassChangesNothing(c: Settings, flags: seq<Flag>, now: int)
    ensures DecayAll(c, DecayAll(c, flags, now), now) == DecayAll(c, flags, now)
    ensures !AnyChanged(c, DecayAll(c, flags, now), now)
  {
    var once := DecayAll(c, flags, now);
    forall i | 0 <= i < |flags|
      ensures EffectiveWeightForFlag(c, once[i], now) == EffectiveWeightForFlag(c, flags[i], now)
    {
      PassKeepsSchedule(c, flags[i], now, now);
    }
    assert DecayAll(c, once, now) == once;
  }

  function OverrideSum(flags: seq<Flag>): int {
    if flags == [] then 0
    else OverrideSum(flags[..|flags| - 1])
         + if flags[|flags| - 1].source == AdminOverride then flags[|flags| - 1].weight else 0
  }

  /** After enough half-lives only the override flags still weigh anything. */
  lemma {:induction false} OnlyOverridesRemain(c: Settings, flags: seq<Flag>, halfLife: nat, k: nat, now: int)
    requires ExactHalving(c.pow) && (forall s :: c.mult(s) == 1.0)
    requires halfLife >= 1 && c.halfLifeDays == halfLife as real
    requires forall i | 0 <= i < |flags| :: 0 <= flags[i].weight
    requires forall i | 0 <= i < |flags| && flags[i].source != AdminOverride ::
               flags[i].weight < Pow2(k) && flags[i].createdAt + (k * halfLife) * 86400000 <= now
    ensures Sum(DecayAll(c, flags, now)) == OverrideSum(flags)
  {
    if flags != [] {
      var n := |flags| - 1;
      var f := flags[n];
      OnlyOverridesRemain(c, flags[..n], halfLife, k, now);
      assert DecayAll(c, flags, now)[..n] == DecayAll(c, flags[..n], now);
      if f.source != AdminOverride {
        var whole := f.createdAt + (k * halfLife) * 86400000;
        WholeHalfLives(c, f, halfLife, k);
        HalvingsCompose(f.weight, k);
        BelowDivisor(f.weight, Pow2(k));
        DecayAntitone(c, f, whole, now);
      }
    }
  }

  lemma BelowDivisor(w: nat, d: nat)
    requires w < d
    ensures w / d == 0
  {
  }
}
