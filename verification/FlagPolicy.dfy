/**
 Reputation levels and the weights given to flags.
 */
module FlagPolicy {
  datatype Level = Clean | Watch | Suspicious | HighRisk | ConfirmedCheater

  datatype Thresholds = Thresholds(watch: int, suspicious: int, highRisk: int, confirmed: int)

  function LevelFromScore(th: Thresholds, score: int): Level {
    if score >= th.confirmed then ConfirmedCheater
    else if score >= th.highRisk then HighRisk
    else if score >= th.suspicious then Suspicious
    else if score >= th.watch then Watch
    else Clean
  }

  function Rank(l: Level): nat {
    match l
    case Clean => 0
    case Watch => 1
    case Suspicious => 2
    case HighRisk => 3
    case ConfirmedCheater => 4
  }

  /** Optional `FLAG_WEIGHT_TIER_*` settings; a missing one falls back to the level's threshold. */
  datatype Tiers = Tiers(watch: int, suspicious: int, highRisk: int, confirmed: int)

  function DefaultTiers(th: Thresholds): Tiers {
    Tiers(th.watch, th.suspicious, th.highRisk, th.confirmed)
  }

  /** The weight of a flag at a given severity; CLEAN is treated as WATCH. */
  function TierWeight(t: Tiers, severity: Level): int {
    match severity
    case Watch => t.watch
    case Suspicious => t.suspicious
    case HighRisk => t.highRisk
    case ConfirmedCheater => t.confirmed
    case Clean => t.watch
  }

  /** More points never lower the level, in whatever order the thresholds are configured. */
  lemma LevelMonotone(th: Thresholds, s: int, t: int)
    requires s <= t
    ensures Rank(LevelFromScore(th, s)) <= Rank(LevelFromScore(th, t))
  {
  }

  predicate Increasing(th: Thresholds) {
    0 < th.watch < th.suspicious < th.highRisk < th.confirmed
  }

  /** The scores of each level, for increasing thresholds. */
  lemma LevelExactlyWhen(th: Thresholds, score: int)
    requires Increasing(th)
    ensures LevelFromScore(th, score) == Clean <==> score < th.watch
    ensures LevelFromScore(th, score) == Watch <==> th.watch <= score < th.suspicious
    ensures LevelFromScore(th, score) == Suspicious <==> th.suspicious <= score < th.highRisk
    ensures LevelFromScore(th, score) == HighRisk <==> th.highRisk <= score < th.confirmed
    ensures LevelFromScore(th, score) == ConfirmedCheater <==> th.confirmed <= score
  {
  }

  /**
   Under the default tiers a flag at a severity lifts a user without points to
   exactly that level, and no smaller weight would; CLEAN weighs what WATCH does.
   */
  lemma SeverityExact(th: Thresholds, severity: Level)
    requires Increasing(th)
    ensures
      var reached := if severity == Clean then Watch else severity;
      var w := TierWeight(DefaultTiers(th), severity);
      LevelFromScore(th, w) == reached && forall v :: Rank(LevelFromScore(th, v)) >= Rank(reached) <==> v >= w
  {
  }

  /** Each setting changes the weight of its own severity and of no other. */
  lemma TiersIndependent(t: Tiers, severity: Level, w: int)
    ensures TierWeight(t.(watch := w), severity) == if severity == Watch || severity == Clean then w else TierWeight(t, severity)
    ensures TierWeight(t.(suspicious := w), severity) == if severity == Suspicious then w else TierWeight(t, severity)
    ensures TierWeight(t.(highRisk := w), severity) == if severity == HighRisk then w else TierWeight(t, severity)
    ensures TierWeight(t.(confirmed := w), severity) == if severity == ConfirmedCheater then w else TierWeight(t, severity)
  {
  }

  /** The least of the thresholds of `level` and of the levels above it. */
  function FloorOf(th: Thresholds, level: Level): int {
    var c := th.confirmed;
    var h := if th.highRisk < c then th.highRisk else c;
    var s := if th.suspicious < h then th.suspicious else h;
    match level
    case ConfirmedCheater => c
    case HighRisk => h
    case Suspicious => s
    case Watch => if th.watch < s then th.watch else s
    case Clean => 0
  }

  /** The level of a user with `prior` points after a flag of weight `w`. */
  function LevelAfter(th: Thresholds, prior: nat, w: int): Level {
    LevelFromScore(th, prior + w)
  }

  /**
   Exactly when a flag at `severity` lifts every user to that severity: the tier
   weight reaches the threshold.  With the default tiers it always does.
   */
  lemma SeverityFloor(th: Thresholds, t: Tiers, severity: Level)
    requires severity != Clean
    ensures (forall prior: nat :: Rank(LevelAfter(th, prior, TierWeight(t, severity))) >= Rank(severity))
        <==> TierWeight(t, severity) >= FloorOf(th, severity)
    ensures TierWeight(DefaultTiers(th), severity) >= FloorOf(th, severity)
  {
    var w := TierWeight(t, severity);
    if w >= FloorOf(th, severity) {
      forall prior: nat ensures Rank(LevelAfter(th, prior, w)) >= Rank(severity) {
        LevelMonotone(th, w, prior + w);
      }
    } else {
      assert Rank(LevelAfter(th, 0, w)) < Rank(severity);
    }
  }
}
