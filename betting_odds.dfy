/** Decimal betting odds (part2 utils/BettingOdds.java): longer for a less confident horse
    and for a slower, riskier surface, and never below 1.1. */
module BettingOdds {
  import opened TrackModel

  /** The floor the odds never go below. */
  const MinimumOdds: real := 1.1

  /** The odds before the floor: 2 plus 8 per missing unit of confidence, scaled up by
      how much the surface slows horses and how much it adds to the fall risk. A dry
      surface leaves the confidence odds as they are, and no surface shortens them. */
  function RawOdds(confidence: real, condition: TrackCondition): (r: real)
    ensures condition == Dry ==> r == 2.0 + (1.0 - confidence) * 8.0
    ensures confidence <= 1.0 ==> r >= 2.0 + (1.0 - confidence) * 8.0 >= 2.0
  {
    var base := 2.0 + (1.0 - confidence) * 8.0;
    var a := 2.0 - SpeedModifier(condition);
    var b := 1.0 + FallRiskModifier(condition);
    if confidence <= 1.0 then
      ScaleUp(base, a);
      ScaleUp(base * a, b);
      base * a * b
    else
      base * a * b
  }

  /** calculateOdds(horse, track), on the horse's confidence and the track's condition:
      the raw odds, but never less than 1.1. */
  function CalculateOdds(confidence: real, condition: TrackCondition): (odds: real)
    ensures odds >= MinimumOdds
    ensures odds == MinimumOdds || odds == RawOdds(confidence, condition)
    ensures odds >= RawOdds(confidence, condition)
  {
    var raw := RawOdds(confidence, condition);
    if MinimumOdds >= raw then MinimumOdds else raw
  }

  /** calculatePotentialWinnings: the stake times the decimal odds. Decimal odds of at
      least 1 pay back at least a non-negative stake, and odds above 1 pay back more than
      a positive stake. */
  function CalculatePotentialWinnings(betAmount: real, odds: real): (w: real)
    ensures betAmount >= 0.0 && odds >= 1.0 ==> w >= betAmount
    ensures betAmount > 0.0 && odds > 1.0 ==> w > betAmount
  {
    assert betAmount * odds - betAmount == betAmount * (odds - 1.0);
    betAmount * odds
  }

  /** The odds this module produces always pay back more than a positive stake. */
  lemma OddsWinningsCoverStake(betAmount: real, confidence: real, condition: TrackCondition)
    requires betAmount > 0.0
    ensures CalculatePotentialWinnings(betAmount, CalculateOdds(confidence, condition)) > betAmount
  {
    assert CalculateOdds(confidence, condition) >= MinimumOdds;
  }

  /** With confidence in [0, 1] the floor never applies: the odds lie between 2 and 10
      times the track factors, and on a dry track exactly between 2 and 10. */
  lemma OddsRange(confidence: real, condition: TrackCondition)
    requires 0.0 <= confidence <= 1.0
    ensures CalculateOdds(confidence, condition) == RawOdds(confidence, condition)
    ensures condition == Dry ==> 2.0 <= CalculateOdds(confidence, condition) <= 10.0
    ensures condition == Dry ==> CalculateOdds(confidence, condition) == 2.0 + (1.0 - confidence) * 8.0
  {
  }

  lemma ScaleUp(x: real, factor: real)
    requires x >= 0.0 && factor >= 1.0
    ensures x * factor >= x
  {
    assert x * factor - x == x * (factor - 1.0);
  }

  /** More confidence never lengthens the odds on the same surface. */
  lemma OddsFallWithConfidence(c1: real, c2: real, condition: TrackCondition)
    requires c1 <= c2
    ensures CalculateOdds(c2, condition) <= CalculateOdds(c1, condition)
  {
    var ab := (2.0 - SpeedModifier(condition)) * (1.0 + FallRiskModifier(condition));
    assert ab > 0.0;
    var d1 := 2.0 + (1.0 - c1) * 8.0;
    var d2 := 2.0 + (1.0 - c2) * 8.0;
    assert d2 <= d1;
    assert RawOdds(c1, condition) == d1 * ab;
    assert RawOdds(c2, condition) == d2 * ab;
    assert d1 * ab - d2 * ab == (d1 - d2) * ab;
  }

  /** For a horse with confidence in [0, 1], a slower surface never shortens the odds:
      DRY gives the shortest odds, then MUDDY, then ICY. */
  lemma OddsRiseOnSlowerSurface(confidence: real, a: TrackCondition, b: TrackCondition)
    requires 0.0 <= confidence <= 1.0
    requires SpeedModifier(a) <= SpeedModifier(b)
    ensures CalculateOdds(confidence, b) <= CalculateOdds(confidence, a)
  {
    SlowerIsRiskier(a, b);
    var base := 2.0 + (1.0 - confidence) * 8.0;
    var sa, sb := 2.0 - SpeedModifier(a), 2.0 - SpeedModifier(b);
    var ra, rb := 1.0 + FallRiskModifier(a), 1.0 + FallRiskModifier(b);
    assert sb <= sa && rb <= ra && sb > 0.0 && rb > 0.0 && base > 0.0;
    assert RawOdds(confidence, a) == base * (sa * ra);
    assert RawOdds(confidence, b) == base * (sb * rb);
    assert sa * ra - sb * rb == sa * (ra - rb) + (sa - sb) * rb;
    assert sb * rb <= sa * ra;
    assert base * (sa * ra) - base * (sb * rb) == base * (sa * ra - sb * rb);
    OddsRange(confidence, a);
    OddsRange(confidence, b);
  }
}
