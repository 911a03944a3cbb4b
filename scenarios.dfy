/**
 * Scenarios that combine the merchant lookup, the rule engine and the decision
 * policy the way one analysis request does.
 */
module Scenarios {
  import opened Wrappers
  import opened Merchants
  import opened FraudRules
  import opened Decisions

  /** Every score the engine can report maps to one of the four decisions, in the band of that score. */
  lemma EngineDecisionInBand(t: Transaction, hour: Hour, patternHit: bool)
    ensures var s := Score(t, hour, patternHit);
      0 <= s <= MaxScore
      && (GetDecision(s) == Approve <==> s <= 25)
      && (GetDecision(s) == Review <==> 25 < s <= 50)
      && (GetDecision(s) == Decline <==> 50 < s <= 75)
      && (GetDecision(s) == Block <==> 75 < s)
  {
  }

  /** A single rule on its own never leads beyond REVIEW: the largest weight is 30. */
  lemma SingleRuleAtMostReview(t: Transaction, hour: Hour, patternHit: bool)
    requires |Flags(t, hour, patternHit)| <= 1
    ensures GetDecision(Score(t, hour, patternHit)).Severity() <= Review.Severity()
  {
    var fs := Flags(t, hour, patternHit);
    ScoreMatchesFlags(t, hour, patternHit);
    if fs != [] {
      assert fs[..0] == [];
    }
    DecisionMonotone(Score(t, hour, patternHit), 30);
  }

  /**
   * A high-velocity, high-amount purchase from a foreign IP at a known risky
   * merchant, outside the timing and random rules.
   */
  lemma SuspiciousStoreScenario()
    ensures var t := Transaction(Some(12), Some(1500.0), Some("US"), Some("FR"), Some(true), Some("MCC_5999_11111"));
      Flags(t, 12, false) == [HighVelocity, UnusualAmount, LocationMismatch]
      && Score(t, 12, false) == 60
      && GetDecision(Score(t, 12, false)) == Decline
      && Lookup(t.MerchantId()).name == "Suspicious Store"
  {
    var t := Transaction(Some(12), Some(1500.0), Some("US"), Some("FR"), Some(true), Some("MCC_5999_11111"));
    assert t.ipLocation != t.billingLocation;
    FlagsUnfold(t, 12, false);
    ScoreUnfold(t, 12, false);
  }
}
