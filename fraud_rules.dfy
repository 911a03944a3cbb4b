/**
 * The risk rule engine. Six fixed rules are evaluated in a fixed order; every
 * rule that fires appends its flag and adds its weight, and the total is
 * clamped at 100. The two sources of non-determinism of the engine, the
 * wall-clock hour and the 10% random draw, are parameters here.
 */
module FraudRules {
  import opened Wrappers

  /** An hour of the local wall clock, as `datetime.now().hour` yields it. */
  type Hour = h: int | 0 <= h < 24

  /**
   * One transaction record. Every key may be absent; the engine resolves an
   * absent key to its default before comparing.
   */
  datatype Transaction = Transaction(
    velocity: Option<int>,
    amount: Option<real>,
    ipLocation: Option<string>,
    billingLocation: Option<string>,
    cardValid: Option<bool>,
    merchantId: Option<string>)
  {
    /** `velocity`, or 0 when the key is absent. */
    function Velocity(): (v: int)
      ensures velocity.Some? ==> v == velocity.value
      ensures velocity.None? ==> v == 0
    {
      velocity.GetOr(0)
    }

    /** `amount`, or 0 when the key is absent. */
    function Amount(): (a: real)
      ensures amount.Some? ==> a == amount.value
      ensures amount.None? ==> a == 0.0
    {
      amount.GetOr(0.0)
    }

    /** `card_valid`, or true when the key is absent: an absent key means a valid card. */
    function CardValid(): (b: bool)
      ensures cardValid.Some? ==> b == cardValid.value
      ensures cardValid.None? ==> b
    {
      cardValid.GetOr(true)
    }

    /** `merchant_id`, or the empty identifier when the key is absent. */
    function MerchantId(): (id: string)
      ensures merchantId.Some? ==> id == merchantId.value
      ensures merchantId.None? ==> id == ""
    {
      merchantId.GetOr("")
    }
  }

  /** The flags, one per rule. */
  datatype Flag =
    | HighVelocity
    | UnusualAmount
    | LocationMismatch
    | InvalidCard
    | UnusualTiming
    | SuspiciousPattern
  {
    /** The name the flag is reported under. */
    function Name(): (n: string)
      ensures IsFlagName(n)
    {
      match this
      case HighVelocity => "high_velocity"
      case UnusualAmount => "unusual_amount"
      case LocationMismatch => "location_mismatch"
      case InvalidCard => "invalid_card"
      case UnusualTiming => "unusual_timing"
      case SuspiciousPattern => "suspicious_pattern"
    }

    /** What the rule adds to the risk score when it fires. */
    function Weight(): (w: nat)
      ensures 10 <= w <= 30
    {
      match this
      case HighVelocity => 20
      case UnusualAmount => 15
      case LocationMismatch => 25
      case InvalidCard => 30
      case UnusualTiming => 10
      case SuspiciousPattern => 15
    }

    /** The position of the rule in the evaluation order. */
    function Rank(): nat {
      match this
      case HighVelocity => 0
      case UnusualAmount => 1
      case LocationMismatch => 2
      case InvalidCard => 3
      case UnusualTiming => 4
      case SuspiciousPattern => 5
    }
  }

  /** A reported flag name: a non-empty word of lower-case letters and underscores. */
  predicate IsFlagName(s: string) {
    |s| > 0 && forall c :: c in s ==> 'a' <= c <= 'z' || c == '_'
  }

  /** The order in which the engine evaluates its rules. */
  const RuleOrder: seq<Flag> :=
    [HighVelocity, UnusualAmount, LocationMismatch, InvalidCard, UnusualTiming, SuspiciousPattern]

  const MaxScore: nat := 100

  /** The trigger condition of each rule; `patternHit` stands for `random.random() < 0.1`. */
  predicate Fires(f: Flag, t: Transaction, hour: Hour, patternHit: bool)
    // in terms of which keys are present: an absent velocity, amount or card_valid never fires
    ensures f == HighVelocity ==>
      (Fires(f, t, hour, patternHit) <==> t.velocity.Some? && t.velocity.value > 10)
    ensures f == UnusualAmount ==>
      (Fires(f, t, hour, patternHit) <==> t.amount.Some? && t.amount.value > 1000.0)
    ensures f == LocationMismatch ==>
      (Fires(f, t, hour, patternHit) <==>
        t.ipLocation.Some? != t.billingLocation.Some?
        || (t.ipLocation.Some? && t.billingLocation.Some? && t.ipLocation.value != t.billingLocation.value))
    ensures f == InvalidCard ==> (Fires(f, t, hour, patternHit) <==> t.cardValid == Some(false))
    ensures f == UnusualTiming ==> (Fires(f, t, hour, patternHit) <==> !(6 <= hour <= 22))
    ensures f == SuspiciousPattern ==> (Fires(f, t, hour, patternHit) <==> patternHit)
  {
    match f
    case HighVelocity => t.Velocity() > 10
    case UnusualAmount => t.Amount() > 1000.0
    case LocationMismatch => t.ipLocation != t.billingLocation
    case InvalidCard => !t.CardValid()
    case UnusualTiming => hour < 6 || hour > 22
    case SuspiciousPattern => patternHit
  }

  /** What one rule contributes to the flag sequence: its flag if it fires, nothing otherwise. */
  function Step(f: Flag, t: Transaction, hour: Hour, patternHit: bool): seq<Flag> {
    if Fires(f, t, hour, patternHit) then [f] else []
  }

  /** What one rule contributes to the accumulated score. */
  function StepWeight(f: Flag, t: Transaction, hour: Hour, patternHit: bool): nat {
    if Fires(f, t, hour, patternHit) then f.Weight() else 0
  }

  /** The rules of `rules` that fire, in the order of `rules` (built by appending, as the engine does). */
  function Fired(rules: seq<Flag>, t: Transaction, hour: Hour, patternHit: bool): (fs: seq<Flag>)
    ensures |fs| <= |rules|
  {
    if rules == [] then []
    else Fired(rules[..|rules| - 1], t, hour, patternHit) + Step(rules[|rules| - 1], t, hour, patternHit)
  }

  /** The accumulated weight of a sequence of flags. */
  function TotalWeight(flags: seq<Flag>): nat {
    if flags == [] then 0 else TotalWeight(flags[..|flags| - 1]) + flags[|flags| - 1].Weight()
  }

  /** The weights of the rules of `rules` whose condition holds, summed rule by rule. */
  function TriggeredWeight(rules: seq<Flag>, t: Transaction, hour: Hour, patternHit: bool): nat {
    if rules == [] then 0
    else TriggeredWeight(rules[..|rules| - 1], t, hour, patternHit)
         + StepWeight(rules[|rules| - 1], t, hour, patternHit)
  }

  /** Python's `min` on two integers. */
  function Min(a: int, b: int): (m: int)
    ensures m <= a && m <= b
    ensures m == a || m == b
  {
    if a <= b then a else b
  }

  /** The flag sequence the engine reports. */
  function Flags(t: Transaction, hour: Hour, patternHit: bool): (fs: seq<Flag>)
    ensures |fs| <= |RuleOrder|
  {
    Fired(RuleOrder, t, hour, patternHit)
  }

  /** The risk score the engine reports: the weights of the triggered rules, summed and clamped at 100. */
  function Score(t: Transaction, hour: Hour, patternHit: bool): (s: int)
    ensures 0 <= s <= MaxScore
  {
    Min(TriggeredWeight(RuleOrder, t, hour, patternHit), MaxScore)
  }

  /** Flags strictly increase in rule order: they are ordered and pairwise distinct. */
  predicate StrictlyRanked(s: seq<Flag>) {
    forall i, j :: 0 <= i < j < |s| ==> s[i].Rank() < s[j].Rank()
  }

  // ---------------------------------------------------------------------------
  // Properties of the specification

  lemma {:induction false} FiredMembership(rules: seq<Flag>, t: Transaction, hour: Hour, patternHit: bool, f: Flag)
    ensures f in Fired(rules, t, hour, patternHit) <==> f in rules && Fires(f, t, hour, patternHit)
  {
    if rules != [] {
      var init, last := rules[..|rules| - 1], rules[|rules| - 1];
      FiredMembership(init, t, hour, patternHit, f);
      assert rules == init + [last];
    }
  }

  lemma {:induction false} FiredRanksBelow(rules: seq<Flag>, t: Transaction, hour: Hour, patternHit: bool, bound: nat)
    requires forall i :: 0 <= i < |rules| ==> rules[i].Rank() < bound
    ensures forall j :: 0 <= j < |Fired(rules, t, hour, patternHit)| ==> Fired(rules, t, hour, patternHit)[j].Rank() < bound
  {
    if rules != [] {
      FiredRanksBelow(rules[..|rules| - 1], t, hour, patternHit, bound);
    }
  }

  lemma {:induction false} FiredPreservesRank(rules: seq<Flag>, t: Transaction, hour: Hour, patternHit: bool)
    requires StrictlyRanked(rules)
    ensures StrictlyRanked(Fired(rules, t, hour, patternHit))
  {
    if rules != [] {
      var init, last := rules[..|rules| - 1], rules[|rules| - 1];
      var prefix := Fired(init, t, hour, patternHit);
      FiredPreservesRank(init, t, hour, patternHit);
      FiredRanksBelow(init, t, hour, patternHit, last.Rank());
      if Fires(last, t, hour, patternHit) {
        var fs := prefix + [last];
        forall i, j | 0 <= i < j < |fs| ensures fs[i].Rank() < fs[j].Rank() {
          assert fs[i] == prefix[i];
          if j < |prefix| {
            assert fs[j] == prefix[j];
          }
        }
      } else {
        assert prefix + [] == prefix;
      }
    }
  }

  lemma {:induction false} TotalWeightAppend(flags: seq<Flag>, more: seq<Flag>)
    requires |more| <= 1
    ensures TotalWeight(flags + more) == TotalWeight(flags) + TotalWeight(more)
  {
    if more == [] {
      assert flags + more == flags;
    } else {
      assert (flags + more)[..|flags + more| - 1] == flags;
      assert more[..0] == [];
    }
  }

  lemma {:induction false} TotalWeightOfFired(rules: seq<Flag>, t: Transaction, hour: Hour, patternHit: bool)
    ensures TotalWeight(Fired(rules, t, hour, patternHit)) == TriggeredWeight(rules, t, hour, patternHit)
  {
    if rules != [] {
      var init, last := rules[..|rules| - 1], rules[|rules| - 1];
      TotalWeightOfFired(init, t, hour, patternHit);
      TotalWeightAppend(Fired(init, t, hour, patternHit), Step(last, t, hour, patternHit));
    }
  }

  /** Exactly the rules whose condition holds are flagged; no rule suppresses another. */
  lemma FlagsExactlyTriggered(t: Transaction, hour: Hour, patternHit: bool, f: Flag)
    ensures f in Flags(t, hour, patternHit) <==> Fires(f, t, hour, patternHit)
  {
    FiredMembership(RuleOrder, t, hour, patternHit, f);
  }

  /** Flags appear in rule order, each at most once. */
  lemma FlagsInRuleOrder(t: Transaction, hour: Hour, patternHit: bool)
    ensures StrictlyRanked(Flags(t, hour, patternHit))
    ensures forall i, j :: 0 <= i < j < |Flags(t, hour, patternHit)| ==>
              Flags(t, hour, patternHit)[i] != Flags(t, hour, patternHit)[j]
  {
    FiredPreservesRank(RuleOrder, t, hour, patternHit);
  }

  /** The score is the clamped total weight of the reported flags, and lies in 0..100. */
  lemma ScoreMatchesFlags(t: Transaction, hour: Hour, patternHit: bool)
    ensures Score(t, hour, patternHit) == Min(TotalWeight(Flags(t, hour, patternHit)), MaxScore)
    ensures 0 <= Score(t, hour, patternHit) <= MaxScore
  {
    TotalWeightOfFired(RuleOrder, t, hour, patternHit);
  }

  /** Distinct flags are reported under distinct names. */
  lemma FlagNamesDistinct(f: Flag, g: Flag)
    ensures f.Name() == g.Name() ==> f == g
  {
  }

  // ---------------------------------------------------------------------------
  // The engine

  lemma FiredExtend(k: nat, t: Transaction, hour: Hour, patternHit: bool)
    requires k < |RuleOrder|
    ensures Fired(RuleOrder[..k + 1], t, hour, patternHit)
            == Fired(RuleOrder[..k], t, hour, patternHit) + Step(RuleOrder[k], t, hour, patternHit)
  {
    assert RuleOrder[..k + 1][..k] == RuleOrder[..k];
  }

  lemma TriggeredExtend(k: nat, t: Transaction, hour: Hour, patternHit: bool)
    requires k < |RuleOrder|
    ensures TriggeredWeight(RuleOrder[..k + 1], t, hour, patternHit)
            == TriggeredWeight(RuleOrder[..k], t, hour, patternHit) + StepWeight(RuleOrder[k], t, hour, patternHit)
  {
    assert RuleOrder[..k + 1][..k] == RuleOrder[..k];
  }

  /** The reported flags, rule by rule in evaluation order, each rule appending its step. */
  lemma FlagsUnfold(t: Transaction, hour: Hour, patternHit: bool)
    ensures Flags(t, hour, patternHit) ==
      [] + Step(HighVelocity, t, hour, patternHit) + Step(UnusualAmount, t, hour, patternHit)
      + Step(LocationMismatch, t, hour, patternHit) + Step(InvalidCard, t, hour, patternHit)
      + Step(UnusualTiming, t, hour, patternHit) + Step(SuspiciousPattern, t, hour, patternHit)
  {
    assert RuleOrder[..0] == [];
    FiredExtend(0, t, hour, patternHit);
    FiredExtend(1, t, hour, patternHit);
    FiredExtend(2, t, hour, patternHit);
    FiredExtend(3, t, hour, patternHit);
    FiredExtend(4, t, hour, patternHit);
    FiredExtend(5, t, hour, patternHit);
    assert RuleOrder[..6] == RuleOrder;
  }

  /** The triggered weight, rule by rule in evaluation order, each rule adding its weight. */
  lemma ScoreUnfold(t: Transaction, hour: Hour, patternHit: bool)
    ensures TriggeredWeight(RuleOrder, t, hour, patternHit) ==
      0 + StepWeight(HighVelocity, t, hour, patternHit) + StepWeight(UnusualAmount, t, hour, patternHit)
      + StepWeight(LocationMismatch, t, hour, patternHit) + StepWeight(InvalidCard, t, hour, patternHit)
      + StepWeight(UnusualTiming, t, hour, patternHit) + StepWeight(SuspiciousPattern, t, hour, patternHit)
  {
    assert RuleOrder[..0] == [];
    TriggeredExtend(0, t, hour, patternHit);
    TriggeredExtend(1, t, hour, patternHit);
    TriggeredExtend(2, t, hour, patternHit);
    TriggeredExtend(3, t, hour, patternHit);
    TriggeredExtend(4, t, hour, patternHit);
    TriggeredExtend(5, t, hour, patternHit);
    assert RuleOrder[..6] == RuleOrder;
  }

  lemma AppendNothing(flags: seq<Flag>)
    ensures flags + [] == flags
  {
  }

  /**
   * `detect_fraud`: evaluates the six rules in order, appending each flag that
   * fires and accumulating its weight, then clamps the total at 100.
   */
  method DetectFraud(t: Transaction, hour: Hour, patternHit: bool) returns (flags: seq<Flag>, riskScore: int)
    ensures flags == Flags(t, hour, patternHit)
    ensures riskScore == Score(t, hour, patternHit)
    ensures 0 <= riskScore <= MaxScore
  {
    flags := [];
    riskScore := 0;
    // `decided` and `accumulated` follow the rules evaluated so far, one step per rule.
    ghost var decided: seq<Flag> := [];
    ghost var accumulated: int := 0;

    if t.Velocity() > 10 {
      flags := flags + [HighVelocity];
      riskScore := riskScore + 20;
    } else {
      AppendNothing(flags);
    }
    decided, accumulated := decided + Step(HighVelocity, t, hour, patternHit), accumulated + StepWeight(HighVelocity, t, hour, patternHit);
    assert flags == decided && riskScore == accumulated;

    if t.Amount() > 1000.0 {
      flags := flags + [UnusualAmount];
      riskScore := riskScore + 15;
    } else {
      AppendNothing(flags);
    }
    decided, accumulated := decided + Step(UnusualAmount, t, hour, patternHit), accumulated + StepWeight(UnusualAmount, t, hour, patternHit);
    assert flags == decided && riskScore == accumulated;

    if t.ipLocation != t.billingLocation {
      flags := flags + [LocationMismatch];
      riskScore := riskScore + 25;
    } else {
      AppendNothing(flags);
    }
    decided, accumulated := decided + Step(LocationMismatch, t, hour, patternHit), accumulated + StepWeight(LocationMismatch, t, hour, patternHit);
    assert flags == decided && riskScore == accumulated;

    if !t.CardValid() {
      flags := flags + [InvalidCard];
      riskScore := riskScore + 30;
    } else {
      AppendNothing(flags);
    }
    decided, accumulated := decided + Step(InvalidCard, t, hour, patternHit), accumulated + StepWeight(InvalidCard, t, hour, patternHit);
    assert flags == decided && riskScore == accumulated;

    if hour < 6 || hour > 22 {
      flags := flags + [UnusualTiming];
      riskScore := riskScore + 10;
    } else {
      AppendNothing(flags);
    }
    decided, accumulated := decided + Step(UnusualTiming, t, hour, patternHit), accumulated + StepWeight(UnusualTiming, t, hour, patternHit);
    assert flags == decided && riskScore == accumulated;

    if patternHit {
      flags := flags + [SuspiciousPattern];
      riskScore := riskScore + 15;
    } else {
      AppendNothing(flags);
    }
    decided, accumulated := decided + Step(SuspiciousPattern, t, hour, patternHit), accumulated + StepWeight(SuspiciousPattern, t, hour, patternHit);
    assert flags == decided && riskScore == accumulated;

    riskScore := Min(riskScore, MaxScore);

    FlagsUnfold(t, hour, patternHit);
    ScoreUnfold(t, hour, patternHit);
  }

  // ---------------------------------------------------------------------------
  // Scenarios

  /** The conditions under which none of the six rules fires. */
  predicate Quiet(t: Transaction, hour: Hour, patternHit: bool) {
    t.Velocity() <= 10 && t.Amount() <= 1000.0 && t.ipLocation == t.billingLocation
    && t.CardValid() && 6 <= hour <= 22 && !patternHit
  }

  /** A transaction that triggers no rule gets no flag and score 0. */
  lemma QuietTransactionIsClean(t: Transaction, hour: Hour, patternHit: bool)
    requires Quiet(t, hour, patternHit)
    ensures Flags(t, hour, patternHit) == [] && Score(t, hour, patternHit) == 0
  {
    FlagsUnfold(t, hour, patternHit);
    ScoreUnfold(t, hour, patternHit);
  }

  /** With every key absent, the defaults trigger nothing: two absent locations compare equal. */
  lemma EmptyRecordIsClean(hour: Hour)
    requires 6 <= hour <= 22
    ensures var t := Transaction(None, None, None, None, None, None);
      Flags(t, hour, false) == [] && Score(t, hour, false) == 0
  {
    QuietTransactionIsClean(Transaction(None, None, None, None, None, None), hour, false);
  }

  /** An absent location against a present one is a mismatch. */
  lemma OneAbsentLocationMismatches(t: Transaction, hour: Hour, patternHit: bool)
    requires t.ipLocation.None? != t.billingLocation.None?
    ensures LocationMismatch in Flags(t, hour, patternHit)
  {
    FlagsExactlyTriggered(t, hour, patternHit, LocationMismatch);
  }

  /** An invalid card alone yields exactly its flag and its weight. */
  lemma InvalidCardAlone(t: Transaction, hour: Hour, patternHit: bool)
    requires t.Velocity() <= 10 && t.Amount() <= 1000.0 && t.ipLocation == t.billingLocation
    requires !t.CardValid() && 6 <= hour <= 22 && !patternHit
    ensures Flags(t, hour, patternHit) == [InvalidCard] && Score(t, hour, patternHit) == 30
  {
    FlagsUnfold(t, hour, patternHit);
    ScoreUnfold(t, hour, patternHit);
  }

  /** The four input rules together score 90; with the timing rule the score reaches exactly 100. */
  lemma DeterministicRulesTogether(t: Transaction, hour: Hour)
    requires t.Velocity() > 10 && t.Amount() > 1000.0 && t.ipLocation != t.billingLocation && !t.CardValid()
    ensures 6 <= hour <= 22 ==>
      Flags(t, hour, false) == [HighVelocity, UnusualAmount, LocationMismatch, InvalidCard]
      && Score(t, hour, false) == 90
    ensures hour < 6 || hour > 22 ==> Score(t, hour, false) == 100
  {
    FlagsUnfold(t, hour, false);
    ScoreUnfold(t, hour, false);
  }

  /** All six rules firing weigh 115 in total, and the reported score is clamped to 100. */
  lemma AllRulesClamped(t: Transaction, hour: Hour)
    requires t.Velocity() > 10 && t.Amount() > 1000.0 && t.ipLocation != t.billingLocation && !t.CardValid()
    requires hour < 6 || hour > 22
    ensures Flags(t, hour, true) == RuleOrder
    ensures TotalWeight(Flags(t, hour, true)) == 115 && Score(t, hour, true) == MaxScore
  {
    FlagsUnfold(t, hour, true);
    ScoreUnfold(t, hour, true);
    TotalWeightOfFired(RuleOrder, t, hour, true);
  }
}
