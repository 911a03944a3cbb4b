/**
 * The decision policy: a total step function from risk score to one of four
 * actions, ordered APPROVE < REVIEW < DECLINE < BLOCK.
 */
module Decisions {

  datatype Decision = Approve | Review | Decline | Block {

    /** The string the decision is reported as. */
    function Name(): (n: string)
      ensures IsDecisionName(n)
    {
      match this
      case Approve => "APPROVE"
      case Review => "REVIEW"
      case Decline => "DECLINE"
      case Block => "BLOCK"
    }

    /** Position in the order APPROVE < REVIEW < DECLINE < BLOCK. */
    function Severity(): nat {
      match this
      case Approve => 0
      case Review => 1
      case Decline => 2
      case Block => 3
    }
  }

  /** A reported decision name: a non-empty word of upper-case letters. */
  predicate IsDecisionName(s: string) {
    |s| > 0 && forall c :: c in s ==> 'A' <= c <= 'Z'
  }

  /** The upper bounds of the APPROVE, REVIEW and DECLINE bands. */
  const Thresholds: seq<int> := [25, 50, 75]

  /** `get_decision`: the first band whose bound the score does not exceed, or BLOCK. */
  function GetDecision(riskScore: int): (d: Decision)
    ensures d == Approve <==> riskScore <= 25
    ensures d == Review <==> 25 < riskScore <= 50
    ensures d == Decline <==> 50 < riskScore <= 75
    ensures d == Block <==> 75 < riskScore
  {
    if riskScore <= 25 then Approve
    else if riskScore <= 50 then Review
    else if riskScore <= 75 then Decline
    else Block
  }

  /** How many of `bounds` the score lies above. */
  function Exceeded(bounds: seq<int>, riskScore: int): (n: nat)
    ensures n <= |bounds|
  {
    if bounds == [] then 0
    else (if riskScore > bounds[0] then 1 else 0) + Exceeded(bounds[1..], riskScore)
  }

  lemma {:induction false} ExceededMonotone(bounds: seq<int>, a: int, b: int)
    requires a <= b
    ensures Exceeded(bounds, a) <= Exceeded(bounds, b)
  {
    if bounds != [] {
      ExceededMonotone(bounds[1..], a, b);
    }
  }

  /** The severity of the decision is the number of band bounds the score exceeds. */
  lemma SeverityCountsThresholds(riskScore: int)
    ensures GetDecision(riskScore).Severity() == Exceeded(Thresholds, riskScore)
  {
    var s := riskScore;
    assert Thresholds[1..] == [50, 75] && [50, 75][1..] == [75] && [75][1..] == [];
    assert Exceeded([75], s) == (if s > 75 then 1 else 0);
    assert Exceeded([50, 75], s) == (if s > 50 then 1 else 0) + Exceeded([75], s);
    assert Exceeded(Thresholds, s) == (if s > 25 then 1 else 0) + Exceeded([50, 75], s);
  }

  /** A higher score never yields a milder decision: it exceeds at least as many bounds. */
  lemma DecisionMonotone(a: int, b: int)
    requires a <= b
    ensures GetDecision(a).Severity() <= GetDecision(b).Severity()
  {
    SeverityCountsThresholds(a);
    SeverityCountsThresholds(b);
    ExceededMonotone(Thresholds, a, b);
  }

  /** The band edges. */
  lemma DecisionBoundaries()
    ensures GetDecision(25) == Approve && GetDecision(26) == Review
    ensures GetDecision(50) == Review && GetDecision(51) == Decline
    ensures GetDecision(75) == Decline && GetDecision(76) == Block
    ensures GetDecision(0) == Approve && GetDecision(100) == Block
  {
  }

  /** The string `get_decision` returns, band by band. */
  lemma ReportedName(riskScore: int)
    ensures GetDecision(riskScore).Name() == "APPROVE" <==> riskScore <= 25
    ensures GetDecision(riskScore).Name() == "REVIEW" <==> 25 < riskScore <= 50
    ensures GetDecision(riskScore).Name() == "DECLINE" <==> 50 < riskScore <= 75
    ensures GetDecision(riskScore).Name() == "BLOCK" <==> 75 < riskScore
  {
  }

  /** Distinct decisions are reported under distinct names. */
  lemma NamesDistinct(d: Decision, e: Decision)
    ensures d.Name() == e.Name() ==> d == e
  {
  }
}
