# Fraud-scoring engine, modelled in Dafny

This project models the scoring core of a small payment fraud-analysis service (`app.py`).
One transaction record goes through the rule engine `detect_fraud`. It checks six fixed
rules in a fixed order: high velocity, unusual amount, location mismatch, invalid card,
unusual hour and a random "suspicious pattern". Each rule that fires appends its flag and
adds a fixed weight (20, 15, 25, 30, 10, 15), and the total is clamped with
`min(risk_score, 100)`. The score then goes to `get_decision`, a step function onto
APPROVE / REVIEW / DECLINE / BLOCK at the bounds 25, 50 and 75. The merchant named in the
request is looked up in a static four-entry directory. Any unknown identifier, including
the empty one, falls back to a fixed "Unknown Merchant" record.

Files and modules:

- `wrappers.dfy` (`Wrappers`): `Option`, for record keys that may be absent. `GetOr`
  plays the part of Python's `dict.get(key, default)`.
- `merchants.dfy` (`Merchants`): the directory `MerchantDb`, the fallback record
  `UnknownMerchant` and `Lookup`.
- `fraud_rules.dfy` (`FraudRules`): the transaction record, the flags and their weights,
  the specification of the engine (`Fired`, `Flags`, `Score`), the imperative engine
  `DetectFraud`, and the lemmas about them.
- `decisions.dfy` (`Decisions`): `Decision` and `GetDecision`, with a threshold-counting
  reference definition `Exceeded`. `SeverityCountsThresholds` ties the two together, and
  `DecisionMonotone` derives monotonicity of the decision from monotonicity of the count.
- `scenarios.dfy` (`Scenarios`): properties that combine the lookup, the engine and the
  decision, as one analysis request does.

`detect_fraud` reads the wall clock (`datetime.now().hour`) and draws a random number
(`random.random() < 0.1`). Both are parameters here: `hour: Hour` (0..23) and
`patternHit: bool`, which stands for the draw being below 0.1. With these parameters
every rule is a deterministic condition.

Transaction keys are `Option` fields, resolved as the code resolves them:
- velocity defaults to 0;
- amount defaults to 0 (modelled as `real`, since it is a JSON number);
- `card_valid` defaults to true;
- the two locations stay `None` when absent. `None != None` is false in Python, so two
  absent locations do not mismatch, while one absent and one present location do.

`DetectFraud` is written in the source's own form: six `if`s, each appending to `flags`
and adding its literal weight to `riskScore`, and a final `min`. It is proved equal to a
specification:
- `Flags` is the rules of `RuleOrder` that fire, filtered in order.
- `Score` is `min` of the summed weights of the triggered rules and 100.

The lemmas then prove what the source promises about those two functions: the membership
iff, the rule order, the 0..100 bound, the agreement of the score with the weights of the
reported flags, and the concrete scenarios.

## Model

| member | source | states |
|---|---|---|
| `FraudRules.Transaction.Velocity` | app.py:47 | a present `velocity` reads as its value; an absent one as 0 |
| `FraudRules.Transaction.Amount` | app.py:52 | a present `amount` reads as its value; an absent one as 0 |
| `FraudRules.Transaction.CardValid` | app.py:62 | a present `card_valid` reads as its value; an absent one as true, that is a valid card |
| `FraudRules.Transaction.MerchantId` | app.py:97 | a present `merchant_id` reads as its value; an absent one as the empty identifier |
| `FraudRules.Flag.Name` | app.py:48-74 | defines the six reported flag strings; each is a non-empty word of lower-case letters and underscores |
| `FraudRules.Flag.Weight` | app.py:49-75 | defines the six rule weights 20, 15, 25, 30, 10, 15; each lies between 10 and 30 |
| `FraudRules.Fires` | app.py:47-73 | defines the six trigger conditions; in terms of the keys present: velocity fires iff present and above 10, amount iff present and above 1000, location iff exactly one location is present or both are and differ, card iff `card_valid` is present and false, timing iff the hour is outside 6..22, pattern iff the random draw hit |
| `FraudRules.Flags` | app.py:43-77 | defines the reported flag list as the rules of the evaluation order that fire; at most six flags |
| `FraudRules.Score` | app.py:44-77 | defines the reported score as the summed weights of the firing rules clamped at 100; it lies in 0..100 |
| `FraudRules.DetectFraud` | app.py:42-77 | the engine returns exactly `Flags(t, hour, patternHit)` and `Score(t, hour, patternHit)`, and its score lies in 0..100 |
| `FraudRules.FlagsExactlyTriggered` | app.py:47-75 | a flag is reported if and only if its rule's condition holds; no rule suppresses another |
| `FraudRules.FlagsInRuleOrder` | app.py:43-75 | reported flags strictly follow the evaluation order, so each appears at most once |
| `FraudRules.FiredMembership` | app.py:47-75 | for any list of rules, a flag is among those that fire iff it is in the list and its condition holds |
| `FraudRules.FiredPreservesRank` | app.py:47-75 | filtering a strictly ordered list of rules keeps it strictly ordered |
| `FraudRules.ScoreMatchesFlags` | app.py:44-77 | the score is `min(total weight of the reported flags, 100)` and lies in 0..100 |
| `FraudRules.TotalWeightOfFired` | app.py:47-75 | the weight accumulated over the appended flags equals the sum of the weights of the rules that fire |
| `FraudRules.FlagsUnfold` | app.py:47-75 | the flag sequence is the concatenation, in rule order, of each rule's flag when it fires |
| `FraudRules.ScoreUnfold` | app.py:44-75 | the unclamped total is the sum, in rule order, of each rule's weight when it fires |
| `FraudRules.Min` | app.py:77 | `min(a, b)` is at most both arguments and equal to one of them |
| `FraudRules.FlagNamesDistinct` | app.py:48-74 | the six reported flag names are pairwise different |
| `FraudRules.QuietTransactionIsClean` | app.py:47-77 | velocity ≤ 10, amount ≤ 1000, equal locations, a valid card, 6 ≤ hour ≤ 22 and no random hit give no flags and score 0 |
| `FraudRules.EmptyRecordIsClean` | app.py:47-62 | a record with every key absent resolves to the defaults and, at a daytime hour without a random hit, triggers nothing |
| `FraudRules.OneAbsentLocationMismatches` | app.py:57-59 | one absent and one present location always raise `location_mismatch` |
| `FraudRules.InvalidCardAlone` | app.py:61-77 | an invalid card with no other trigger gives flags `[InvalidCard]` and score 30 |
| `FraudRules.DeterministicRulesTogether` | app.py:47-77 | the four input rules give the four flags in order and score 90; with the timing rule the score is exactly 100 |
| `FraudRules.AllRulesClamped` | app.py:47-77 | all six rules firing report all six flags in rule order, total 115, and the score is clamped to 100 |
| `Decisions.GetDecision` | app.py:79-87 | APPROVE iff score ≤ 25, REVIEW iff 25 < score ≤ 50, DECLINE iff 50 < score ≤ 75, BLOCK iff score > 75 |
| `Decisions.Decision.Name` | app.py:81-87 | defines the four reported strings "APPROVE", "REVIEW", "DECLINE", "BLOCK"; each is a non-empty word of upper-case letters |
| `Decisions.ReportedName` | app.py:79-87 | the reported string is "APPROVE" iff score ≤ 25, "REVIEW" iff 25 < score ≤ 50, "DECLINE" iff 50 < score ≤ 75, "BLOCK" iff score > 75 |
| `Decisions.SeverityCountsThresholds` | app.py:79-87 | the decision's position in APPROVE < REVIEW < DECLINE < BLOCK equals the number of bounds 25, 50, 75 the score exceeds |
| `Decisions.ExceededMonotone` | app.py:79-87 | a larger score exceeds at least as many bounds |
| `Decisions.DecisionMonotone` | app.py:79-87 | the decision is monotone non-decreasing in the score |
| `Decisions.DecisionBoundaries` | app.py:79-87 | decide(25)=APPROVE, decide(26)=REVIEW, decide(50)=REVIEW, decide(51)=DECLINE, decide(75)=DECLINE, decide(76)=BLOCK |
| `Decisions.NamesDistinct` | app.py:80-87 | the four decision strings are pairwise different |
| `Merchants.Lookup` | app.py:100-106 | the lookup is total: a known key returns its own entry, any other key the fallback record, and either way the MCC code is four digits |
| `Merchants.LookupFallbackIffUnknown` | app.py:100-106 | the fallback record is returned exactly for identifiers the directory does not hold |
| `Merchants.DirectoryContents` | app.py:10-39 | the directory `MerchantDb` holds exactly the four identifiers of the table, and no two of its entries share an MCC code |
| `Merchants.FallbackRecord` | app.py:100-106 | an unknown identifier yields the fallback record `UnknownMerchant`: "Unknown Merchant", "Unknown Category", "Unknown Location", Medium, "0000", a code no directory entry uses |
| `Merchants.FallbackNotInDirectory` | app.py:10-39 | no directory entry equals the fallback record |
| `Merchants.KeysEmbedMccCode` | app.py:10-39 | every directory key is `MCC_<code>_<id>` and its code is the entry's `mcc_code` |
| `Merchants.LookupExamples` | app.py:25-31 | "MCC_5999_11111" is "Suspicious Store" (High risk) |
| `Merchants.LookupFallbackExamples` | app.py:100-106 | "" and "nonexistent_key" get the fallback record, with risk Medium and code "0000" |
| `Scenarios.EngineDecisionInBand` | app.py:109-112 | every score the engine reports lies in 0..100, and its decision is in the band of that score |
| `Scenarios.SingleRuleAtMostReview` | app.py:47-87 | when at most one rule fires the decision is at most REVIEW |
| `Scenarios.SuspiciousStoreScenario` | app.py:97-112 | velocity 12, amount 1500, "US" vs "FR", valid card, at "MCC_5999_11111", off-hours and random rules quiet: flags high_velocity, unusual_amount, location_mismatch, score 60, DECLINE, merchant "Suspicious Store" |

## Left out

- The Flask application, the routes `index`, `analyze_transaction` and `get_merchants`, and the calls to `render_template`, `jsonify` and `request.json` (app.py:1-7, 89-137). They are HTTP and I/O glue. The merchant-identifier listing is part of this glue.
- The catch-all `except Exception` that turns any failure into a 400 response (app.py:129-130). It handles runtime errors around JSON parsing.
- The wall clock and the random source (app.py:67, 73). They are the parameters `hour` and `patternHit`.
- The transaction identifier built from `time.time()`, the random processing time and the ISO timestamp (app.py:115-124). They come only from the environment.
- Python truthiness on arbitrary JSON values. Examples are a non-boolean `card_valid`, a string `amount`, or an explicit JSON `null` for velocity or amount, which makes `null > 10` raise in Python. The record is modelled as already typed.
- An explicit JSON `null` for `card_valid`: in the source `not None` is true, so `invalid_card` fires and adds 30. The model has one `None` for both a missing key and a null value, and reads it as a valid card, so for this input it reports no `invalid_card` flag where the source does.
- Floating point: `amount` is an exact `real`, so rounding of JSON floats near 1000 is not modelled. Nor are the non-finite values the JSON parser accepts: `Infinity` makes `unusual_amount` fire and `NaN` never does, and a `real` can hold neither.
- DetectFraud: returns its flags as `Flag` values rather than strings. `Flag.Name()` gives the reported string, and `FlagNamesDistinct` shows that no two flags share one.
- DetectFraud: its own contract does not repeat the membership and ordering properties. They are stated once about `Flags`, which the method's result equals (`FlagsExactlyTriggered`, `FlagsInRuleOrder`).
- `risk_level` is the enumeration `RiskLevel` rather than a free string. The four decisions are the enumeration `Decision`, whose `Name()` gives the reported string.
