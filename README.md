# SentinelPay scoring engine in Dafny

SentinelPay keeps an in-memory list of payment transactions and offers three
rule-based evaluators over it:

- a **risk** score for one transaction, from four fixed-weight rules;
- a **credit** score for one user, from four adjustments to a base of 600;
- a **dynamic limit** for one user, from the average risk of their last five transactions.

This project models that engine over an explicit store, `store: seq<Txn>`,
in place of the process-wide transaction list. It has four modules, one per source file:

- `Transaction` (`transaction.dfy`): the record types, the per-user filter
  `UserTxns`, and the store. The store is a class whose one field, `records`,
  `Ingest` appends to.
- `Risk` (`risk.dfy`): the four rules, `ComputeRisk`, and the lookup by id
  `AssessRisk`.
- `Credit` (`credit.dfy`): `GetCreditScore`, which applies the adjustments
  step by step as the source does.
- `Limit` (`limit.dfy`): the base-limit lookup and `GetDynamicLimit`.

## Reference definitions

Each evaluator is paired with a reference definition written as a table:

- The risk rules form the datatype `Rule`. `Fires`, `Weight` and `Reason`
  describe each rule, and `Fired` lists the rules that fire, in rule order.
- The credit adjustments form the datatype `Adjustment`. `Applies`, `Delta`
  and `Factor` describe each one, and `Applied` lists those that apply.
- The limit bands are the predicate `InBand` and the functions `Scale` and `BandReason`.

The lemmas tie the imperative or if-chained code to these tables, and prove
the engine's properties about the tables. Those properties are:

- the score is the capped weight sum;
- each reason appears exactly when its rule fires, in rule order, with no duplicates;
- the clamps never bind;
- the bands partition the averages;
- the limit is monotone in the average;
- another user's record changes nothing in a transaction's risk assessment,
  in a user's credit aggregates, or in a user's recent average risk (the
  only input of the limit decision besides the store-independent base limit).

## Conventions

- Time is an integer count of microseconds, the resolution of the source's
  timestamps. The hour of a timestamp is `(ts / MicrosPerHour) % 24`.
- The current time and the fresh transaction id are parameters (`now`, `freshId`).
- Amounts, averages and limits are exact `real`s.

## Quirks the model keeps

The model reproduces the code's behaviour, including these quirks:

- The velocity window has no upper time bound, so later records count (`Risk.VelocityRule`, `Risk.LaterRecordsTriggerVelocity`).
- The set of previous locations includes the evaluated transaction itself. So the location rule never fires for a stored transaction (`Risk.StoredNeverNewLocation`).
- The "hour > 23" half of the odd-hour test never holds (`Risk.OddHourRule`).
- The risk cap of 100 and the credit clamp to [300, 900] never bind. Risk is at most 90, and a non-empty history's credit score lies in [500, 850] (`Risk.ComputeRisk`, `Credit.AppliedRange`, `Credit.TopScore`).

The clamp's upper end of 900 is never reached: the four adding adjustments
total at most +250, so the best score is 600 + 50 + 100 + 50 + 50 = 850
(`Credit.TopScore`).

## Model

| member | source | states |
|---|---|---|
| Transaction.MakeRecord | app/api/transaction.py:50-59 | the new record takes the generated id and the current time, and copies user, amount, merchant, category, location and device from the input |
| Transaction.UserTxns | app/api/credit.py:21 | a user's history has exactly the store's records of that user, and is no longer than the store |
| Transaction.UserTxnsCount | app/api/credit.py:21 | a user's history holds each of the user's records exactly as often as the store does, and no record of another user |
| Transaction.UserTxnsAppend | app/api/transaction.py:61 | appending a record to the store appends it to its own user's history and leaves every other user's history unchanged |
| Transaction.TransactionStore.constructor | app/api/transaction.py:13 | the store starts empty |
| Transaction.TransactionStore.Ingest | app/api/transaction.py:40-67 | exactly one record is appended at the end and earlier records are unchanged; the response carries that record's id and timestamp with status "accepted"; positive amounts and unique ids are preserved |
| Transaction.TransactionStore.GetAll | app/api/transaction.py:74-80 | returns the store's records as they are |
| Risk.HourOf | app/api/risk.py:54 | the hour of a timestamp lies in 0..23 |
| Risk.VelocityWindow | app/api/risk.py:34-38 | the window holds exactly the stored records of the same user no earlier than ten minutes before the transaction, with no upper time bound |
| Risk.InWindow | app/api/risk.py:36-37 | a record is in the window of a transaction iff it has the same user and is at most ten minutes older; any later record of the user is in the window |
| Risk.VelocityWindowCount | app/api/risk.py:34-40 | the window holds each stored record that is in the window exactly as often as the store does, and nothing else |
| Risk.PreviousLocations | app/api/risk.py:45-47 | a location is in the set iff some stored record of the user has it; every stored record of the user, the evaluated one included, contributes its location |
| Risk.FiredInMembers | app/api/risk.py:28-57 | a rule is kept exactly when it is in the rule list and fires |
| Risk.FiredInOrdered | app/api/risk.py:28-57 | filtering a rank-ordered rule list keeps it rank-ordered |
| Risk.FiredExplicit | app/api/risk.py:28-57 | the fired rules are the four optional entries amount, velocity, location and odd hour, in that order |
| Risk.Reasons | app/api/risk.py:28-57 | one reason per rule, position by position |
| Risk.FiredWeight | app/api/risk.py:20-57 | the weight sum of the fired rules is the sum of each rule's contribution: its weight if it fires, else 0 |
| Risk.ComputeRisk | app/api/risk.py:19-75 | the result carries the input's id; the score is at most 90; the level is HIGH iff score >= 70, MEDIUM iff 40 <= score < 70, LOW iff score < 40 |
| Risk.RiskFrom | app/api/risk.py:20-75 | the same id, bound and level bands, given the window size and the user's locations |
| Risk.ScoreIsFiredWeight | app/api/risk.py:20-60 | the score equals the weight sum of the fired rules, capped at 100 |
| Risk.ReasonsAreFiredRules | app/api/risk.py:21-57 | the reasons are exactly the reasons of the fired rules, in rule order |
| Risk.RuleReported | app/api/risk.py:28-57 | a rule's reason is reported iff the rule fires |
| Risk.ReasonsInRuleOrder | app/api/risk.py:28-57 | the fired rules are in rule order 1 to 4, and no reason appears twice |
| Risk.AmountRule | app/api/risk.py:29-31 | the amount rule adds 30 iff amount > 5000, else 0, and its reason appears iff amount > 5000 |
| Risk.VelocityRule | app/api/risk.py:34-42 | the velocity rule adds 25 iff at least four records are in the window, else 0, and its reason appears under the same condition; same-user records later than the transaction are in the window |
| Risk.LocationRule | app/api/risk.py:45-51 | the location rule fires iff the user has a stored record and none of them has this location |
| Risk.StoredNeverNewLocation | app/api/risk.py:45-51 | for a transaction that is in the store, the location rule never fires and its reason never appears |
| Risk.FirstTxnNeverNewLocation | app/api/risk.py:49 | with no stored record of the user, the location rule does not fire |
| Risk.OddHourRule | app/api/risk.py:54-57 | the odd-hour rule fires iff hour < 5 and adds 15 then, else 0; hour 23 is not odd |
| Risk.StoredScoreBound | app/api/risk.py:45-60 | a stored transaction scores at most 70 |
| Risk.RiskSum | app/api/credit.py:41-42 | the sum of the risk scores of a history is at most 90 per record |
| Risk.StoredRiskSumBound | app/api/limit.py:46-47 | the risk sum of stored records is at most 70 per record, and it equals that only when every record scores exactly 70 |
| Risk.FirstWithId | app/api/risk.py:80-83 | it returns the first index from the start position whose record has the id, or None iff there is none |
| Risk.AssessRisk | app/api/risk.py:78-88 | NotFound iff no stored record has the id; otherwise the assessment of the first such record, with that id and a score of at most 70 |
| Risk.SingleLargeNightTxn | app/api/risk.py:19-75 | a user's only transaction, 6000 at 02:00, scores 45, MEDIUM, with the amount and odd-hour reasons in that order |
| Risk.LaterRecordsTriggerVelocity | app/api/risk.py:34-42 | a transaction plus three later records of its user, however late, make the velocity rule fire |
| Risk.VelocityWindowAppend | app/api/risk.py:34-38 | an appended record extends the window by itself when it falls in the window, and otherwise leaves the window unchanged |
| Risk.OtherUserLocations | app/api/risk.py:45-47 | another user's record leaves the user's previous locations unchanged |
| Risk.OtherUserRecordIgnored | app/api/risk.py:19-75 | appending another user's record changes nothing in a transaction's assessment |
| Risk.MeanCompare | app/api/credit.py:42-49 | a mean is below, above or at least a whole-number threshold exactly when its sum is below, above or at least the threshold times the count |
| Credit.AmountSum | app/api/credit.py:52 | with positive amounts, the total is positive iff the history is non-empty |
| Credit.AvgRisk | app/api/credit.py:41-42 | the mean risk over the user's records, each scored against the whole store, lies in [0, 90], is below 30 iff the score sum is below 30 per record, and above 60 iff it is above 60 per record |
| Credit.AvgAmount | app/api/credit.py:52 | the mean amount is below 2000 iff the total is below 2000 per record, and is positive when all amounts are |
| Credit.Latest | app/api/credit.py:58 | the latest timestamp belongs to some record of the history and is no earlier than any of them |
| Credit.Factors | app/api/credit.py:35-61 | one factor per applied adjustment, position by position |
| Credit.AppliedDelta | app/api/credit.py:32-61 | the adjustments' total is the sum of the contributions: +50 if n >= 10, +100 if avg risk < 30, -100 if avg risk > 60, +50 if avg amount < 2000, +50 if the latest record is within 7 days |
| Credit.AppliedRange | app/api/credit.py:32-64 | the pre-clamp score lies in [500, 850]; the low-risk and high-risk adjustments never both apply |
| Credit.AdjustmentListed | app/api/credit.py:36-61 | an adjustment is listed iff it applies; with 30 <= avg risk <= 60, neither risk adjustment is listed |
| Credit.TopScore | app/api/credit.py:32-64 | the pre-clamp score is 850 iff all four adding adjustments apply, and it stays below 900 |
| Credit.BottomScore | app/api/credit.py:32-64 | the pre-clamp score is 500 iff only the high-risk adjustment applies, and it stays above 300 |
| Credit.ApplyAdjustments | app/api/credit.py:32-61 | the step-by-step updates produce the applied adjustments in order consistency, risk, spending, recency, and 600 plus their deltas |
| Credit.GetCreditScore | app/api/credit.py:19-81 | with no history the result is 600, NEUTRAL, ["No transaction history available"]; otherwise the score is 600 plus the applied deltas and the factors are theirs in order; the score is in [300, 900], and with history in [500, 850] (the clamp is the identity); the grade bands are exact and never NEUTRAL with history |
| Credit.RiskSumOtherUser | app/api/credit.py:41 | another user's record leaves the risk sum of a history of different users unchanged |
| Credit.OtherUserSummary | app/api/credit.py:21-58 | another user's record leaves a user's history and its aggregates (count, mean risk, mean amount, latest time) unchanged |
| Limit.BaseLimitFor | app/api/limit.py:14-31 | the user's own entry if present, else the default entry; the result is 10000 |
| Limit.Recent | app/api/limit.py:45 | the last min(5, n) records of the history, in order |
| Limit.RecentAvgRisk | app/api/limit.py:45-47 | the mean risk of the last min(5, n) records lies in [0, 90], and is at least 70 (or 40) iff the score sum is at least 70 (or 40) per record |
| Limit.GetDynamicLimit | app/api/limit.py:27-67 | the reported base is the looked-up value; with no history the result is ALLOW with the base unchanged and ["No risky behavior detected"]; otherwise the decision is the band of the recent average risk, the limit is the base times 0.3, 0.6 or 1.0, and the one reason is the band's; exactly one reason always; 0 <= adjusted <= base |
| Limit.BandsPartition | app/api/limit.py:49-59 | every average lies in exactly one band |
| Limit.BandMonotone | app/api/limit.py:49-59 | a higher average never gives a larger adjusted limit, for a non-negative base |
| Limit.OtherUserRecentAvgRisk | app/api/limit.py:29-47 | another user's record leaves a user's history and recent average risk unchanged |
| Limit.RecentAvgBound | app/api/limit.py:45-52 | the recent average risk is at most 70; under BLOCK every recent record scored exactly 70 |

## Left out

- HTTP routing, pydantic validation and response models: the 404 of `assess_risk` is the `NotFound` value. The `gt=0` amount check is a precondition of `Ingest`.
- `uuid.uuid4()` and `datetime.utcnow()` are parameters. Id freshness is a precondition of `Ingest`, not a proven property.
- Concurrency and the module-level sharing of the transaction list: the store is one sequential object, and the evaluators read a snapshot of its records.
- IEEE floating point: sums, averages and the 0.3/0.6 scaling are exact reals, so rounding differences between Python floats and exact arithmetic are not modelled.
- Time zones and calendar arithmetic: a timestamp is a microsecond count, and 7 days and 10 minutes are fixed microsecond spans.
- JSON shapes and string spellings of levels, grades and decisions: they are the datatypes `Level`, `Grade` and `Decision`.
- app/main.py (application wiring) and simulate/simulate_transactions.py (an HTTP client with random input) are not part of this model.
