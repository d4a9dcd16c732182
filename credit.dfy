/** The credit evaluator: a base score of 600 moved by four independent
    adjustments computed over the user's whole history. */
module Credit {
  import opened Transaction
  import opened Risk

  const MicrosPerDay: int := 24 * MicrosPerHour
  const RecencySpan: int := 7 * MicrosPerDay
  const BaseScore: int := 600
  const MinScore: int := 300
  const MaxScore: int := 900
  const NoHistoryFactor: string := "No transaction history available"

  datatype Grade = Excellent | Good | Fair | Poor | Neutral

  datatype CreditProfile = CreditProfile(
    userId: string,
    score: int,
    grade: Grade,
    factors: seq<string>)

  /** Total amount of a history; positive amounts give a positive total
      exactly when the history is non-empty. */
  function AmountSum(h: seq<Txn>): (r: real)
    ensures (forall i :: 0 <= i < |h| ==> h[i].amount > 0.0) ==> (r > 0.0 <==> |h| > 0)
  {
    if h == [] then 0.0 else h[0].amount + AmountSum(h[1..])
  }

  /** The latest timestamp of a non-empty history. */
  function Latest(h: seq<Txn>): (r: int)
    requires |h| > 0
    ensures exists i :: 0 <= i < |h| && h[i].timestamp == r
    ensures forall i :: 0 <= i < |h| ==> h[i].timestamp <= r
  {
    if |h| == 1 then h[0].timestamp
    else
      var rest := Latest(h[1..]);
      assert forall i :: 1 <= i < |h| ==> h[i] == h[1..][i - 1];
      if h[0].timestamp >= rest then h[0].timestamp else rest
  }

  /** Mean risk score of a non-empty history: it lies in [0, 90] and meets the
      low-risk and high-risk thresholds exactly when the sum of scores does. */
  function AvgRisk(store: seq<Txn>, h: seq<Txn>): (r: real)
    requires |h| > 0
    ensures 0.0 <= r <= 90.0
    ensures r < 30.0 <==> RiskSum(store, h) < 30 * |h|
    ensures r > 60.0 <==> RiskSum(store, h) > 60 * |h|
  {
    MeanCompare(RiskSum(store, h), |h|, 0);
    MeanCompare(RiskSum(store, h), |h|, 90);
    MeanCompare(RiskSum(store, h), |h|, 30);
    MeanCompare(RiskSum(store, h), |h|, 60);
    (RiskSum(store, h) as real) / (|h| as real)
  }

  /** Mean amount of a non-empty history: below 2000 exactly when the total is
      below 2000 per record, and positive when the amounts are. */
  function AvgAmount(h: seq<Txn>): (r: real)
    requires |h| > 0
    ensures r < 2000.0 <==> AmountSum(h) < 2000.0 * (|h| as real)
    ensures (forall i :: 0 <= i < |h| ==> h[i].amount > 0.0) ==> r > 0.0
  {
    AmountMeanBelow(AmountSum(h), |h| as real, 2000.0);
    AmountSum(h) / (|h| as real)
  }

  /** A real mean is below `k` exactly when its sum is below `k` times the
      count, and is positive when the sum is. */
  lemma AmountMeanBelow(sum: real, n: real, k: real)
    requires n > 0.0
    ensures sum / n < k <==> sum < k * n
    ensures sum > 0.0 ==> sum / n > 0.0
  {
    var m := sum / n;
    assert m * n == sum;
    if m < k { assert m * n < k * n; }
    if m >= k { assert m * n >= k * n; }
  }

  /** The adjustment collection. */
  datatype Adjustment = Consistency | LowRisk | HighRisk | Spending | Recency

  function Delta(a: Adjustment): int
  {
    match a
    case Consistency => 50
    case LowRisk => 100
    case HighRisk => -100
    case Spending => 50
    case Recency => 50
  }

  function Factor(a: Adjustment): string
  {
    match a
    case Consistency => "Consistent transaction history"
    case LowRisk => "Low-risk behavior"
    case HighRisk => "High-risk transaction patterns"
    case Spending => "Responsible spending behavior"
    case Recency => "Recent financial activity"
  }

  /** The aggregates of a non-empty history that the adjustments look at. */
  datatype Summary = Summary(count: nat, avgRisk: real, avgAmount: real, latest: int)

  function Summarize(store: seq<Txn>, h: seq<Txn>): Summary
    requires |h| > 0
  {
    Summary(|h|, AvgRisk(store, h), AvgAmount(h), Latest(h))
  }

  /** The adjustment table: when each adjustment applies to a history's summary. */
  predicate Applies(sm: Summary, now: int, a: Adjustment)
  {
    match a
    case Consistency => sm.count >= 10
    case LowRisk => sm.avgRisk < 30.0
    case HighRisk => sm.avgRisk > 60.0
    case Spending => sm.avgAmount < 2000.0
    case Recency => sm.latest >= now - RecencySpan
  }

  function AdjustmentEntry(b: bool, a: Adjustment): seq<Adjustment>
  {
    if b then [a] else []
  }

  /** The adjustments that apply, in the order the source applies them. */
  function Applied(sm: Summary, now: int): seq<Adjustment>
  {
    AdjustmentEntry(Applies(sm, now, Consistency), Consistency)
    + AdjustmentEntry(Applies(sm, now, LowRisk), LowRisk)
    + AdjustmentEntry(Applies(sm, now, HighRisk), HighRisk)
    + AdjustmentEntry(Applies(sm, now, Spending), Spending)
    + AdjustmentEntry(Applies(sm, now, Recency), Recency)
  }

  function DeltaSum(adjs: seq<Adjustment>): int
  {
    if adjs == [] then 0 else Delta(adjs[0]) + DeltaSum(adjs[1..])
  }

  function Factors(adjs: seq<Adjustment>): (r: seq<string>)
    ensures |r| == |adjs|
    ensures forall i :: 0 <= i < |adjs| ==> r[i] == Factor(adjs[i])
  {
    if adjs == [] then [] else [Factor(adjs[0])] + Factors(adjs[1..])
  }

  /** What one adjustment adds to the score. */
  function AdjustmentContribution(sm: Summary, now: int, a: Adjustment): int
  {
    if Applies(sm, now, a) then Delta(a) else 0
  }

  lemma {:induction false} DeltaSumAppend(a: seq<Adjustment>, b: seq<Adjustment>)
    ensures DeltaSum(a + b) == DeltaSum(a) + DeltaSum(b)
  {
    if a == [] {
      assert a + b == b;
    } else {
      assert (a + b)[0] == a[0];
      assert (a + b)[1..] == a[1..] + b;
      DeltaSumAppend(a[1..], b);
    }
  }

  /** The adjustments' total is the sum of their contributions. */
  lemma AppliedDelta(sm: Summary, now: int)
    ensures DeltaSum(Applied(sm, now))
         == AdjustmentContribution(sm, now, Consistency) + AdjustmentContribution(sm, now, LowRisk)
          + AdjustmentContribution(sm, now, HighRisk) + AdjustmentContribution(sm, now, Spending)
          + AdjustmentContribution(sm, now, Recency)
  {
    var e1 := AdjustmentEntry(Applies(sm, now, Consistency), Consistency);
    var e2 := AdjustmentEntry(Applies(sm, now, LowRisk), LowRisk);
    var e3 := AdjustmentEntry(Applies(sm, now, HighRisk), HighRisk);
    var e4 := AdjustmentEntry(Applies(sm, now, Spending), Spending);
    var e5 := AdjustmentEntry(Applies(sm, now, Recency), Recency);
    DeltaSumAppend(e1 + e2 + e3 + e4, e5);
    DeltaSumAppend(e1 + e2 + e3, e4);
    DeltaSumAppend(e1 + e2, e3);
    DeltaSumAppend(e1, e2);
  }

  function Max(a: int, b: int): int
  {
    if a >= b then a else b
  }

  /** Adjusted non-empty scores lie in [500, 850]: the two risk adjustments
      exclude each other, so the total moves between -100 and +250. */
  lemma AppliedRange(sm: Summary, now: int)
    ensures 500 <= BaseScore + DeltaSum(Applied(sm, now)) <= 850
    ensures !(LowRisk in Applied(sm, now) && HighRisk in Applied(sm, now))
  {
    AppliedDelta(sm, now);
  }

  /** An adjustment is listed exactly when it applies; in particular neither risk
      adjustment is listed when the average risk lies in [30, 60]. */
  lemma AdjustmentListed(sm: Summary, now: int, a: Adjustment)
    ensures a in Applied(sm, now) <==> Applies(sm, now, a)
    ensures 30.0 <= sm.avgRisk <= 60.0 ==>
      LowRisk !in Applied(sm, now) && HighRisk !in Applied(sm, now)
  {
  }

  /** The best a history can reach is 850, exactly when all four adjustments
      that add points apply; the cap of 900 is never reached. */
  lemma TopScore(sm: Summary, now: int)
    ensures BaseScore + DeltaSum(Applied(sm, now)) == 850 <==>
      sm.count >= 10 && sm.avgRisk < 30.0 && sm.avgAmount < 2000.0
      && sm.latest >= now - RecencySpan
    ensures BaseScore + DeltaSum(Applied(sm, now)) < MaxScore
  {
    AppliedDelta(sm, now);
  }

  /** The lowest a history can reach is 500, exactly when only the high-risk
      adjustment applies; the floor of 300 is never reached. */
  lemma BottomScore(sm: Summary, now: int)
    ensures BaseScore + DeltaSum(Applied(sm, now)) == 500 <==>
      Applied(sm, now) == [HighRisk]
    ensures BaseScore + DeltaSum(Applied(sm, now)) > MinScore
  {
    AppliedDelta(sm, now);
  }

  /** Apply the four adjustments to the base score, step by step, listing
      each adjustment applied. */
  method ApplyAdjustments(store: seq<Txn>, userTxns: seq<Txn>, now: int)
    returns (score: int, applied: seq<Adjustment>)
    requires |userTxns| > 0
    ensures applied == Applied(Summarize(store, userTxns), now)
    ensures score == BaseScore + DeltaSum(applied)
  {
    score := BaseScore;
    applied := [];
    ghost var sm := Summarize(store, userTxns);

    // Consistency
    if |userTxns| >= 10 {
      score := score + 50;
      applied := applied + [Consistency];
    }
    assert applied == AdjustmentEntry(Applies(sm, now, Consistency), Consistency);

    // Risk behaviour
    var avgRisk := AvgRisk(store, userTxns);
    if avgRisk < 30.0 {
      score := score + 100;
      applied := applied + [LowRisk];
    } else if avgRisk > 60.0 {
      score := score - 100;
      applied := applied + [HighRisk];
    }
    assert applied == AdjustmentEntry(Applies(sm, now, Consistency), Consistency)
      + AdjustmentEntry(Applies(sm, now, LowRisk), LowRisk) + AdjustmentEntry(Applies(sm, now, HighRisk), HighRisk);

    // Spending discipline
    var avgAmount := AvgAmount(userTxns);
    if avgAmount < 2000.0 {
      score := score + 50;
      applied := applied + [Spending];
    }
    assert applied == AdjustmentEntry(Applies(sm, now, Consistency), Consistency)
      + AdjustmentEntry(Applies(sm, now, LowRisk), LowRisk) + AdjustmentEntry(Applies(sm, now, HighRisk), HighRisk)
      + AdjustmentEntry(Applies(sm, now, Spending), Spending);

    // Recent activity
    var lastTxnTime := Latest(userTxns);
    if lastTxnTime >= now - RecencySpan {
      score := score + 50;
      applied := applied + [Recency];
    }

    AppliedDelta(sm, now);
  }

  /** The credit profile of `userId`; `now` stands for the clock. */
  method GetCreditScore(store: seq<Txn>, userId: string, now: int) returns (p: CreditProfile)
    ensures p.userId == userId
    ensures UserTxns(store, userId) == [] ==>
      p.score == BaseScore && p.grade == Neutral && p.factors == [NoHistoryFactor]
    ensures UserTxns(store, userId) != [] ==>
      var applied := Applied(Summarize(store, UserTxns(store, userId)), now);
      p.score == BaseScore + DeltaSum(applied) && p.factors == Factors(applied)
    ensures MinScore <= p.score <= MaxScore
    ensures UserTxns(store, userId) != [] ==> 500 <= p.score <= 850 && p.grade != Neutral
    ensures UserTxns(store, userId) != [] ==>
      (p.grade == Excellent <==> p.score >= 750) &&
      (p.grade == Good <==> 650 <= p.score < 750) &&
      (p.grade == Fair <==> 550 <= p.score < 650) &&
      (p.grade == Poor <==> p.score < 550)
  {
    var userTxns := UserTxns(store, userId);
    if userTxns == [] {
      return CreditProfile(userId, BaseScore, Neutral, [NoHistoryFactor]);
    }
    var score, applied := ApplyAdjustments(store, userTxns, now);
    var factors := Factors(applied);
    AppliedRange(Summarize(store, userTxns), now);

    // Clamp score
    score := Max(MinScore, Min(score, MaxScore));

    // Grade
    var grade;
    if score >= 750 {
      grade := Excellent;
    } else if score >= 650 {
      grade := Good;
    } else if score >= 550 {
      grade := Fair;
    } else {
      grade := Poor;
    }
    p := CreditProfile(userId, score, grade, factors);
  }

  /** Risk scores of the user's own records ignore another user's record. */
  lemma {:induction false} RiskSumOtherUser(store: seq<Txn>, x: Txn, h: seq<Txn>)
    requires forall s :: s in h ==> s.userId != x.userId
    ensures RiskSum(store + [x], h) == RiskSum(store, h)
  {
    if h != [] {
      OtherUserRecordIgnored(store, x, h[0]);
      assert forall s :: s in h[1..] ==> s in h;
      RiskSumOtherUser(store, x, h[1..]);
    }
  }

  /** Another user's record leaves a user's credit summary unchanged. */
  lemma OtherUserSummary(store: seq<Txn>, x: Txn, user: string)
    requires x.userId != user
    ensures UserTxns(store + [x], user) == UserTxns(store, user)
    ensures UserTxns(store, user) != [] ==>
      Summarize(store + [x], UserTxns(store + [x], user)) == Summarize(store, UserTxns(store, user))
  {
    UserTxnsAppend(store, x, user);
    var h := UserTxns(store, user);
    assert h + [] == h;
    RiskSumOtherUser(store, x, h);
  }
}
