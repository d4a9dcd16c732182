/** The limit evaluator: a user's base limit scaled by the band of the average
    risk of their last five transactions. */
module Limit {
  import opened Transaction
  import opened Risk
  import opened Credit

  const DefaultKey: string := "default"
  /** Per-user base limits; only the default entry exists. */
  const BaseLimits: map<string, real> := map[DefaultKey := 10000.0]
  const RecentCount: nat := 5
  const NoRiskReason: string := "No risky behavior detected"

  /** The user's own base limit, or the default one. */
  function BaseLimitFor(userId: string): (r: real)
    ensures userId in BaseLimits ==> r == BaseLimits[userId]
    ensures userId !in BaseLimits ==> r == BaseLimits[DefaultKey]
    ensures r == 10000.0
  {
    if userId in BaseLimits then BaseLimits[userId] else BaseLimits[DefaultKey]
  }

  /** The last five records of a history, or all of them when there are fewer. */
  function Recent(h: seq<Txn>): (r: seq<Txn>)
    ensures |r| == if |h| < RecentCount then |h| else RecentCount
    ensures r == h[|h| - |r|..]
    ensures forall s :: s in r ==> s in h
  {
    if |h| <= RecentCount then h else h[|h| - RecentCount..]
  }

  /** Mean risk score of the recent part of a non-empty history: in [0, 90],
      and in the BLOCK and WARN bands exactly when the sum of scores is. */
  function RecentAvgRisk(store: seq<Txn>, h: seq<Txn>): (r: real)
    requires |h| > 0
    ensures 0.0 <= r <= 90.0
    ensures r >= 70.0 <==> RiskSum(store, Recent(h)) >= 70 * |Recent(h)|
    ensures r >= 40.0 <==> RiskSum(store, Recent(h)) >= 40 * |Recent(h)|
  {
    MeanCompare(RiskSum(store, Recent(h)), |Recent(h)|, 0);
    MeanCompare(RiskSum(store, Recent(h)), |Recent(h)|, 90);
    MeanCompare(RiskSum(store, Recent(h)), |Recent(h)|, 70);
    MeanCompare(RiskSum(store, Recent(h)), |Recent(h)|, 40);
    (RiskSum(store, Recent(h)) as real) / (|Recent(h)| as real)
  }

  datatype Decision = Allow | Warn | Block

  /** The band table: which averages each decision covers. */
  predicate InBand(d: Decision, avg: real)
  {
    match d
    case Block => avg >= 70.0
    case Warn => 40.0 <= avg < 70.0
    case Allow => avg < 40.0
  }

  /** The factor a decision applies to the base limit. */
  function Scale(d: Decision): real
  {
    match d
    case Block => 0.3
    case Warn => 0.6
    case Allow => 1.0
  }

  function BandReason(d: Decision): string
  {
    match d
    case Block => "High average risk detected"
    case Warn => "Moderate risk detected"
    case Allow => "Low risk behavior"
  }

  datatype LimitResponse = LimitResponse(
    userId: string,
    baseLimit: real,
    adjustedLimit: real,
    decision: Decision,
    reasons: seq<string>)

  /** The dynamic limit of `userId`: the base limit, scaled down in the band
      chain by the recent average risk. */
  method GetDynamicLimit(store: seq<Txn>, userId: string) returns (resp: LimitResponse)
    ensures resp.userId == userId && resp.baseLimit == BaseLimitFor(userId)
    ensures |resp.reasons| == 1
    ensures UserTxns(store, userId) == [] ==>
      resp.decision == Allow && resp.adjustedLimit == resp.baseLimit
      && resp.reasons == [NoRiskReason]
    ensures UserTxns(store, userId) != [] ==>
      InBand(resp.decision, RecentAvgRisk(store, UserTxns(store, userId)))
      && resp.adjustedLimit == resp.baseLimit * Scale(resp.decision)
      && resp.reasons == [BandReason(resp.decision)]
    ensures 0.0 <= resp.adjustedLimit <= resp.baseLimit
  {
    var userTxns := UserTxns(store, userId);
    var baseLimit := BaseLimitFor(userId);
    var adjustedLimit := baseLimit;
    var reasons := [];
    if userTxns == [] {
      return LimitResponse(userId, baseLimit, baseLimit, Allow, [NoRiskReason]);
    }

    // Analyze recent risk
    var avgRisk := RecentAvgRisk(store, userTxns);
    var decision;
    if avgRisk >= 70.0 {
      adjustedLimit := adjustedLimit * 0.3;
      reasons := reasons + ["High average risk detected"];
      decision := Block;
    } else if avgRisk >= 40.0 {
      adjustedLimit := adjustedLimit * 0.6;
      reasons := reasons + ["Moderate risk detected"];
      decision := Warn;
    } else {
      reasons := reasons + ["Low risk behavior"];
      decision := Allow;
    }
    resp := LimitResponse(userId, baseLimit, adjustedLimit, decision, reasons);
  }

  /** Every average falls in exactly one band. */
  lemma BandsPartition(avg: real)
    ensures InBand(Allow, avg) || InBand(Warn, avg) || InBand(Block, avg)
    ensures forall d1, d2 :: InBand(d1, avg) && InBand(d2, avg) ==> d1 == d2
  {
  }

  /** A higher average never gives a larger limit. */
  lemma BandMonotone(base: real, avg1: real, d1: Decision, avg2: real, d2: Decision)
    requires base >= 0.0 && avg1 <= avg2
    requires InBand(d1, avg1) && InBand(d2, avg2)
    ensures base * Scale(d2) <= base * Scale(d1)
  {
    assert Scale(d2) <= Scale(d1);
  }

  /** Since stored records score at most 70, the recent average is at most 70,
      and a blocked user's recent records all scored exactly 70. */
  lemma RecentAvgBound(store: seq<Txn>, userId: string)
    requires UserTxns(store, userId) != []
    ensures RecentAvgRisk(store, UserTxns(store, userId)) <= 70.0
    ensures var recent := Recent(UserTxns(store, userId));
      InBand(Block, RecentAvgRisk(store, UserTxns(store, userId))) ==>
      forall i :: 0 <= i < |recent| ==> ComputeRisk(store, recent[i]).score == 70
  {
    var h := UserTxns(store, userId);
    var recent := Recent(h);
    assert forall s :: s in recent ==> s in store;
    StoredRiskSumBound(store, recent);
    MeanCompare(RiskSum(store, recent), |recent|, 70);
  }

  /** Another user's record leaves a user's history and recent average risk,
      and so their limit decision, unchanged. */
  lemma OtherUserRecentAvgRisk(store: seq<Txn>, x: Txn, user: string)
    requires x.userId != user
    requires UserTxns(store, user) != []
    ensures UserTxns(store + [x], user) == UserTxns(store, user)
    ensures RecentAvgRisk(store + [x], UserTxns(store + [x], user))
         == RecentAvgRisk(store, UserTxns(store, user))
  {
    OtherUserSummary(store, x, user);
    var h := UserTxns(store, user);
    assert forall s :: s in Recent(h) ==> s in h;
    RiskSumOtherUser(store, x, Recent(h));
  }
}
