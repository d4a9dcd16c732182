/** The risk evaluator: four fixed-weight rules scored against the store. */
module Risk {
  import opened Transaction

  const MicrosPerMinute: int := 60_000_000
  const MicrosPerHour: int := 60 * MicrosPerMinute

  /** Rule thresholds and weights. */
  const AmountThreshold: real := 5000.0
  const VelocitySpan: int := 10 * MicrosPerMinute
  const VelocityLimit: nat := 3
  const OddHourBefore: int := 5
  const OddHourAfter: int := 23
  const ScoreCap: nat := 100
  const HighFrom: nat := 70
  const MediumFrom: nat := 40

  datatype Level = Low | Medium | High

  datatype RiskAssessment = RiskAssessment(
    transactionId: string,
    score: nat,
    level: Level,
    reasons: seq<string>)

  /** The rule collection, in evaluation order. */
  datatype Rule = HighAmount | HighVelocity | NewLocation | OddHour

  const RuleOrder: seq<Rule> := [HighAmount, HighVelocity, NewLocation, OddHour]

  /** Position of a rule in the evaluation order. */
  function Rank(rule: Rule): nat
  {
    match rule
    case HighAmount => 0
    case HighVelocity => 1
    case NewLocation => 2
    case OddHour => 3
  }

  function Weight(rule: Rule): nat
  {
    match rule
    case HighAmount => 30
    case HighVelocity => 25
    case NewLocation => 20
    case OddHour => 15
  }

  function Reason(rule: Rule): string
  {
    match rule
    case HighAmount => "High transaction amount"
    case HighVelocity => "High transaction frequency"
    case NewLocation => "Transaction from new location"
    case OddHour => "Transaction at unusual hour"
  }

  /** Hour of day (UTC) of a timestamp. */
  function HourOf(ts: int): (h: int)
    ensures 0 <= h < 24
  {
    (ts / MicrosPerHour) % 24
  }

  /** Whether `s` falls in the velocity window of `t`: same user and no earlier
      than ten minutes before `t`. There is no upper bound on the time. */
  predicate InWindow(t: Txn, s: Txn): (b: bool)
    ensures b <==> s.userId == t.userId && t.timestamp - s.timestamp <= 600_000_000
    ensures s.userId == t.userId && s.timestamp >= t.timestamp ==> b
  {
    s.userId == t.userId && s.timestamp >= t.timestamp - VelocitySpan
  }

  /** The stored records in the velocity window of `t`, in store order. */
  function VelocityWindow(store: seq<Txn>, t: Txn): (r: seq<Txn>)
    ensures |r| <= |store|
    ensures forall s :: s in r <==> s in store && InWindow(t, s)
  {
    if store == [] then []
    else
      assert store == [store[0]] + store[1..];
      (if InWindow(t, store[0]) then [store[0]] else []) + VelocityWindow(store[1..], t)
  }

  /** The window holds each record of the store that falls in it as often as
      the store does, and nothing else; its size is what rule 2 counts. */
  lemma {:induction false} VelocityWindowCount(store: seq<Txn>, t: Txn)
    ensures forall s ::
      multiset(VelocityWindow(store, t))[s] == (if InWindow(t, s) then multiset(store)[s] else 0)
  {
    if store != [] {
      var head := if InWindow(t, store[0]) then [store[0]] else [];
      VelocityWindowCount(store[1..], t);
      assert store == [store[0]] + store[1..];
      assert multiset(store) == multiset([store[0]]) + multiset(store[1..]);
      assert VelocityWindow(store, t) == head + VelocityWindow(store[1..], t);
      assert multiset(VelocityWindow(store, t))
          == multiset(head) + multiset(VelocityWindow(store[1..], t));
    }
  }

  /** The distinct locations the user has in the store. */
  function PreviousLocations(store: seq<Txn>, user: string): (r: set<string>)
    ensures forall l :: l in r <==> exists s :: s in store && s.userId == user && s.location == l
    ensures forall s :: s in store && s.userId == user ==> s.location in r
  {
    set s | s in store && s.userId == user :: s.location
  }

  /** The rule table: when each rule fires for `t` against `store`. */
  predicate Fires(store: seq<Txn>, t: Txn, rule: Rule)
  {
    match rule
    case HighAmount => t.amount > AmountThreshold
    case HighVelocity => |VelocityWindow(store, t)| > VelocityLimit
    case NewLocation =>
      var locations := PreviousLocations(store, t.userId);
      t.location !in locations && |locations| > 0
    case OddHour =>
      var hour := HourOf(t.timestamp);
      hour < OddHourBefore || hour > OddHourAfter
  }

  /** The rules listed in strictly increasing rank. */
  ghost predicate RankOrdered(rules: seq<Rule>)
  {
    forall i, j :: 0 <= i < j < |rules| ==> Rank(rules[i]) < Rank(rules[j])
  }

  /** `[rule]` when `b` holds, else nothing. */
  function Entry(b: bool, rule: Rule): seq<Rule>
  {
    if b then [rule] else []
  }

  /** The rules of `rules` that fire, keeping their order. */
  function FiredIn(rules: seq<Rule>, store: seq<Txn>, t: Txn): seq<Rule>
  {
    if rules == [] then []
    else Entry(Fires(store, t, rules[0]), rules[0]) + FiredIn(rules[1..], store, t)
  }

  /** A rule is kept exactly when it is in the collection and fires. */
  lemma {:induction false} FiredInMembers(rules: seq<Rule>, store: seq<Txn>, t: Txn)
    ensures forall x :: x in FiredIn(rules, store, t) <==> x in rules && Fires(store, t, x)
  {
    if rules != [] {
      FiredInMembers(rules[1..], store, t);
      assert forall x :: x in rules <==> x == rules[0] || x in rules[1..];
    }
  }

  /** Filtering keeps the rank order of the rule collection. */
  lemma {:induction false} FiredInOrdered(rules: seq<Rule>, store: seq<Txn>, t: Txn)
    requires RankOrdered(rules)
    ensures RankOrdered(FiredIn(rules, store, t))
  {
    if rules != [] {
      var rest := FiredIn(rules[1..], store, t);
      FiredInMembers(rules[1..], store, t);
      assert RankOrdered(rules[1..]) by {
        forall i, j | 0 <= i < j < |rules[1..]|
          ensures Rank(rules[1..][i]) < Rank(rules[1..][j])
        {
          assert rules[1..][i] == rules[i + 1] && rules[1..][j] == rules[j + 1];
        }
      }
      FiredInOrdered(rules[1..], store, t);
      if Fires(store, t, rules[0]) {
        forall x | x in rest ensures Rank(rules[0]) < Rank(x) {
          var k :| 0 <= k < |rules[1..]| && rules[1..][k] == x;
          assert rules[1..][k] == rules[k + 1];
        }
        var r := [rules[0]] + rest;
        forall i, j | 0 <= i < j < |r| ensures Rank(r[i]) < Rank(r[j]) {
          assert r[j] == rest[j - 1];
          assert r[j] in rest;
          if i > 0 {
            assert r[i] == rest[i - 1];
          }
        }
      }
    }
  }

  /** The rules that fire for `t`, in evaluation order. */
  function Fired(store: seq<Txn>, t: Txn): seq<Rule>
  {
    FiredIn(RuleOrder, store, t)
  }

  function WeightSum(rules: seq<Rule>): nat
  {
    if rules == [] then 0 else Weight(rules[0]) + WeightSum(rules[1..])
  }

  function Reasons(rules: seq<Rule>): (r: seq<string>)
    ensures |r| == |rules|
    ensures forall i :: 0 <= i < |rules| ==> r[i] == Reason(rules[i])
  {
    if rules == [] then [] else [Reason(rules[0])] + Reasons(rules[1..])
  }

  /** What one rule adds to the score of `t`. */
  function Contribution(store: seq<Txn>, t: Txn, rule: Rule): nat
  {
    if Fires(store, t, rule) then Weight(rule) else 0
  }

  /** The rule collection written out: one optional entry per rule, in order. */
  lemma FiredExplicit(store: seq<Txn>, t: Txn)
    ensures Fired(store, t)
         == Entry(Fires(store, t, HighAmount), HighAmount)
          + Entry(Fires(store, t, HighVelocity), HighVelocity)
          + Entry(Fires(store, t, NewLocation), NewLocation)
          + Entry(Fires(store, t, OddHour), OddHour)
  {
    var r1, r2, r3 := RuleOrder[1..], RuleOrder[2..], RuleOrder[3..];
    assert r1[1..] == r2 && r2[1..] == r3 && r3[1..] == [];
    assert FiredIn(r3, store, t) == Entry(Fires(store, t, OddHour), OddHour);
    assert FiredIn(r2, store, t) == Entry(Fires(store, t, NewLocation), NewLocation) + FiredIn(r3, store, t);
    assert FiredIn(r1, store, t) == Entry(Fires(store, t, HighVelocity), HighVelocity) + FiredIn(r2, store, t);
    assert Fired(store, t) == Entry(Fires(store, t, HighAmount), HighAmount) + FiredIn(r1, store, t);
  }

  lemma {:induction false} WeightSumAppend(a: seq<Rule>, b: seq<Rule>)
    ensures WeightSum(a + b) == WeightSum(a) + WeightSum(b)
  {
    if a == [] {
      assert a + b == b;
    } else {
      assert (a + b)[0] == a[0];
      assert (a + b)[1..] == a[1..] + b;
      WeightSumAppend(a[1..], b);
    }
  }

  /** The score before the cap is the sum of the rules' contributions. */
  lemma FiredWeight(store: seq<Txn>, t: Txn)
    ensures WeightSum(Fired(store, t))
         == Contribution(store, t, HighAmount) + Contribution(store, t, HighVelocity)
          + Contribution(store, t, NewLocation) + Contribution(store, t, OddHour)
  {
    FiredExplicit(store, t);
    var o1 := Entry(Fires(store, t, HighAmount), HighAmount);
    var o2 := Entry(Fires(store, t, HighVelocity), HighVelocity);
    var o3 := Entry(Fires(store, t, NewLocation), NewLocation);
    var o4 := Entry(Fires(store, t, OddHour), OddHour);
    WeightSumAppend(o1 + o2 + o3, o4);
    WeightSumAppend(o1 + o2, o3);
    WeightSumAppend(o1, o2);
  }

  function Min(a: int, b: int): int
  {
    if a <= b then a else b
  }

  /** Score one transaction against the store, rule by rule, as the source does:
      each firing rule adds its weight and appends its reason. Of the store,
      only the size of the velocity window and the user's locations matter. */
  function ComputeRisk(store: seq<Txn>, t: Txn): (r: RiskAssessment)
    ensures r.transactionId == t.id
    ensures r.score <= 90
    ensures r.level == High <==> r.score >= HighFrom
    ensures r.level == Medium <==> MediumFrom <= r.score < HighFrom
    ensures r.level == Low <==> r.score < MediumFrom
  {
    RiskFrom(t, |VelocityWindow(store, t)|, PreviousLocations(store, t.userId))
  }

  /** The rule-by-rule scoring of `t`, given the size of its velocity window
      and the locations its user already has. */
  function RiskFrom(t: Txn, recentCount: nat, locations: set<string>): (r: RiskAssessment)
    ensures r.transactionId == t.id
    ensures r.score <= 90
    ensures r.level == High <==> r.score >= HighFrom
    ensures r.level == Medium <==> MediumFrom <= r.score < HighFrom
    ensures r.level == Low <==> r.score < MediumFrom
  {
    var score0, reasons0 := 0, [];
    var amountHigh := t.amount > AmountThreshold;
    var score1 := if amountHigh then score0 + 30 else score0;
    var reasons1 := if amountHigh then reasons0 + ["High transaction amount"] else reasons0;
    var frequent := recentCount > VelocityLimit;
    var score2 := if frequent then score1 + 25 else score1;
    var reasons2 := if frequent then reasons1 + ["High transaction frequency"] else reasons1;
    var newLocation := t.location !in locations && |locations| > 0;
    var score3 := if newLocation then score2 + 20 else score2;
    var reasons3 := if newLocation then reasons2 + ["Transaction from new location"] else reasons2;
    var hour := HourOf(t.timestamp);
    var oddHour := hour < OddHourBefore || hour > OddHourAfter;
    var score4 := if oddHour then score3 + 15 else score3;
    var reasons4 := if oddHour then reasons3 + ["Transaction at unusual hour"] else reasons3;
    var score := Min(score4, ScoreCap);
    var level := if score >= HighFrom then High else if score >= MediumFrom then Medium else Low;
    RiskAssessment(t.id, score, level, reasons4)
  }

  /** The score is the capped sum of the weights of the rules that fire. */
  lemma ScoreIsFiredWeight(store: seq<Txn>, t: Txn)
    ensures ComputeRisk(store, t).score == Min(WeightSum(Fired(store, t)), ScoreCap)
  {
    FiredWeight(store, t);
  }

  /** The reasons are those of the rules that fire, one each, in rule order. */
  lemma ReasonsAreFiredRules(store: seq<Txn>, t: Txn)
    ensures ComputeRisk(store, t).reasons == Reasons(Fired(store, t))
  {
    FiredExplicit(store, t);
  }

  /** Distinct rules have reasons of distinct lengths, hence distinct reasons. */
  lemma ReasonInjective(a: Rule, b: Rule)
    ensures Reason(a) == Reason(b) ==> a == b
  {
    assert |Reason(a)| == |Reason(b)| ==> a == b;
  }

  /** A reason names its rule. */
  lemma {:induction false} ReasonsMember(rules: seq<Rule>, rule: Rule)
    ensures Reason(rule) in Reasons(rules) <==> rule in rules
  {
    var reasons := Reasons(rules);
    if Reason(rule) in reasons {
      var i :| 0 <= i < |reasons| && reasons[i] == Reason(rule);
      ReasonInjective(rules[i], rule);
    }
    if rule in rules {
      var i :| 0 <= i < |rules| && rules[i] == rule;
      assert reasons[i] == Reason(rule);
    }
  }

  /** The reasons of a rank-ordered rule list are pairwise distinct. */
  lemma ReasonsDistinct(rules: seq<Rule>)
    requires RankOrdered(rules)
    ensures forall i, j :: 0 <= i < j < |Reasons(rules)| ==> Reasons(rules)[i] != Reasons(rules)[j]
  {
    var reasons := Reasons(rules);
    forall i, j | 0 <= i < j < |reasons| ensures reasons[i] != reasons[j] {
      assert Rank(rules[i]) < Rank(rules[j]);
      ReasonInjective(rules[i], rules[j]);
    }
  }

  /** A rule's reason is reported exactly when the rule fires. */
  lemma RuleReported(store: seq<Txn>, t: Txn, rule: Rule)
    ensures Reason(rule) in ComputeRisk(store, t).reasons <==> Fires(store, t, rule)
  {
    ReasonsAreFiredRules(store, t);
    FiredInMembers(RuleOrder, store, t);
    ReasonsMember(Fired(store, t), rule);
    assert rule in RuleOrder;
  }

  /** The reasons follow rule order 1 to 4 and none is repeated. */
  lemma ReasonsInRuleOrder(store: seq<Txn>, t: Txn)
    ensures RankOrdered(Fired(store, t))
    ensures forall i, j :: 0 <= i < j < |ComputeRisk(store, t).reasons| ==>
      ComputeRisk(store, t).reasons[i] != ComputeRisk(store, t).reasons[j]
  {
    var fired := Fired(store, t);
    ReasonsAreFiredRules(store, t);
    FiredInOrdered(RuleOrder, store, t);
    ReasonsDistinct(fired);
  }

  /** The amount rule adds 30 and its reason exactly above 5000, and nothing otherwise. */
  lemma AmountRule(store: seq<Txn>, t: Txn)
    ensures Contribution(store, t, HighAmount) == if t.amount > 5000.0 then 30 else 0
    ensures "High transaction amount" in ComputeRisk(store, t).reasons <==> t.amount > 5000.0
  {
    RuleReported(store, t, HighAmount);
  }

  /** The velocity rule adds 25 and its reason exactly when at least four of the
      user's stored records are no earlier than ten minutes before `t`; records
      later than `t` are included. */
  lemma VelocityRule(store: seq<Txn>, t: Txn)
    ensures Contribution(store, t, HighVelocity) == if |VelocityWindow(store, t)| >= 4 then 25 else 0
    ensures "High transaction frequency" in ComputeRisk(store, t).reasons
        <==> |VelocityWindow(store, t)| >= 4
    ensures forall s :: s in store && s.userId == t.userId && s.timestamp >= t.timestamp ==>
      s in VelocityWindow(store, t)
  {
    RuleReported(store, t, HighVelocity);
  }

  /** The location rule fires exactly when the user has stored records and none
      of them carries the location of `t`. */
  lemma {:induction false} LocationRule(store: seq<Txn>, t: Txn)
    ensures Fires(store, t, NewLocation) <==>
      (exists s :: s in store && s.userId == t.userId) &&
      (forall s :: s in store && s.userId == t.userId ==> s.location != t.location)
  {
    var locations := PreviousLocations(store, t.userId);
    if s :| s in store && s.userId == t.userId {
      assert s.location in locations;
    } else {
      assert locations == {};
    }
  }

  /** A stored transaction is never from a new location: its own location is
      among the user's stored locations. */
  lemma StoredNeverNewLocation(store: seq<Txn>, t: Txn)
    requires t in store
    ensures !Fires(store, t, NewLocation)
    ensures "Transaction from new location" !in ComputeRisk(store, t).reasons
  {
    assert t.location in PreviousLocations(store, t.userId);
    RuleReported(store, t, NewLocation);
  }

  /** A user's first transaction never triggers the location rule. */
  lemma FirstTxnNeverNewLocation(store: seq<Txn>, t: Txn)
    requires forall s :: s in store ==> s.userId != t.userId
    ensures !Fires(store, t, NewLocation)
  {
    LocationRule(store, t);
  }

  /** The odd-hour test is `hour < 5`: its "after 23" half never holds. */
  lemma OddHourRule(store: seq<Txn>, t: Txn)
    ensures Fires(store, t, OddHour) <==> HourOf(t.timestamp) < 5
    ensures HourOf(t.timestamp) == 23 ==> !Fires(store, t, OddHour)
    ensures Contribution(store, t, OddHour) == if HourOf(t.timestamp) < 5 then 15 else 0
  {
  }

  /** The score of a stored transaction never exceeds 70, the sum of the three
      rules that can still fire. */
  lemma StoredScoreBound(store: seq<Txn>, t: Txn)
    requires t in store
    ensures ComputeRisk(store, t).score <= 70
  {
    assert t.location in PreviousLocations(store, t.userId);
  }

  /** Sum of the risk scores of `h`, each assessed against the whole store. */
  function RiskSum(store: seq<Txn>, h: seq<Txn>): (r: nat)
    ensures r <= 90 * |h|
  {
    if h == [] then 0 else ComputeRisk(store, h[0]).score + RiskSum(store, h[1..])
  }

  /** A mean compares with a whole-number threshold `k` as its sum compares
      with `k` times the count, so averages can be tested on integers. */
  lemma MeanCompare(sum: int, n: int, k: int)
    requires n > 0
    ensures (sum as real) / (n as real) < k as real <==> sum < k * n
    ensures (sum as real) / (n as real) > k as real <==> sum > k * n
    ensures (sum as real) / (n as real) >= k as real <==> sum >= k * n
  {
    var m, nr, kr := (sum as real) / (n as real), n as real, k as real;
    assert m * nr == sum as real;
    assert (k * n) as real == kr * nr;
    if m < kr { assert m * nr < kr * nr; }
    if m > kr { assert m * nr > kr * nr; }
    if m == kr { assert m * nr == kr * nr; }
  }

  /** Stored records score at most 70 each, so their sum is at most 70 per record,
      and it reaches that only when every record scores exactly 70. */
  lemma {:induction false} StoredRiskSumBound(store: seq<Txn>, h: seq<Txn>)
    requires forall s :: s in h ==> s in store
    ensures RiskSum(store, h) <= 70 * |h|
    ensures RiskSum(store, h) == 70 * |h| ==>
      forall i :: 0 <= i < |h| ==> ComputeRisk(store, h[i]).score == 70
  {
    if h != [] {
      assert h[0] in h;
      StoredScoreBound(store, h[0]);
      assert forall s :: s in h[1..] ==> s in h;
      StoredRiskSumBound(store, h[1..]);
      forall i | 1 <= i < |h| ensures h[i] == h[1..][i - 1] { }
    }
  }

  datatype Option<T> = None | Some(value: T)

  /** The index of the first record with the given id, searching from `from`. */
  function FirstWithId(store: seq<Txn>, id: string, from: nat): (r: Option<nat>)
    requires from <= |store|
    ensures r.None? <==> forall i :: from <= i < |store| ==> store[i].id != id
    ensures r.Some? ==>
      from <= r.value < |store| && store[r.value].id == id &&
      (forall i :: from <= i < r.value ==> store[i].id != id)
    decreases |store| - from
  {
    if from == |store| then None
    else if store[from].id == id then Some(from)
    else FirstWithId(store, id, from + 1)
  }

  /** The outcome of looking a transaction up by id. */
  datatype Lookup = Found(assessment: RiskAssessment) | NotFound

  /** Assess the first stored transaction with the given id, or report NotFound. */
  function AssessRisk(store: seq<Txn>, id: string): (r: Lookup)
    ensures r.NotFound? <==> forall i :: 0 <= i < |store| ==> store[i].id != id
    ensures r.Found? ==>
      exists i :: 0 <= i < |store| && store[i].id == id &&
        (forall j :: 0 <= j < i ==> store[j].id != id) &&
        r.assessment == ComputeRisk(store, store[i])
    ensures r.Found? ==> r.assessment.transactionId == id && r.assessment.score <= 70
  {
    match FirstWithId(store, id, 0)
    case None => NotFound
    case Some(i) =>
      var t := store[i];
      assert t in store;
      StoredScoreBound(store, t);
      Found(ComputeRisk(store, t))
  }

  /** A user's only transaction, of 6000 at 02:00, scores 30 + 15 = 45 (MEDIUM)
      with the amount and odd-hour reasons in that order. */
  lemma SingleLargeNightTxn()
    ensures var t := Txn("t1", "u1", 6000.0, "m", "c", "Bangalore", "d", 2 * MicrosPerHour);
      ComputeRisk([t], t) == RiskAssessment("t1", 45, Medium,
        ["High transaction amount", "Transaction at unusual hour"])
  {
    var t := Txn("t1", "u1", 6000.0, "m", "c", "Bangalore", "d", 2 * MicrosPerHour);
    assert VelocityWindow([t], t) == [t];
    assert t.location in PreviousLocations([t], t.userId);
    FiredExplicit([t], t);
  }

  /** Rule 2 counts records after `t` too: `t` and three records of its user,
      however much later, make the rule fire. */
  lemma LaterRecordsTriggerVelocity(t: Txn, a: Txn, b: Txn, c: Txn)
    requires a.userId == t.userId && b.userId == t.userId && c.userId == t.userId
    requires a.timestamp > t.timestamp && b.timestamp > t.timestamp && c.timestamp > t.timestamp
    ensures Fires([t, a, b, c], t, HighVelocity)
  {
    assert [t, a, b, c][1..] == [a, b, c] && [a, b, c][1..] == [b, c] && [b, c][1..] == [c];
    assert |VelocityWindow([c], t)| == 1;
    assert |VelocityWindow([b, c], t)| == 2;
    assert |VelocityWindow([a, b, c], t)| == 3;
  }

  /** Appending a record extends the velocity window of `t` by that record when it falls in it. */
  lemma {:induction false} VelocityWindowAppend(store: seq<Txn>, x: Txn, t: Txn)
    ensures VelocityWindow(store + [x], t)
         == VelocityWindow(store, t) + (if InWindow(t, x) then [x] else [])
  {
    if store == [] {
      assert [x][1..] == [];
    } else {
      assert (store + [x])[0] == store[0];
      assert (store + [x])[1..] == store[1..] + [x];
      VelocityWindowAppend(store[1..], x, t);
    }
  }

  /** A record of another user leaves the user's locations as they were. */
  lemma OtherUserLocations(store: seq<Txn>, x: Txn, user: string)
    requires x.userId != user
    ensures PreviousLocations(store + [x], user) == PreviousLocations(store, user)
  {
    forall l | l in PreviousLocations(store + [x], user)
      ensures l in PreviousLocations(store, user)
    {
      var s :| s in store + [x] && s.userId == user && s.location == l;
      assert s in store;
    }
  }

  /** A record of another user changes nothing in the assessment of `t`. */
  lemma OtherUserRecordIgnored(store: seq<Txn>, x: Txn, t: Txn)
    requires x.userId != t.userId
    ensures ComputeRisk(store + [x], t) == ComputeRisk(store, t)
  {
    VelocityWindowAppend(store, x, t);
    OtherUserLocations(store, x, t.userId);
  }
}
