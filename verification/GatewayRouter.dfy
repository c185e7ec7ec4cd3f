// selectGateway(): min-max normalised scores over the eligible gateways, the sort, and the
// degraded-gateway skip.
module GatewayRouter {
  import opened Wrappers
  import opened CircuitBreaker

  type Currency = nat

  datatype RoutingConfig = RoutingConfig(
    weightSuccessRate: real,
    weightLatency: real,
    weightCost: real,
    weightHealth: real,
    weightFit: real,
    degradedSkipThreshold: real)

  datatype GatewayConfig = GatewayConfig(
    gateway: Gateway,
    isEnabled: bool,
    supportedMethods: set<PaymentMethod>,
    supportedCurrencies: set<Currency>,
    costPercentage: real,
    costFixedPaise: int)

  datatype Metrics = Metrics(successRate: real, p95LatencyMs: real)

  datatype Score = Score(
    gateway: Gateway,
    compositeScore: real,
    success: real,
    latency: real,
    cost: real,
    health: real,
    fit: real,
    successRate: real,
    p95LatencyMs: real)

  datatype SelectionReason = NotSelected | HighestScore | PreferredOverDegraded | SelectedDespiteHalfOpen

  datatype RouteRow = RouteRow(score: Score, selectionReason: SelectionReason, wasSelected: bool)

  // ---------------------------------------------------------------- minimum, maximum, bounds

  function MinOf(s: seq<real>): (m: real)
    requires s != []
    ensures m in s && forall x :: x in s ==> m <= x
  {
    if |s| == 1 then s[0]
    else
      var m := MinOf(s[1..]);
      assert forall x :: x in s ==> x == s[0] || x in s[1..];
      if s[0] <= m then s[0] else m
  }

  function MaxOf(s: seq<real>): (m: real)
    requires s != []
    ensures m in s && forall x :: x in s ==> x <= m
  {
    if |s| == 1 then s[0]
    else
      var m := MaxOf(s[1..]);
      assert forall x :: x in s ==> x == s[0] || x in s[1..];
      if s[0] >= m then s[0] else m
  }

  // max - min || 1
  function RangeOr1(min: real, max: real): real {
    if max - min == 0.0 then 1.0 else max - min
  }

  function Cost(c: GatewayConfig): real {
    c.costPercentage + c.costFixedPaise as real / 100_000.0
  }

  function Costs(configs: seq<GatewayConfig>): (r: seq<real>)
    ensures |r| == |configs|
    ensures forall i :: 0 <= i < |configs| ==> r[i] == Cost(configs[i])
  {
    seq(|configs|, i requires 0 <= i < |configs| => Cost(configs[i]))
  }

  // The recorded latencies that enter the bounds: a missing or zero one does not.
  function KnownLatencies(configs: seq<GatewayConfig>, metrics: map<Gateway, Metrics>): seq<real> {
    if configs == [] then []
    else
      var g := configs[0].gateway;
      (if g in metrics && metrics[g].p95LatencyMs > 0.0 then [metrics[g].p95LatencyMs] else [])
      + KnownLatencies(configs[1..], metrics)
  }

  datatype RawBounds = Bounds(minCost: real, costRange: real, minLatency: real, maxLatency: real, latencyRange: real)

  type Bounds = b: RawBounds | b.costRange != 0.0 && b.latencyRange != 0.0 witness Bounds(0.0, 1.0, 0.0, 1.0, 1.0)

  function BoundsOf(configs: seq<GatewayConfig>, metrics: map<Gateway, Metrics>): Bounds
    requires configs != []
  {
    var costs, latencies := Costs(configs), KnownLatencies(configs, metrics);
    var minLatency := if latencies != [] then MinOf(latencies) else 0.0;
    var maxLatency := if latencies != [] then MaxOf(latencies) else 1.0;
    Bounds(MinOf(costs), RangeOr1(MinOf(costs), MaxOf(costs)), minLatency, maxLatency, RangeOr1(minLatency, maxLatency))
  }

  // ---------------------------------------------------------------- scores

  const DEFAULT_SUCCESS_RATE: real := 0.95

  function SuccessRate(g: Gateway, metrics: map<Gateway, Metrics>): real {
    if g in metrics then metrics[g].successRate else DEFAULT_SUCCESS_RATE
  }

  function P95(g: Gateway, metrics: map<Gateway, Metrics>, b: Bounds): real {
    if g in metrics then metrics[g].p95LatencyMs else b.maxLatency
  }

  function LatencyScore(p95: real, b: Bounds): real {
    1.0 - (p95 - b.minLatency) / b.latencyRange
  }

  function CostScore(cost: real, b: Bounds): real {
    1.0 - (cost - b.minCost) / b.costRange
  }

  function Composite(config: RoutingConfig, success: real, latency: real, cost: real, health: real, fit: real): real {
    config.weightSuccessRate * success + config.weightLatency * latency + config.weightCost * cost
    + config.weightHealth * health + config.weightFit * fit
  }

  function ScoreOf(config: RoutingConfig, b: Bounds, metrics: map<Gateway, Metrics>, state: BreakerState, c: GatewayConfig): Score {
    var success := SuccessRate(c.gateway, metrics);
    var p95 := P95(c.gateway, metrics, b);
    var latency, cost, health := LatencyScore(p95, b), CostScore(Cost(c), b), HealthScore(state);
    Score(c.gateway, Composite(config, success, latency, cost, health, 1.0), success, latency, cost, health, 1.0, success, p95)
  }

  // findEnabledForMethodAndCurrency()
  predicate Eligible(c: GatewayConfig, paymentMethod: PaymentMethod, currency: Currency) {
    c.isEnabled && paymentMethod in c.supportedMethods && currency in c.supportedCurrencies
  }

  function EligibleConfigs(configs: seq<GatewayConfig>, paymentMethod: PaymentMethod, currency: Currency): (r: seq<GatewayConfig>)
    ensures forall c :: c in r <==> c in configs && Eligible(c, paymentMethod, currency)
    ensures forall c :: c in r <==> c in configs && c.isEnabled && paymentMethod in c.supportedMethods && currency in c.supportedCurrencies
  {
    if configs == [] then []
    else
      var rest := EligibleConfigs(configs[1..], paymentMethod, currency);
      assert forall c :: c in configs <==> c == configs[0] || c in configs[1..];
      if Eligible(configs[0], paymentMethod, currency) then [configs[0]] + rest else rest
  }

  // The listed configs keep the table's order and number.
  lemma {:induction false} EligibleInOrder(configs: seq<GatewayConfig>, more: seq<GatewayConfig>, c: GatewayConfig,
                                           paymentMethod: PaymentMethod, currency: Currency)
    ensures EligibleConfigs(configs + more, paymentMethod, currency)
         == EligibleConfigs(configs, paymentMethod, currency) + EligibleConfigs(more, paymentMethod, currency)
    ensures EligibleConfigs([c], paymentMethod, currency)
         == if c.isEnabled && paymentMethod in c.supportedMethods && currency in c.supportedCurrencies then [c] else []
    decreases |configs|
  {
    if configs == [] {
      assert configs + more == more;
    } else {
      EligibleInOrder(configs[1..], more, c, paymentMethod, currency);
      assert (configs + more)[1..] == configs[1..] + more;
    }
  }

  type Scorer = GatewayConfig -> Score

  // The score each gateway gets in one call.
  function ScorerOf(config: RoutingConfig, b: Bounds, metrics: map<Gateway, Metrics>, breaker: Gateway -> BreakerState): Scorer {
    (c: GatewayConfig) => ScoreOf(config, b, metrics, breaker(c.gateway), c)
  }

  // The scores of the listed gateways whose circuit is not open, in list order.
  function ScoresBy(scorer: Scorer, breaker: Gateway -> BreakerState, configs: seq<GatewayConfig>): seq<Score> {
    if configs == [] then []
    else
      var init, last := configs[..|configs| - 1], configs[|configs| - 1];
      var scores := ScoresBy(scorer, breaker, init);
      if breaker(last.gateway) == Open then scores else scores + [scorer(last)]
  }

  // So do the scores.
  lemma {:induction false} ScoredInOrder(scorer: Scorer, breaker: Gateway -> BreakerState, configs: seq<GatewayConfig>,
                                         more: seq<GatewayConfig>, c: GatewayConfig)
    ensures ScoresBy(scorer, breaker, configs + more) == ScoresBy(scorer, breaker, configs) + ScoresBy(scorer, breaker, more)
    ensures ScoresBy(scorer, breaker, [c]) == if breaker(c.gateway) == Open then [] else [scorer(c)]
    decreases |more|
  {
    if more == [] {
      assert configs + more == configs;
    } else {
      var init := more[..|more| - 1];
      ScoredInOrder(scorer, breaker, configs, init, c);
      assert (configs + more)[..|configs + more| - 1] == configs + init;
    }
  }

  // ---------------------------------------------------------------- sort

  function InsertByScore(x: Score, s: seq<Score>): (r: seq<Score>)
    ensures |r| == |s| + 1
  {
    if s == [] then [x]
    else if x.compositeScore >= s[0].compositeScore then [x] + s
    else [s[0]] + InsertByScore(x, s[1..])
  }

  // scores.sort((a, b) => b.compositeScore - a.compositeScore), which is stable.
  function SortByScore(s: seq<Score>): (r: seq<Score>)
    ensures |r| == |s|
  {
    if s == [] then [] else InsertByScore(s[0], SortByScore(s[1..]))
  }

  function Without(s: seq<Score>, i: nat): seq<Score>
    requires i < |s|
  {
    s[..i] + s[i + 1..]
  }

  // The first of the highest scores.
  function BestIndex(s: seq<Score>): (r: nat)
    requires s != []
    ensures r < |s|
  {
    if |s| == 1 then 0
    else
      var later := 1 + BestIndex(s[1..]);
      if s[0].compositeScore >= s[later].compositeScore then 0 else later
  }

  ghost predicate IsBest(s: seq<Score>, i: nat) {
    i < |s| && forall j :: 0 <= j < |s| ==> s[j].compositeScore <= s[i].compositeScore
                                            && (j < i ==> s[j].compositeScore < s[i].compositeScore)
  }

  lemma {:induction false} BestIndexIsBest(s: seq<Score>, i: nat)
    requires s != []
    ensures IsBest(s, i) <==> i == BestIndex(s)
    decreases |s|
  {
    if |s| > 1 {
      BestIndexIsBest(s[1..], BestIndex(s[1..]));
      assert forall j :: 1 <= j < |s| ==> s[j] == s[1..][j - 1];
      assert IsBest(s, BestIndex(s));
    }
  }

  // Sorting puts the first best score in front and sorts the rest.
  lemma {:induction false} SortTakesBest(s: seq<Score>)
    requires s != []
    ensures SortByScore(s) == [s[BestIndex(s)]] + SortByScore(Without(s, BestIndex(s)))
    decreases |s|
  {
    if |s| == 1 {
      assert Without(s, 0) == [];
    } else {
      var rest := s[1..];
      var k := BestIndex(rest);
      SortTakesBest(rest);
      var sorted := SortByScore(rest);
      assert sorted[0] == rest[k] && rest[k] == s[1 + k];
      if BestIndex(s) == 0 {
        assert Without(s, 0) == rest;
      } else {
        var others := Without(rest, k);
        assert sorted[1..] == SortByScore(others);
        assert Without(s, 1 + k) == [s[0]] + others;
        assert ([s[0]] + others)[1..] == others;
      }
    }
  }

  lemma {:induction false} InsertKeepsElements(x: Score, s: seq<Score>)
    ensures multiset(InsertByScore(x, s)) == multiset(s) + multiset{x}
    decreases |s|
  {
    if s != [] && x.compositeScore < s[0].compositeScore {
      InsertKeepsElements(x, s[1..]);
      assert s == [s[0]] + s[1..];
    }
  }

  lemma {:induction false} SortKeepsElements(s: seq<Score>)
    ensures multiset(SortByScore(s)) == multiset(s)
    decreases |s|
  {
    if s != [] {
      SortKeepsElements(s[1..]);
      InsertKeepsElements(s[0], SortByScore(s[1..]));
      assert s == [s[0]] + s[1..];
    }
  }

  // ---------------------------------------------------------------- choice

  // Independent of any sort: the best score, unless it is half open and the best of the others
  // is within the threshold.
  function Chosen(scores: seq<Score>, breaker: Gateway -> BreakerState, threshold: real): Score
    requires scores != []
  {
    var top := scores[BestIndex(scores)];
    var others := Without(scores, BestIndex(scores));
    if others != [] && breaker(top.gateway) == HalfOpen
       && top.compositeScore - others[BestIndex(others)].compositeScore <= threshold then
      others[BestIndex(others)]
    else top
  }

  function RouteRows(sorted: seq<Score>, selected: Gateway, selectedAt: nat, reason: SelectionReason): (r: seq<RouteRow>)
    ensures |r| == |sorted|
    ensures forall i :: 0 <= i < |r| ==>
                          r[i] == RouteRow(sorted[i], if i == selectedAt then reason else NotSelected, sorted[i].gateway == selected)
  {
    seq(|sorted|, i requires 0 <= i < |sorted| =>
      RouteRow(sorted[i], if i == selectedAt then reason else NotSelected, sorted[i].gateway == selected))
  }

  ghost predicate Distinct(s: seq<Score>) {
    forall i, j :: 0 <= i < j < |s| ==> s[i].gateway != s[j].gateway
  }

  ghost predicate DistinctGateways(configs: seq<GatewayConfig>) {
    forall i, j :: 0 <= i < j < |configs| ==> configs[i].gateway != configs[j].gateway
  }

  // The scores a call works with.
  function CallScores(config: RoutingConfig, configs: seq<GatewayConfig>, metrics: map<Gateway, Metrics>,
                      breaker: Gateway -> BreakerState, paymentMethod: PaymentMethod, currency: Currency): seq<Score>
  {
    var enabled := EligibleConfigs(configs, paymentMethod, currency);
    if enabled == [] then [] else ScoresBy(ScorerOf(config, BoundsOf(enabled, metrics), metrics, breaker), breaker, enabled)
  }

  class GatewayRouterService {
    var gatewayRoutes: seq<RouteRow>

    constructor ()
      ensures gatewayRoutes == []
    {
      gatewayRoutes := [];
    }

    // None is NoGatewayAvailableException. `configs` is the gateway_config table.
    method SelectGateway(config: RoutingConfig, configs: seq<GatewayConfig>, metrics: map<Gateway, Metrics>,
                         breaker: Gateway -> BreakerState, paymentMethod: PaymentMethod, currency: Currency)
      returns (r: Option<Gateway>)
      modifies this
      ensures var scores := CallScores(config, configs, metrics, breaker, paymentMethod, currency);
              && (r.None? <==> scores == [])
              && (r.None? ==> gatewayRoutes == old(gatewayRoutes))
              && (r.Some? ==>
                    && r.value == Chosen(scores, breaker, config.degradedSkipThreshold).gateway
                    && exists rows :: gatewayRoutes == old(gatewayRoutes) + rows
                                      && Documents(rows, SortByScore(scores), r.value, ReasonFor(scores, breaker, config.degradedSkipThreshold)))
    {
      var enabledConfigs := EligibleConfigs(configs, paymentMethod, currency);
      if |enabledConfigs| == 0 {
        return None;
      }
      var scores := ScoreGateways(config, enabledConfigs, metrics, breaker, paymentMethod, currency);
      if |scores| == 0 {
        return None;
      }
      var sorted := SortByScore(scores);
      var at, reason := PickSorted(scores, sorted, breaker, config.degradedSkipThreshold);
      RecordRoutingDecision(sorted, at, reason);
      r := Some(sorted[at].gateway);
    }

    // The loop over the enabled configs.
    static method ScoreGateways(config: RoutingConfig, enabledConfigs: seq<GatewayConfig>, metrics: map<Gateway, Metrics>,
                                breaker: Gateway -> BreakerState, paymentMethod: PaymentMethod, currency: Currency)
      returns (scores: seq<Score>)
      requires enabledConfigs != [] && forall c :: c in enabledConfigs ==> Eligible(c, paymentMethod, currency)
      ensures scores == ScoresBy(ScorerOf(config, BoundsOf(enabledConfigs, metrics), metrics, breaker), breaker, enabledConfigs)
    {
      var scorer := ScorerOf(config, BoundsOf(enabledConfigs, metrics), metrics, breaker);
      scores := [];
      var i := 0;
      while i < |enabledConfigs|
        invariant 0 <= i <= |enabledConfigs|
        invariant scores == ScoresBy(scorer, breaker, enabledConfigs[..i])
      {
        var gwConfig := enabledConfigs[i];
        assert enabledConfigs[..i + 1][..i] == enabledConfigs[..i];
        assert gwConfig in enabledConfigs;
        if breaker(gwConfig.gateway) != Open {
          // Every listed gateway supports the method, so the fit score is always 1.
          scores := scores + [scorer(gwConfig)];
        }
        i := i + 1;
      }
      assert enabledConfigs[..i] == enabledConfigs;
    }

    // The degraded-gateway skip on the sorted scores.
    static method PickSorted(ghost scores: seq<Score>, sorted: seq<Score>, breaker: Gateway -> BreakerState, threshold: real)
      returns (at: nat, reason: SelectionReason)
      requires scores != [] && sorted == SortByScore(scores)
      ensures at < |sorted| && sorted[at] == Chosen(scores, breaker, threshold) && reason == ReasonFor(scores, breaker, threshold)
    {
      SortTakesBest(scores);
      at, reason := 0, HighestScore;
      if |sorted| > 1 && breaker(sorted[0].gateway) == HalfOpen {
        SortTakesBest(Without(scores, BestIndex(scores)));
        SecondIsWithin(scores, threshold);
        var scoreDiff := sorted[0].compositeScore - sorted[1].compositeScore;
        if scoreDiff <= threshold {
          at, reason := 1, PreferredOverDegraded;
        } else {
          reason := SelectedDespiteHalfOpen;
        }
      }
    }

    method RecordRoutingDecision(sorted: seq<Score>, at: nat, reason: SelectionReason)
      requires at < |sorted| && reason != NotSelected
      modifies this
      ensures exists rows :: gatewayRoutes == old(gatewayRoutes) + rows && Documents(rows, sorted, sorted[at].gateway, reason)
    {
      var rows := RouteRows(sorted, sorted[at].gateway, at, reason);
      gatewayRoutes := gatewayRoutes + rows;
      assert rows[at].wasSelected && Documents(rows, sorted, sorted[at].gateway, reason);
    }
  }

  // Why the choice fell as it did, in terms of the unsorted scores.
  function ReasonFor(scores: seq<Score>, breaker: Gateway -> BreakerState, threshold: real): SelectionReason
    requires scores != []
  {
    var top := scores[BestIndex(scores)];
    if |scores| == 1 || breaker(top.gateway) != HalfOpen then HighestScore
    else if TopLeadsWithin(scores, threshold) then PreferredOverDegraded
    else SelectedDespiteHalfOpen
  }

  // Some other score is within the threshold of the best.
  predicate TopLeadsWithin(scores: seq<Score>, threshold: real)
    requires |scores| > 1
  {
    exists i :: 0 <= i < |scores| && i != BestIndex(scores)
                && scores[BestIndex(scores)].compositeScore - scores[i].compositeScore <= threshold
  }

  // The best of the rest is one of the scores, and no other than the best is better.
  lemma SecondBest(scores: seq<Score>) returns (second: nat)
    requires |scores| > 1
    ensures var others := Without(scores, BestIndex(scores));
            && second < |scores| && second != BestIndex(scores) && scores[second] == others[BestIndex(others)]
    ensures forall i :: 0 <= i < |scores| && i != BestIndex(scores) ==> scores[i].compositeScore <= scores[second].compositeScore
  {
    var t := BestIndex(scores);
    var others := Without(scores, t);
    var k := BestIndex(others);
    second := if k < t then k else k + 1;
    BestIndexIsBest(others, k);
    forall i | 0 <= i < |scores| && i != t ensures scores[i].compositeScore <= scores[second].compositeScore {
      assert scores[i] == others[if i < t then i else i - 1];
    }
  }

  // So the second best decides whether any other score is within the threshold.
  lemma SecondIsWithin(scores: seq<Score>, threshold: real)
    requires |scores| > 1
    ensures var others := Without(scores, BestIndex(scores));
            TopLeadsWithin(scores, threshold) <==>
            scores[BestIndex(scores)].compositeScore - others[BestIndex(others)].compositeScore <= threshold
  {
    var second := SecondBest(scores);
  }

  // The skip happens exactly if the first of the best scores is half open and some other is within
  // the threshold of it; then none but that best is above the choice. The reason
  // saved is the matching one.
  lemma ChosenSkipsExactly(scores: seq<Score>, breaker: Gateway -> BreakerState, threshold: real, top: nat)
    requires IsBest(scores, top)
    ensures var w := Chosen(scores, breaker, threshold);
            var reason := ReasonFor(scores, breaker, threshold);
            if breaker(scores[top].gateway) == HalfOpen
               && exists i :: 0 <= i < |scores| && i != top && scores[top].compositeScore - scores[i].compositeScore <= threshold then
              && reason == PreferredOverDegraded
              && (exists k :: 0 <= k < |scores| && k != top && w == scores[k])
              && (forall i :: 0 <= i < |scores| && i != top ==> scores[i].compositeScore <= w.compositeScore)
            else
              && w == scores[top]
              && reason == if |scores| > 1 && breaker(scores[top].gateway) == HalfOpen then SelectedDespiteHalfOpen else HighestScore
  {
    BestIndexIsBest(scores, top);
    if |scores| > 1 {
      var second := SecondBest(scores);
    }
  }

  // One row per score, in order; those of the selected gateway are marked, and exactly one of
  // them carries the reason.
  ghost predicate Documents(rows: seq<RouteRow>, sorted: seq<Score>, selected: Gateway, reason: SelectionReason) {
    && |rows| == |sorted|
    && (forall i :: 0 <= i < |rows| ==> rows[i].score == sorted[i] && (rows[i].wasSelected <==> sorted[i].gateway == selected))
    && (exists i :: 0 <= i < |rows| && rows[i].wasSelected && rows[i].selectionReason == reason
                    && forall j :: 0 <= j < |rows| && j != i ==> rows[j].selectionReason == NotSelected)
  }

  // ---------------------------------------------------------------- the choice against its purpose

  // A gateway the call may use.
  predicate Candidate(c: GatewayConfig, breaker: Gateway -> BreakerState, paymentMethod: PaymentMethod, currency: Currency) {
    Eligible(c, paymentMethod, currency) && breaker(c.gateway) != Open
  }

  lemma {:induction false} EligibleKeepsDistinct(configs: seq<GatewayConfig>, paymentMethod: PaymentMethod, currency: Currency)
    requires DistinctGateways(configs)
    ensures DistinctGateways(EligibleConfigs(configs, paymentMethod, currency))
    decreases |configs|
  {
    if configs != [] {
      EligibleKeepsDistinct(configs[1..], paymentMethod, currency);
      var rest := EligibleConfigs(configs[1..], paymentMethod, currency);
      forall j | 0 <= j < |rest| ensures rest[j].gateway != configs[0].gateway {
        assert rest[j] in rest;
        var k :| 0 <= k < |configs[1..]| && configs[1..][k] == rest[j];
        assert configs[k + 1] == rest[j];
      }
    }
  }

  ghost predicate ScoresCandidate(scorer: Scorer, breaker: Gateway -> BreakerState, configs: seq<GatewayConfig>, x: Score) {
    exists c :: c in configs && breaker(c.gateway) != Open && x == scorer(c)
  }

  // The scores are those of the listed gateways that are not open ...
  lemma {:induction false} ScoresCover(scorer: Scorer, breaker: Gateway -> BreakerState, configs: seq<GatewayConfig>)
    ensures forall x :: x in ScoresBy(scorer, breaker, configs) <==> ScoresCandidate(scorer, breaker, configs, x)
    decreases |configs|
  {
    if configs != [] {
      var init, last := configs[..|configs| - 1], configs[|configs| - 1];
      ScoresCover(scorer, breaker, init);
      assert configs == init + [last];
      forall x ensures x in ScoresBy(scorer, breaker, configs) <==> ScoresCandidate(scorer, breaker, configs, x) {
        CandidateAppend(scorer, breaker, init, last, x);
      }
    }
  }

  lemma CandidateAppend(scorer: Scorer, breaker: Gateway -> BreakerState, init: seq<GatewayConfig>, last: GatewayConfig, x: Score)
    ensures ScoresCandidate(scorer, breaker, init + [last], x) <==>
            ScoresCandidate(scorer, breaker, init, x) || (breaker(last.gateway) != Open && x == scorer(last))
  {
    var configs := init + [last];
    assert last in configs;
    if ScoresCandidate(scorer, breaker, init, x) {
      var c :| c in init && breaker(c.gateway) != Open && x == scorer(c);
      assert c in configs;
    }
  }

  // ... each once.
  lemma {:induction false} ScoresAreDistinct(scorer: Scorer, breaker: Gateway -> BreakerState, configs: seq<GatewayConfig>)
    requires DistinctGateways(configs) && forall c :: scorer(c).gateway == c.gateway
    ensures Distinct(ScoresBy(scorer, breaker, configs))
    decreases |configs|
  {
    if configs != [] {
      var init, last := configs[..|configs| - 1], configs[|configs| - 1];
      ScoresAreDistinct(scorer, breaker, init);
      ScoresCover(scorer, breaker, init);
      var before := ScoresBy(scorer, breaker, init);
      forall i | 0 <= i < |before| ensures before[i].gateway != last.gateway {
        assert before[i] in before && ScoresCandidate(scorer, breaker, init, before[i]);
        var c :| c in init && before[i] == scorer(c);
        var k :| 0 <= k < |init| && init[k] == c;
        assert configs[k] == c;
      }
    }
  }

  // The chosen score is one of the scores, and every other is at most as good, except possibly
  // one: a half-open top scorer that leads by no more than the threshold.
  lemma ChosenBeatsTheRest(scores: seq<Score>, breaker: Gateway -> BreakerState, threshold: real)
    requires scores != []
    ensures var w := Chosen(scores, breaker, threshold);
            && w in scores
            && exists top :: LeadsWithin(scores, breaker, threshold, w, top)
  {
    var t := BestIndex(scores);
    BestIndexIsBest(scores, t);
    if |scores| > 1 {
      var second := SecondBest(scores);
      assert scores[second] in scores;
    }
    assert LeadsWithin(scores, breaker, threshold, Chosen(scores, breaker, threshold), t);
  }

  // `w` beats everyone, except that `top` may lead it while half open and within the threshold.
  ghost predicate BeatsAllBut(scorer: Scorer, breaker: Gateway -> BreakerState, threshold: real, configs: seq<GatewayConfig>,
                              w: Score, top: Score)
  {
    forall c :: c in configs && breaker(c.gateway) != Open ==>
                  || scorer(c).compositeScore <= w.compositeScore
                  || (scorer(c) == top && breaker(c.gateway) == HalfOpen && scorer(c).compositeScore - w.compositeScore <= threshold)
  }

  ghost predicate Unbeaten(scorer: Scorer, breaker: Gateway -> BreakerState, threshold: real, configs: seq<GatewayConfig>, w: Score) {
    exists top :: BeatsAllBut(scorer, breaker, threshold, configs, w, top)
  }

  ghost predicate LeadsWithin(scores: seq<Score>, breaker: Gateway -> BreakerState, threshold: real, w: Score, top: nat) {
    && top < |scores|
    && (forall i :: 0 <= i < |scores| && i != top ==> scores[i].compositeScore <= w.compositeScore)
    && (forall i :: 0 <= i < |scores| ==> scores[i].compositeScore <= scores[top].compositeScore)
    && (scores[top].compositeScore > w.compositeScore ==>
          breaker(scores[top].gateway) == HalfOpen && scores[top].compositeScore - w.compositeScore <= threshold)
  }

  lemma LeaderIsTheException(scorer: Scorer, breaker: Gateway -> BreakerState, threshold: real, configs: seq<GatewayConfig>,
                             w: Score, top: nat)
    requires forall c :: scorer(c).gateway == c.gateway
    requires LeadsWithin(ScoresBy(scorer, breaker, configs), breaker, threshold, w, top)
    ensures BeatsAllBut(scorer, breaker, threshold, configs, w, ScoresBy(scorer, breaker, configs)[top])
  {
    var scores := ScoresBy(scorer, breaker, configs);
    ScoresCover(scorer, breaker, configs);
    forall c | c in configs && breaker(c.gateway) != Open
      ensures || scorer(c).compositeScore <= w.compositeScore
              || (scorer(c) == scores[top] && breaker(c.gateway) == HalfOpen && scorer(c).compositeScore - w.compositeScore <= threshold)
    {
      var s := scorer(c);
      assert ScoresCandidate(scorer, breaker, configs, s) && s.gateway == c.gateway;
      var i :| 0 <= i < |scores| && scores[i] == s;
    }
  }

  lemma WinnerIsUnbeaten(scorer: Scorer, breaker: Gateway -> BreakerState, threshold: real, configs: seq<GatewayConfig>)
    requires ScoresBy(scorer, breaker, configs) != [] && forall c :: scorer(c).gateway == c.gateway
    ensures var w := Chosen(ScoresBy(scorer, breaker, configs), breaker, threshold);
            && (exists c :: c in configs && breaker(c.gateway) != Open && w == scorer(c))
            && Unbeaten(scorer, breaker, threshold, configs, w)
  {
    var scores := ScoresBy(scorer, breaker, configs);
    var w := Chosen(scores, breaker, threshold);
    ScoresCover(scorer, breaker, configs);
    ChosenBeatsTheRest(scores, breaker, threshold);
    assert ScoresCandidate(scorer, breaker, configs, w);
    var t :| LeadsWithin(scores, breaker, threshold, w, t);
    LeaderIsTheException(scorer, breaker, threshold, configs, w, t);
  }

  // For any table of configs: there is no choice exactly when there is no candidate; the chosen
  // gateway is a candidate; and it beats every other candidate except possibly one half-open
  // top scorer within the threshold.
  lemma ChoiceMeetsItsPurpose(config: RoutingConfig, configs: seq<GatewayConfig>, metrics: map<Gateway, Metrics>,
                              breaker: Gateway -> BreakerState, paymentMethod: PaymentMethod, currency: Currency)
    ensures var scores := CallScores(config, configs, metrics, breaker, paymentMethod, currency);
            var enabled := EligibleConfigs(configs, paymentMethod, currency);
            && (scores == [] <==> forall c :: c in configs ==> !Candidate(c, breaker, paymentMethod, currency))
            && (scores != [] ==>
                  var scorer := ScorerOf(config, BoundsOf(enabled, metrics), metrics, breaker);
                  var w := Chosen(scores, breaker, config.degradedSkipThreshold);
                  && (exists c :: c in configs && Candidate(c, breaker, paymentMethod, currency) && w == scorer(c) && w.gateway == c.gateway)
                  && Unbeaten(scorer, breaker, config.degradedSkipThreshold, enabled, w))
  {
    var enabled := EligibleConfigs(configs, paymentMethod, currency);
    if enabled != [] {
      var scorer := ScorerOf(config, BoundsOf(enabled, metrics), metrics, breaker);
      ScorerNamesGateway(config, BoundsOf(enabled, metrics), metrics, breaker);
      NoScoreNoCandidate(scorer, breaker, enabled);
      if ScoresBy(scorer, breaker, enabled) != [] {
        WinnerIsUnbeaten(scorer, breaker, config.degradedSkipThreshold, enabled);
      }
    }
  }

  lemma ScorerNamesGateway(config: RoutingConfig, b: Bounds, metrics: map<Gateway, Metrics>, breaker: Gateway -> BreakerState)
    ensures forall c :: ScorerOf(config, b, metrics, breaker)(c).gateway == c.gateway
  {
  }

  lemma NoScoreNoCandidate(scorer: Scorer, breaker: Gateway -> BreakerState, configs: seq<GatewayConfig>)
    ensures ScoresBy(scorer, breaker, configs) == [] <==> forall c :: c in configs ==> breaker(c.gateway) == Open
  {
    var scores := ScoresBy(scorer, breaker, configs);
    ScoresCover(scorer, breaker, configs);
    if scores != [] {
      assert scores[0] in scores && ScoresCandidate(scorer, breaker, configs, scores[0]);
    }
    forall c | c in configs && breaker(c.gateway) != Open ensures scores != [] {
      assert ScoresCandidate(scorer, breaker, configs, scorer(c));
    }
  }

  // Gateways being distinct, exactly one of the rows saved for a decision is marked selected.
  lemma OneRowIsSelected(config: RoutingConfig, configs: seq<GatewayConfig>, metrics: map<Gateway, Metrics>,
                         breaker: Gateway -> BreakerState, paymentMethod: PaymentMethod, currency: Currency,
                         rows: seq<RouteRow>, selected: Gateway, reason: SelectionReason)
    requires DistinctGateways(configs)
    requires Documents(rows, SortByScore(CallScores(config, configs, metrics, breaker, paymentMethod, currency)), selected, reason)
    ensures exists i :: 0 <= i < |rows| && rows[i].wasSelected && rows[i].selectionReason == reason
                        && forall j :: 0 <= j < |rows| && j != i ==> !rows[j].wasSelected
  {
    var scores := CallScores(config, configs, metrics, breaker, paymentMethod, currency);
    CallScoresDistinct(config, configs, metrics, breaker, paymentMethod, currency);
    SortKeepsDistinct(scores);
    OneIsMarked(rows, SortByScore(scores), selected, reason);
  }

  lemma CallScoresDistinct(config: RoutingConfig, configs: seq<GatewayConfig>, metrics: map<Gateway, Metrics>,
                           breaker: Gateway -> BreakerState, paymentMethod: PaymentMethod, currency: Currency)
    requires DistinctGateways(configs)
    ensures Distinct(CallScores(config, configs, metrics, breaker, paymentMethod, currency))
  {
    var enabled := EligibleConfigs(configs, paymentMethod, currency);
    if enabled != [] {
      EligibleKeepsDistinct(configs, paymentMethod, currency);
      ScorerNamesGateway(config, BoundsOf(enabled, metrics), metrics, breaker);
      ScoresAreDistinct(ScorerOf(config, BoundsOf(enabled, metrics), metrics, breaker), breaker, enabled);
    }
  }

  lemma OneIsMarked(rows: seq<RouteRow>, sorted: seq<Score>, selected: Gateway, reason: SelectionReason)
    requires Documents(rows, sorted, selected, reason)
    requires Distinct(sorted)
    ensures exists i :: 0 <= i < |rows| && rows[i].wasSelected && rows[i].selectionReason == reason
                        && forall j :: 0 <= j < |rows| && j != i ==> !rows[j].wasSelected
  {
    var i :| 0 <= i < |rows| && rows[i].wasSelected && rows[i].selectionReason == reason;
    forall j | 0 <= j < |rows| && j != i ensures !rows[j].wasSelected {
      assert sorted[j].gateway != sorted[i].gateway;
    }
  }

  lemma {:induction false} InsertKeepsDistinct(x: Score, s: seq<Score>)
    requires Distinct(s) && forall y :: y in s ==> y.gateway != x.gateway
    ensures Distinct(InsertByScore(x, s))
    ensures forall y :: y in InsertByScore(x, s) ==> y == x || y in s
    decreases |s|
  {
    if s != [] && x.compositeScore < s[0].compositeScore {
      InsertKeepsDistinct(x, s[1..]);
      var r := InsertByScore(x, s[1..]);
      forall i | 0 <= i < |r| ensures r[i].gateway != s[0].gateway {
        assert r[i] in r;
      }
    } else {
      forall i | 0 <= i < |s| ensures s[i].gateway != x.gateway {
        assert s[i] in s;
      }
    }
  }

  lemma {:induction false} SortKeepsDistinct(s: seq<Score>)
    requires Distinct(s)
    ensures Distinct(SortByScore(s))
    ensures forall y :: y in SortByScore(s) ==> y in s
    decreases |s|
  {
    if s != [] {
      SortKeepsDistinct(s[1..]);
      InsertKeepsDistinct(s[0], SortByScore(s[1..]));
    }
  }
}
