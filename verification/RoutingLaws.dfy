// How the routing choice responds to its inputs, and where its scores lie.
module RoutingLaws {
  import opened CircuitBreaker
  import opened GatewayRouter
  import Health = GatewayHealth

  // ---------------------------------------------------------------- a better success rate

  // The same scores, except that those of gateway `g` may be higher.
  ghost predicate RaisedFor(s: seq<Score>, s': seq<Score>, g: Gateway) {
    && |s'| == |s|
    && (forall i :: 0 <= i < |s| ==>
          && s'[i].gateway == s[i].gateway
          && s[i].compositeScore <= s'[i].compositeScore
          && (s[i].gateway != g ==> s'[i].compositeScore == s[i].compositeScore))
  }

  lemma RaisedBestStaysBest(s: seq<Score>, s': seq<Score>, g: Gateway)
    requires s != [] && RaisedFor(s, s', g)
    ensures s[BestIndex(s)].gateway == g ==> s'[BestIndex(s')].gateway == g
    ensures s'[BestIndex(s')].gateway == g || BestIndex(s') == BestIndex(s)
    ensures s'[BestIndex(s')].compositeScore >= s[BestIndex(s)].compositeScore
  {
    BestIndexIsBest(s, BestIndex(s));
    BestIndexIsBest(s', BestIndex(s'));
  }

  lemma RaisedWinnerStays(s: seq<Score>, s': seq<Score>, breaker: Gateway -> BreakerState, threshold: real)
    requires s != [] && RaisedFor(s, s', Chosen(s, breaker, threshold).gateway)
    requires breaker(Chosen(s, breaker, threshold).gateway) == Closed
    ensures Chosen(s', breaker, threshold).gateway == Chosen(s, breaker, threshold).gateway
  {
    var g := Chosen(s, breaker, threshold).gateway;
    var t := BestIndex(s);
    RaisedBestStaysBest(s, s', g);
    if s[t].gateway != g && s'[BestIndex(s')].gateway != g {
      var others, others' := Without(s, t), Without(s', t);
      assert RaisedFor(others, others', g);
      RaisedBestStaysBest(others, others', g);
    }
  }

  ghost predicate RaisesOnly(scorer: Scorer, scorer': Scorer, g: Gateway) {
    forall c: GatewayConfig ::
      && scorer(c).gateway == c.gateway == scorer'(c).gateway
      && scorer(c).compositeScore <= scorer'(c).compositeScore
      && (c.gateway != g ==> scorer'(c) == scorer(c))
  }

  lemma {:induction false} ScoresAreRaised(scorer: Scorer, scorer': Scorer, breaker: Gateway -> BreakerState,
                                           configs: seq<GatewayConfig>, g: Gateway)
    requires RaisesOnly(scorer, scorer', g)
    ensures RaisedFor(ScoresBy(scorer, breaker, configs), ScoresBy(scorer', breaker, configs), g)
    decreases |configs|
  {
    if configs != [] {
      ScoresAreRaised(scorer, scorer', breaker, configs[..|configs| - 1], g);
    }
  }

  lemma {:induction false} LatenciesIgnoreRates(configs: seq<GatewayConfig>, metrics: map<Gateway, Metrics>, g: Gateway, rate: real)
    requires g in metrics
    ensures KnownLatencies(configs, metrics[g := metrics[g].(successRate := rate)]) == KnownLatencies(configs, metrics)
    decreases |configs|
  {
    if configs != [] { LatenciesIgnoreRates(configs[1..], metrics, g, rate); }
  }

  lemma CompositeGrows(config: RoutingConfig, low: real, high: real, latency: real, cost: real, health: real, fit: real)
    requires config.weightSuccessRate >= 0.0 && low <= high
    ensures Composite(config, low, latency, cost, health, fit) <= Composite(config, high, latency, cost, health, fit)
  {
    assert config.weightSuccessRate * (high - low) >= 0.0;
  }

  lemma BetterRateRaises(config: RoutingConfig, b: Bounds, metrics: map<Gateway, Metrics>, breaker: Gateway -> BreakerState,
                         g: Gateway, rate: real)
    requires config.weightSuccessRate >= 0.0 && g in metrics && metrics[g].successRate <= rate
    ensures RaisesOnly(ScorerOf(config, b, metrics, breaker),
                       ScorerOf(config, b, metrics[g := metrics[g].(successRate := rate)], breaker), g)
  {
    var metrics' := metrics[g := metrics[g].(successRate := rate)];
    forall c: GatewayConfig
      ensures ScoreOf(config, b, metrics, breaker(c.gateway), c).compositeScore
           <= ScoreOf(config, b, metrics', breaker(c.gateway), c).compositeScore
    {
      CompositeGrows(config, SuccessRate(c.gateway, metrics), SuccessRate(c.gateway, metrics'),
                     LatencyScore(P95(c.gateway, metrics, b), b), CostScore(Cost(c), b), HealthScore(breaker(c.gateway)), 1.0);
    }
  }

  // A chosen gateway whose circuit is closed stays chosen when its success rate rises.
  lemma BetterRateKeepsTheWinner(config: RoutingConfig, configs: seq<GatewayConfig>, metrics: map<Gateway, Metrics>,
                                 breaker: Gateway -> BreakerState, paymentMethod: PaymentMethod, currency: Currency,
                                 g: Gateway, rate: real)
    requires config.weightSuccessRate >= 0.0 && g in metrics && metrics[g].successRate <= rate && breaker(g) == Closed
    requires var scores := CallScores(config, configs, metrics, breaker, paymentMethod, currency);
             scores != [] && Chosen(scores, breaker, config.degradedSkipThreshold).gateway == g
    ensures var metrics' := metrics[g := metrics[g].(successRate := rate)];
            var scores' := CallScores(config, configs, metrics', breaker, paymentMethod, currency);
            scores' != [] && Chosen(scores', breaker, config.degradedSkipThreshold).gateway == g
  {
    var metrics' := metrics[g := metrics[g].(successRate := rate)];
    var enabled := EligibleConfigs(configs, paymentMethod, currency);
    LatenciesIgnoreRates(enabled, metrics, g, rate);
    var b := BoundsOf(enabled, metrics);
    assert BoundsOf(enabled, metrics') == b;
    BetterRateRaises(config, b, metrics, breaker, g, rate);
    ScoresAreRaised(ScorerOf(config, b, metrics, breaker), ScorerOf(config, b, metrics', breaker), breaker, enabled, g);
    RaisedWinnerStays(CallScores(config, configs, metrics, breaker, paymentMethod, currency),
                      CallScores(config, configs, metrics', breaker, paymentMethod, currency), breaker, config.degradedSkipThreshold);
  }

  // ---------------------------------------------------------------- change of unit

  // x |-> a * x + b with a > 0: another unit, or a surcharge on all.
  ghost predicate IsAffine(f: real -> real, a: real, b: real) {
    a > 0.0 && forall x :: f(x) == a * x + b
  }

  // Position of x between min and max, as the latency and the cost score compute it.
  function Normalised(x: real, min: real, max: real): real {
    (x - min) / RangeOr1(min, max)
  }

  // What an affine map keeps: order, and relative position.
  ghost predicate OrderPreserving(f: real -> real) {
    forall x, y :: f(x) <= f(y) <==> x <= y
  }

  ghost predicate KeepsPosition(f: real -> real) {
    forall x, min, max :: (min == max ==> x == min) ==> Normalised(f(x), f(min), f(max)) == Normalised(x, min, max)
  }

  ghost predicate Mapped(s: seq<real>, s': seq<real>, f: real -> real) {
    |s'| == |s| && forall i :: 0 <= i < |s| ==> s'[i] == f(s[i])
  }

  lemma Monotone(a: real, b: real, x: real, y: real)
    requires a > 0.0
    ensures a * x + b <= a * y + b <==> x <= y
  {
    if x < y { assert a * (y - x) > 0.0; }
    if x > y { assert a * (x - y) > 0.0; }
  }

  lemma AffineKeepsOrder(f: real -> real, a: real, b: real)
    requires IsAffine(f, a, b)
    ensures OrderPreserving(f)
  {
    forall x, y ensures f(x) <= f(y) <==> x <= y {
      assert f(x) == a * x + b && f(y) == a * y + b;
      Monotone(a, b, x, y);
    }
  }

  lemma AffineKeepsPosition(f: real -> real, a: real, b: real)
    requires IsAffine(f, a, b)
    ensures KeepsPosition(f)
  {
    forall x, min, max | min == max ==> x == min
      ensures Normalised(f(x), f(min), f(max)) == Normalised(x, min, max)
    {
      PositionIsKept(f, a, b, x, min, max);
    }
  }

  lemma PositionIsKept(f: real -> real, a: real, b: real, x: real, min: real, max: real)
    requires IsAffine(f, a, b) && (min == max ==> x == min)
    ensures Normalised(f(x), f(min), f(max)) == Normalised(x, min, max)
  {
    if min != max {
      Difference(f, a, b, x, min);
      Difference(f, a, b, max, min);
      QuotientCancels(a, x - min, max - min);
    }
  }

  lemma Difference(f: real -> real, a: real, b: real, x: real, y: real)
    requires IsAffine(f, a, b)
    ensures f(x) - f(y) == a * (x - y)
  {
  }

  lemma QuotientCancels(a: real, x: real, y: real)
    requires a != 0.0 && y != 0.0
    ensures a * y != 0.0 && (a * x) / (a * y) == x / y
  {
    var q := x / y;
    assert q * y == x;
    assert a * x == q * (a * y);
  }

  lemma BoundsAreMapped(s: seq<real>, s': seq<real>, f: real -> real)
    requires OrderPreserving(f) && s != [] && Mapped(s, s', f)
    ensures MinOf(s') == f(MinOf(s)) && MaxOf(s') == f(MaxOf(s))
  {
    var lo, hi := Extremes(s);
    var lo', hi' := Extremes(s');
    assert f(s[lo]) <= f(s[lo']) && f(s[hi']) <= f(s[hi]);
  }

  lemma Extremes(s: seq<real>) returns (lo: nat, hi: nat)
    requires s != []
    ensures lo < |s| && hi < |s| && s[lo] == MinOf(s) && s[hi] == MaxOf(s)
    ensures forall i :: 0 <= i < |s| ==> MinOf(s) <= s[i] <= MaxOf(s)
  {
    var min, max := MinOf(s), MaxOf(s);
    assert min in s && max in s;
    lo, hi :| 0 <= lo < |s| && 0 <= hi < |s| && s[lo] == min && s[hi] == max;
    forall i | 0 <= i < |s| ensures min <= s[i] <= max {
      assert s[i] in s;
    }
  }

  lemma NormalisedWithin(x: real, min: real, max: real)
    requires min <= max
    ensures min <= x <= max ==> Share(Normalised(x, min, max))
    ensures x < min ==> Normalised(x, min, max) < 0.0
  {
    var range := RangeOr1(min, max);
    var q := Normalised(x, min, max);
    assert q * range == x - min;
    if q < 0.0 { assert q * range < 0.0; }
    if q > 1.0 { assert (q - 1.0) * range > 0.0; }
  }

  // ---------------------------------------------------------------- rescaled costs

  // The same gateway with its price, percentage and fixed fee together, put through a map.
  ghost predicate RepricedOne(c: GatewayConfig, c': GatewayConfig, f: real -> real) {
    && c' == c.(costPercentage := c'.costPercentage, costFixedPaise := c'.costFixedPaise)
    && c'.costPercentage + c'.costFixedPaise as real / 100_000.0 == f(c.costPercentage + c.costFixedPaise as real / 100_000.0)
  }

  ghost predicate Repriced(configs: seq<GatewayConfig>, configs': seq<GatewayConfig>, f: real -> real) {
    |configs'| == |configs| && forall i :: 0 <= i < |configs| ==> RepricedOne(configs[i], configs'[i], f)
  }

  lemma RepricedEligible(c: GatewayConfig, c': GatewayConfig, f: real -> real, paymentMethod: PaymentMethod, currency: Currency)
    requires RepricedOne(c, c', f)
    ensures Eligible(c', paymentMethod, currency) <==> Eligible(c, paymentMethod, currency)
  {
  }

  lemma RepricedPrepend(c: GatewayConfig, c': GatewayConfig, rest: seq<GatewayConfig>, rest': seq<GatewayConfig>, f: real -> real)
    requires RepricedOne(c, c', f) && Repriced(rest, rest', f)
    ensures Repriced([c] + rest, [c'] + rest', f)
  {
  }

  lemma {:induction false} EligibleAreRepriced(configs: seq<GatewayConfig>, configs': seq<GatewayConfig>, f: real -> real,
                                               paymentMethod: PaymentMethod, currency: Currency)
    requires Repriced(configs, configs', f)
    ensures Repriced(EligibleConfigs(configs, paymentMethod, currency), EligibleConfigs(configs', paymentMethod, currency), f)
    decreases |configs|
  {
    if configs != [] {
      var rest, rest' := EligibleConfigs(configs[1..], paymentMethod, currency), EligibleConfigs(configs'[1..], paymentMethod, currency);
      EligibleAreRepriced(configs[1..], configs'[1..], f, paymentMethod, currency);
      assert RepricedOne(configs[0], configs'[0], f);
      RepricedEligible(configs[0], configs'[0], f, paymentMethod, currency);
      RepricedPrepend(configs[0], configs'[0], rest, rest', f);
    }
  }

  lemma {:induction false} LatenciesIgnoreCosts(configs: seq<GatewayConfig>, configs': seq<GatewayConfig>, metrics: map<Gateway, Metrics>,
                                                f: real -> real)
    requires Repriced(configs, configs', f)
    ensures KnownLatencies(configs', metrics) == KnownLatencies(configs, metrics)
    decreases |configs|
  {
    if configs != [] {
      assert RepricedOne(configs[0], configs'[0], f);
      LatenciesIgnoreCosts(configs[1..], configs'[1..], metrics, f);
    }
  }

  ghost predicate ScoredAlike(scorer: Scorer, scorer': Scorer, breaker: Gateway -> BreakerState, configs: seq<GatewayConfig>) {
    forall c :: c in configs && breaker(c.gateway) != Open ==> SameButLatency(scorer(c), scorer'(c))
  }

  // Equal in every score; the latency that is recorded along may differ.
  ghost predicate SameButLatency(x: Score, y: Score) {
    y.(p95LatencyMs := x.p95LatencyMs) == x
  }

  ghost predicate AllAlike(s: seq<Score>, s': seq<Score>) {
    |s'| == |s| && forall i :: 0 <= i < |s| ==> SameButLatency(s[i], s'[i])
  }

  lemma {:induction false} ScoresAreAlike(scorer: Scorer, scorer': Scorer, breaker: Gateway -> BreakerState, configs: seq<GatewayConfig>)
    requires ScoredAlike(scorer, scorer', breaker, configs)
    ensures AllAlike(ScoresBy(scorer, breaker, configs), ScoresBy(scorer', breaker, configs))
    decreases |configs|
  {
    if configs != [] {
      ScoresAreAlike(scorer, scorer', breaker, configs[..|configs| - 1]);
    }
  }

  lemma AlikeChooseAlike(s: seq<Score>, s': seq<Score>, breaker: Gateway -> BreakerState, threshold: real)
    requires s != [] && AllAlike(s, s')
    ensures SameButLatency(Chosen(s, breaker, threshold), Chosen(s', breaker, threshold))
  {
    var t := BestIndex(s);
    AlikeBest(s, s');
    if |s| > 1 {
      assert AllAlike(Without(s, t), Without(s', t));
      AlikeBest(Without(s, t), Without(s', t));
    }
  }

  lemma AlikeBest(s: seq<Score>, s': seq<Score>)
    requires s != [] && AllAlike(s, s')
    ensures BestIndex(s') == BestIndex(s)
  {
    BestIndexIsBest(s, BestIndex(s));
    assert forall i :: 0 <= i < |s| ==> s'[i].compositeScore == s'[i].(p95LatencyMs := s[i].p95LatencyMs).compositeScore;
    assert IsBest(s', BestIndex(s));
    BestIndexIsBest(s', BestIndex(s));
  }

  // One currency unit for another, or a fee added to all: no score and no choice changes.
  lemma RepricingChangesNothing(config: RoutingConfig, configs: seq<GatewayConfig>, configs': seq<GatewayConfig>,
                                metrics: map<Gateway, Metrics>, breaker: Gateway -> BreakerState,
                                paymentMethod: PaymentMethod, currency: Currency, f: real -> real, a: real, b: real)
    requires IsAffine(f, a, b) && Repriced(configs, configs', f)
    ensures CallScores(config, configs', metrics, breaker, paymentMethod, currency)
         == CallScores(config, configs, metrics, breaker, paymentMethod, currency)
  {
    var enabled, enabled' := EligibleConfigs(configs, paymentMethod, currency), EligibleConfigs(configs', paymentMethod, currency);
    EligibleAreRepriced(configs, configs', f, paymentMethod, currency);
    if enabled != [] {
      AffineKeepsOrder(f, a, b);
      AffineKeepsPosition(f, a, b);
      var bounds, bounds' := BoundsOf(enabled, metrics), BoundsOf(enabled', metrics);
      var scorer, scorer' := ScorerOf(config, bounds, metrics, breaker), ScorerOf(config, bounds', metrics, breaker);
      forall i | 0 <= i < |enabled| ensures enabled'[i].gateway == enabled[i].gateway && scorer'(enabled'[i]) == scorer(enabled[i]) {
        RepricedScoreSame(config, enabled, enabled', metrics, breaker, f, i);
      }
      ScoresAreEqual(scorer, scorer', breaker, enabled, enabled');
    }
  }

  lemma RepricedScoreSame(config: RoutingConfig, configs: seq<GatewayConfig>, configs': seq<GatewayConfig>,
                          metrics: map<Gateway, Metrics>, breaker: Gateway -> BreakerState, f: real -> real, i: nat)
    requires i < |configs| && OrderPreserving(f) && KeepsPosition(f) && Repriced(configs, configs', f)
    ensures configs'[i].gateway == configs[i].gateway
    ensures ScorerOf(config, BoundsOf(configs', metrics), metrics, breaker)(configs'[i])
         == ScorerOf(config, BoundsOf(configs, metrics), metrics, breaker)(configs[i])
  {
    var c, c' := configs[i], configs'[i];
    assert RepricedOne(c, c', f);
    RepricedCostScoreSame(configs, configs', metrics, f, i);
    RepricedLatencyBounds(configs, configs', metrics, f);
    SameScore(config, BoundsOf(configs, metrics), BoundsOf(configs', metrics), metrics, breaker(c.gateway), c, c');
  }

  lemma SameScore(config: RoutingConfig, b: Bounds, b': Bounds, metrics: map<Gateway, Metrics>, state: BreakerState,
                  c: GatewayConfig, c': GatewayConfig)
    requires c'.gateway == c.gateway && CostScore(Cost(c'), b') == CostScore(Cost(c), b)
    requires b'.minLatency == b.minLatency && b'.maxLatency == b.maxLatency && b'.latencyRange == b.latencyRange
    ensures ScoreOf(config, b', metrics, state, c') == ScoreOf(config, b, metrics, state, c)
  {
    assert P95(c.gateway, metrics, b') == P95(c.gateway, metrics, b);
  }

  lemma RepricedLatencyBounds(configs: seq<GatewayConfig>, configs': seq<GatewayConfig>, metrics: map<Gateway, Metrics>, f: real -> real)
    requires configs != [] && Repriced(configs, configs', f)
    ensures var b, b' := BoundsOf(configs, metrics), BoundsOf(configs', metrics);
            b'.minLatency == b.minLatency && b'.maxLatency == b.maxLatency && b'.latencyRange == b.latencyRange
  {
    LatenciesIgnoreCosts(configs, configs', metrics, f);
  }

  lemma CostsAreMapped(configs: seq<GatewayConfig>, configs': seq<GatewayConfig>, f: real -> real)
    requires Repriced(configs, configs', f)
    ensures Mapped(Costs(configs), Costs(configs'), f)
  {
    forall k | 0 <= k < |configs| ensures Costs(configs')[k] == f(Costs(configs)[k]) {
      assert RepricedOne(configs[k], configs'[k], f);
    }
  }

  lemma RepricedCostScoreSame(configs: seq<GatewayConfig>, configs': seq<GatewayConfig>, metrics: map<Gateway, Metrics>,
                              f: real -> real, i: nat)
    requires i < |configs| && OrderPreserving(f) && KeepsPosition(f) && Repriced(configs, configs', f)
    ensures CostScore(Cost(configs'[i]), BoundsOf(configs', metrics)) == CostScore(Cost(configs[i]), BoundsOf(configs, metrics))
  {
    CostsAreMapped(configs, configs', f);
    PositionsAreMapped(Costs(configs), Costs(configs'), f, i);
    CostScoreIsNormalised(configs, metrics, i);
    CostScoreIsNormalised(configs', metrics, i);
  }

  lemma PositionsAreMapped(s: seq<real>, s': seq<real>, f: real -> real, i: nat)
    requires i < |s| && OrderPreserving(f) && KeepsPosition(f) && Mapped(s, s', f)
    ensures Normalised(s'[i], MinOf(s'), MaxOf(s')) == Normalised(s[i], MinOf(s), MaxOf(s))
  {
    var x, min, max := s[i], MinOf(s), MaxOf(s);
    BoundsAreMapped(s, s', f);
    assert x in s;
    assert Normalised(f(x), f(min), f(max)) == Normalised(x, min, max);
  }

  lemma CostScoreIsNormalised(configs: seq<GatewayConfig>, metrics: map<Gateway, Metrics>, i: nat)
    requires i < |configs|
    ensures CostScore(Cost(configs[i]), BoundsOf(configs, metrics))
         == 1.0 - Normalised(Costs(configs)[i], MinOf(Costs(configs)), MaxOf(Costs(configs)))
  {
  }

  lemma LatencyScoreIsNormalised(configs: seq<GatewayConfig>, metrics: map<Gateway, Metrics>, p95: real)
    requires configs != []
    ensures var b := BoundsOf(configs, metrics);
            LatencyScore(p95, b) == 1.0 - Normalised(p95, b.minLatency, b.maxLatency)
  {
  }

  lemma {:induction false} ScoresAreEqual(scorer: Scorer, scorer': Scorer, breaker: Gateway -> BreakerState,
                                          configs: seq<GatewayConfig>, configs': seq<GatewayConfig>)
    requires |configs'| == |configs|
    requires forall i :: 0 <= i < |configs| ==> configs'[i].gateway == configs[i].gateway && scorer'(configs'[i]) == scorer(configs[i])
    ensures ScoresBy(scorer', breaker, configs') == ScoresBy(scorer, breaker, configs)
    decreases |configs|
  {
    if configs != [] {
      ScoresAreEqual(scorer, scorer', breaker, configs[..|configs| - 1], configs'[..|configs| - 1]);
    }
  }

  // ---------------------------------------------------------------- rescaled latencies

  function Rescaled(metrics: map<Gateway, Metrics>, f: real -> real): (r: map<Gateway, Metrics>)
    ensures r.Keys == metrics.Keys
    ensures forall g :: g in metrics ==> r[g] == Metrics(metrics[g].successRate, f(metrics[g].p95LatencyMs))
  {
    map g | g in metrics :: Metrics(metrics[g].successRate, f(metrics[g].p95LatencyMs))
  }

  // Every listed gateway that has metrics has a positive latency.
  ghost predicate AllPositive(configs: seq<GatewayConfig>, metrics: map<Gateway, Metrics>) {
    forall c :: c in configs && c.gateway in metrics ==> metrics[c.gateway].p95LatencyMs > 0.0
  }

  lemma {:induction false} KnownLatenciesScale(configs: seq<GatewayConfig>, metrics: map<Gateway, Metrics>, f: real -> real)
    requires OrderPreserving(f) && f(0.0) == 0.0
    ensures Mapped(KnownLatencies(configs, metrics), KnownLatencies(configs, Rescaled(metrics, f)), f)
    decreases |configs|
  {
    if configs != [] {
      KnownLatenciesScale(configs[1..], metrics, f);
      var g := configs[0].gateway;
      if g in metrics { assert f(metrics[g].p95LatencyMs) <= f(0.0) <==> metrics[g].p95LatencyMs <= 0.0; }
    }
  }

  // What enters the bounds: exactly the positive latencies of listed gateways.
  lemma {:induction false} KnownLatenciesAre(configs: seq<GatewayConfig>, metrics: map<Gateway, Metrics>)
    ensures forall c :: c in configs && c.gateway in metrics && metrics[c.gateway].p95LatencyMs > 0.0 ==>
                          metrics[c.gateway].p95LatencyMs in KnownLatencies(configs, metrics)
    ensures forall x :: x in KnownLatencies(configs, metrics) ==> x > 0.0
    decreases |configs|
  {
    if configs != [] {
      KnownLatenciesAre(configs[1..], metrics);
      assert forall c :: c in configs <==> c == configs[0] || c in configs[1..];
    }
  }

  // A recorded 0 does no harm as long as two different positive latencies are listed, or none.
  predicate UnitFree(configs: seq<GatewayConfig>, metrics: map<Gateway, Metrics>, g: Gateway) {
    var known := KnownLatencies(configs, metrics);
    g in metrics && metrics[g].p95LatencyMs == 0.0 && known != [] ==> MinOf(known) < MaxOf(known)
  }

  // A change of the unit of time leaves a latency score as it is exactly for such gateways.
  lemma LatencyScoreScalesExactly(configs: seq<GatewayConfig>, metrics: map<Gateway, Metrics>, f: real -> real, k: real, c: GatewayConfig)
    requires IsAffine(f, k, 0.0) && k != 1.0
    requires c in configs && (c.gateway in metrics ==> metrics[c.gateway].p95LatencyMs >= 0.0)
    ensures var b, b' := BoundsOf(configs, metrics), BoundsOf(configs, Rescaled(metrics, f));
            LatencyScore(P95(c.gateway, Rescaled(metrics, f), b'), b') == LatencyScore(P95(c.gateway, metrics, b), b)
            <==> UnitFree(configs, metrics, c.gateway)
  {
    var b, b' := BoundsOf(configs, metrics), BoundsOf(configs, Rescaled(metrics, f));
    var p95, p95' := P95(c.gateway, metrics, b), P95(c.gateway, Rescaled(metrics, f), b');
    LatencyScoreIsNormalised(configs, metrics, p95);
    LatencyScoreIsNormalised(configs, Rescaled(metrics, f), p95');
    LatencyAmongBounds(configs, metrics, c);
    AffineKeepsOrder(f, k, 0.0);
    assert f(0.0) == 0.0;
    if KnownLatencies(configs, metrics) == [] {
      UnknownLatencyStays(configs, metrics, f, c);
    } else {
      LatencyBoundsScale(configs, metrics, f, c.gateway);
      PositionInUnits(f, k, p95, b.minLatency, b.maxLatency);
    }
  }

  lemma PositionInUnits(f: real -> real, k: real, x: real, min: real, max: real)
    requires IsAffine(f, k, 0.0) && k != 1.0 && min <= max && (min <= x <= max || x == 0.0 < min)
    ensures Normalised(f(x), f(min), f(max)) == Normalised(x, min, max) <==> (x == 0.0 < min ==> min < max)
  {
    if x == 0.0 < min == max {
      FlatPosition(f, k, min);
    } else {
      AffineKeepsPosition(f, k, 0.0);
    }
  }

  // No positive latency listed: the latencies present are 0, and 0 in every unit.
  lemma UnknownLatencyStays(configs: seq<GatewayConfig>, metrics: map<Gateway, Metrics>, f: real -> real, c: GatewayConfig)
    requires OrderPreserving(f) && f(0.0) == 0.0 && KnownLatencies(configs, metrics) == []
    requires c in configs && (c.gateway in metrics ==> metrics[c.gateway].p95LatencyMs >= 0.0)
    ensures var b, b' := BoundsOf(configs, metrics), BoundsOf(configs, Rescaled(metrics, f));
            && b'.minLatency == b.minLatency && b'.maxLatency == b.maxLatency
            && P95(c.gateway, Rescaled(metrics, f), b') == P95(c.gateway, metrics, b)
  {
    KnownLatenciesScale(configs, metrics, f);
    KnownLatenciesAre(configs, metrics);
  }

  lemma LatencyBoundsScale(configs: seq<GatewayConfig>, metrics: map<Gateway, Metrics>, f: real -> real, g: Gateway)
    requires OrderPreserving(f) && f(0.0) == 0.0 && KnownLatencies(configs, metrics) != []
    ensures configs != [] && MinOf(KnownLatencies(configs, metrics)) > 0.0
    ensures var b, b' := BoundsOf(configs, metrics), BoundsOf(configs, Rescaled(metrics, f));
            b'.minLatency == f(b.minLatency) && b'.maxLatency == f(b.maxLatency)
            && P95(g, Rescaled(metrics, f), b') == f(P95(g, metrics, b))
  {
    var known := KnownLatencies(configs, metrics);
    KnownLatenciesScale(configs, metrics, f);
    KnownLatenciesAre(configs, metrics);
    BoundsAreMapped(known, KnownLatencies(configs, Rescaled(metrics, f)), f);
    assert MinOf(known) in known;
  }

  // Between equal bounds the position of 0 is measured in the unit itself.
  lemma FlatPosition(f: real -> real, k: real, m: real)
    requires IsAffine(f, k, 0.0) && k != 1.0 && m > 0.0
    ensures f(0.0) == 0.0 && Normalised(f(0.0), f(m), f(m)) != Normalised(0.0, m, m)
  {
    assert f(m) - m == (k - 1.0) * m;
  }

  // Another unit of time: no score and no choice changes, provided every gateway scored is
  // unit-free; in particular when every recorded latency is positive.
  lemma TimeUnitChangesNothing(config: RoutingConfig, configs: seq<GatewayConfig>, metrics: map<Gateway, Metrics>,
                               breaker: Gateway -> BreakerState, paymentMethod: PaymentMethod, currency: Currency,
                               f: real -> real, k: real)
    requires IsAffine(f, k, 0.0) && forall g :: g in metrics ==> metrics[g].p95LatencyMs >= 0.0
    requires var enabled := EligibleConfigs(configs, paymentMethod, currency);
             forall c :: c in enabled && breaker(c.gateway) != Open ==> UnitFree(enabled, metrics, c.gateway)
    ensures var scores := CallScores(config, configs, metrics, breaker, paymentMethod, currency);
            var scores' := CallScores(config, configs, Rescaled(metrics, f), breaker, paymentMethod, currency);
            && AllAlike(scores, scores')
            && (scores != [] ==> SameButLatency(Chosen(scores, breaker, config.degradedSkipThreshold),
                                                Chosen(scores', breaker, config.degradedSkipThreshold)))
  {
    var enabled := EligibleConfigs(configs, paymentMethod, currency);
    if enabled != [] {
      var metrics' := Rescaled(metrics, f);
      if k == 1.0 {
        assert metrics' == metrics;
      }
      var b, b' := BoundsOf(enabled, metrics), BoundsOf(enabled, metrics');
      var scorer, scorer' := ScorerOf(config, b, metrics, breaker), ScorerOf(config, b', metrics', breaker);
      forall c | c in enabled && breaker(c.gateway) != Open ensures SameButLatency(scorer(c), scorer'(c)) {
        RescaledScoreAlike(config, enabled, metrics, breaker(c.gateway), f, k, c);
      }
      ScoresAreAlike(scorer, scorer', breaker, enabled);
      var scores, scores' := ScoresBy(scorer, breaker, enabled), ScoresBy(scorer', breaker, enabled);
      if scores != [] {
        AlikeChooseAlike(scores, scores', breaker, config.degradedSkipThreshold);
      }
    }
  }

  lemma RescaledScoreAlike(config: RoutingConfig, configs: seq<GatewayConfig>, metrics: map<Gateway, Metrics>, state: BreakerState,
                           f: real -> real, k: real, c: GatewayConfig)
    requires IsAffine(f, k, 0.0) && c in configs && UnitFree(configs, metrics, c.gateway)
    requires c.gateway in metrics ==> metrics[c.gateway].p95LatencyMs >= 0.0
    ensures SameButLatency(ScoreOf(config, BoundsOf(configs, metrics), metrics, state, c),
                           ScoreOf(config, BoundsOf(configs, Rescaled(metrics, f)), Rescaled(metrics, f), state, c))
  {
    if k == 1.0 {
      assert Rescaled(metrics, f) == metrics;
    } else {
      LatencyScoreScalesExactly(configs, metrics, f, k, c);
      SameScoreButLatency(config, BoundsOf(configs, metrics), BoundsOf(configs, Rescaled(metrics, f)), metrics, Rescaled(metrics, f), state, c);
    }
  }

  lemma SameScoreButLatency(config: RoutingConfig, b: Bounds, b': Bounds, metrics: map<Gateway, Metrics>, metrics': map<Gateway, Metrics>,
                            state: BreakerState, c: GatewayConfig)
    requires b'.minCost == b.minCost && b'.costRange == b.costRange
    requires SuccessRate(c.gateway, metrics') == SuccessRate(c.gateway, metrics)
    requires LatencyScore(P95(c.gateway, metrics', b'), b') == LatencyScore(P95(c.gateway, metrics, b), b)
    ensures SameButLatency(ScoreOf(config, b, metrics, state, c), ScoreOf(config, b', metrics', state, c))
  {
    assert CostScore(Cost(c), b') == CostScore(Cost(c), b);
  }

  // ---------------------------------------------------------------- what scores are made of

  // The columns of a score in terms of the gateway's own columns, its metrics and its breaker.
  lemma ScoreColumns(config: RoutingConfig, b: Bounds, metrics: map<Gateway, Metrics>, state: BreakerState, c: GatewayConfig)
    ensures var s := ScoreOf(config, b, metrics, state, c);
            && s.gateway == c.gateway && s.success == s.successRate && s.fit == 1.0
            && s.successRate == (if c.gateway in metrics then metrics[c.gateway].successRate else 0.95)
            && s.p95LatencyMs == (if c.gateway in metrics then metrics[c.gateway].p95LatencyMs else b.maxLatency)
            && s.latency == 1.0 - (s.p95LatencyMs - b.minLatency) / b.latencyRange
            && s.cost == 1.0 - (c.costPercentage + c.costFixedPaise as real / 100_000.0 - b.minCost) / b.costRange
            && s.health == (match state case Closed => 1.0 case HalfOpen => 0.5 case Open => 0.0)
            && s.compositeScore == config.weightSuccessRate * s.success + config.weightLatency * s.latency + config.weightCost * s.cost
                                   + config.weightHealth * s.health + config.weightFit * s.fit
  {
  }

  // The bounds are those of the listed prices and of the positive latencies of listed gateways.
  lemma PriceBounds(configs: seq<GatewayConfig>, metrics: map<Gateway, Metrics>) returns (cheapest: nat, dearest: nat)
    requires configs != []
    ensures cheapest < |configs| && dearest < |configs|
    ensures var b := BoundsOf(configs, metrics);
            var low := configs[cheapest].costPercentage + configs[cheapest].costFixedPaise as real / 100_000.0;
            var high := configs[dearest].costPercentage + configs[dearest].costFixedPaise as real / 100_000.0;
            && b.minCost == low && b.costRange == (if low == high then 1.0 else high - low)
            && forall i :: 0 <= i < |configs| ==> low <= configs[i].costPercentage + configs[i].costFixedPaise as real / 100_000.0 <= high
  {
    cheapest, dearest := Extremes(Costs(configs));
    forall i | 0 <= i < |configs|
      ensures Costs(configs)[i] == configs[i].costPercentage + configs[i].costFixedPaise as real / 100_000.0
    {
    }
  }

  lemma LatencyBounds(configs: seq<GatewayConfig>, metrics: map<Gateway, Metrics>, c: GatewayConfig)
    requires c in configs
    ensures var b := BoundsOf(configs, metrics);
            && b.latencyRange == (if b.minLatency == b.maxLatency then 1.0 else b.maxLatency - b.minLatency)
            && (c.gateway in metrics && metrics[c.gateway].p95LatencyMs > 0.0 ==> b.minLatency <= metrics[c.gateway].p95LatencyMs <= b.maxLatency)
            && (KnownLatencies(configs, metrics) == [] ==> b.minLatency == 0.0 && b.maxLatency == 1.0)
            && (KnownLatencies(configs, metrics) != [] ==>
                  && (exists d :: d in configs && d.gateway in metrics && metrics[d.gateway].p95LatencyMs == b.minLatency > 0.0)
                  && (exists d :: d in configs && d.gateway in metrics && metrics[d.gateway].p95LatencyMs == b.maxLatency))
  {
    var known := KnownLatencies(configs, metrics);
    KnownLatenciesAre(configs, metrics);
    KnownLatenciesListed(configs, metrics);
    if known != [] {
      assert MinOf(known) in known && MaxOf(known) in known;
    }
  }

  ghost predicate IsListedLatency(configs: seq<GatewayConfig>, metrics: map<Gateway, Metrics>, x: real) {
    exists d :: d in configs && d.gateway in metrics && metrics[d.gateway].p95LatencyMs == x
  }

  lemma {:induction false} KnownLatenciesListed(configs: seq<GatewayConfig>, metrics: map<Gateway, Metrics>)
    ensures forall x :: x in KnownLatencies(configs, metrics) ==> IsListedLatency(configs, metrics, x)
    decreases |configs|
  {
    if configs != [] {
      KnownLatenciesListed(configs[1..], metrics);
      forall x | x in KnownLatencies(configs, metrics) ensures IsListedLatency(configs, metrics, x) {
        if x in KnownLatencies(configs[1..], metrics) {
          var d :| d in configs[1..] && d.gateway in metrics && metrics[d.gateway].p95LatencyMs == x;
          assert d in configs;
        } else {
          assert configs[0] in configs;
        }
      }
    }
  }

  // With everything else equal the price alone decides between two scores, and the price is what
  // the two columns say: 100000 paise of fixed fee weigh as much as one unit of percentage.
  lemma CheaperScoresHigher(config: RoutingConfig, b: Bounds, metrics: map<Gateway, Metrics>, state: BreakerState, c: GatewayConfig, d: GatewayConfig)
    requires config.weightCost > 0.0 && b.costRange > 0.0
    requires SuccessRate(c.gateway, metrics) == SuccessRate(d.gateway, metrics) && P95(c.gateway, metrics, b) == P95(d.gateway, metrics, b)
    ensures var s, t := ScoreOf(config, b, metrics, state, c), ScoreOf(config, b, metrics, state, d);
            && (s.compositeScore > t.compositeScore <==>
                  c.costPercentage + c.costFixedPaise as real / 100_000.0 < d.costPercentage + d.costFixedPaise as real / 100_000.0)
            && (c.costPercentage == d.costPercentage ==> (s.compositeScore > t.compositeScore <==> c.costFixedPaise < d.costFixedPaise))
            && (c.costFixedPaise == d.costFixedPaise ==> (s.compositeScore > t.compositeScore <==> c.costPercentage < d.costPercentage))
  {
    var latency := LatencyScore(P95(c.gateway, metrics, b), b);
    CostScoreFalls(Cost(c), Cost(d), b);
    WeightedMore(config, SuccessRate(c.gateway, metrics), latency, CostScore(Cost(c), b), CostScore(Cost(d), b), HealthScore(state));
  }

  lemma CostScoreFalls(x: real, y: real, b: Bounds)
    requires b.costRange > 0.0
    ensures CostScore(x, b) > CostScore(y, b) <==> x < y
  {
    var p, q := (x - b.minCost) / b.costRange, (y - b.minCost) / b.costRange;
    assert p * b.costRange == x - b.minCost && q * b.costRange == y - b.minCost;
    if p < q { assert (q - p) * b.costRange > 0.0; }
    if p > q { assert (p - q) * b.costRange > 0.0; }
  }

  lemma WeightedMore(config: RoutingConfig, success: real, latency: real, more: real, less: real, health: real)
    requires config.weightCost > 0.0
    ensures Composite(config, success, latency, more, health, 1.0) > Composite(config, success, latency, less, health, 1.0) <==> more > less
  {
    if more > less { assert config.weightCost * (more - less) > 0.0; }
    if more < less { assert config.weightCost * (less - more) > 0.0; }
  }

  // All scored gateways alike but for their price, and every circuit closed: the choice is a
  // cheapest one.
  lemma CheapestIsChosen(config: RoutingConfig, configs: seq<GatewayConfig>, metrics: map<Gateway, Metrics>,
                         breaker: Gateway -> BreakerState, paymentMethod: PaymentMethod, currency: Currency)
      returns (chosen: GatewayConfig)
    requires config.weightCost > 0.0 && (forall g :: breaker(g) == Closed)
    requires forall c, d :: c in configs && d in configs ==> (c.gateway in metrics <==> d.gateway in metrics)
                                                              && (c.gateway in metrics ==> metrics[c.gateway] == metrics[d.gateway])
    requires CallScores(config, configs, metrics, breaker, paymentMethod, currency) != []
    ensures chosen in EligibleConfigs(configs, paymentMethod, currency)
    ensures Chosen(CallScores(config, configs, metrics, breaker, paymentMethod, currency), breaker, config.degradedSkipThreshold).gateway
         == chosen.gateway
    ensures forall c :: c in EligibleConfigs(configs, paymentMethod, currency) ==>
                          chosen.costPercentage + chosen.costFixedPaise as real / 100_000.0 <= c.costPercentage + c.costFixedPaise as real / 100_000.0
  {
    var enabled := EligibleConfigs(configs, paymentMethod, currency);
    var b := BoundsOf(enabled, metrics);
    var scorer := ScorerOf(config, b, metrics, breaker);
    ScorerNamesGateway(config, b, metrics, breaker);
    chosen := ClosedWinner(scorer, breaker, config.degradedSkipThreshold, enabled);
    var cheapest, dearest := PriceBounds(enabled, metrics);
    forall c | c in enabled
      ensures chosen.costPercentage + chosen.costFixedPaise as real / 100_000.0 <= c.costPercentage + c.costFixedPaise as real / 100_000.0
    {
      assert scorer(c).compositeScore <= scorer(chosen).compositeScore;
      CheaperScoresHigher(config, b, metrics, Closed, c, chosen);
    }
  }

  // With every circuit closed the choice has the highest score.
  lemma ClosedWinner(scorer: Scorer, breaker: Gateway -> BreakerState, threshold: real, configs: seq<GatewayConfig>) returns (w: GatewayConfig)
    requires (forall g :: breaker(g) == Closed) && (forall c :: scorer(c).gateway == c.gateway)
    requires ScoresBy(scorer, breaker, configs) != []
    ensures w in configs && Chosen(ScoresBy(scorer, breaker, configs), breaker, threshold) == scorer(w)
    ensures forall c :: c in configs ==> scorer(c).compositeScore <= scorer(w).compositeScore
  {
    WinnerIsUnbeaten(scorer, breaker, threshold, configs);
    w :| w in configs && breaker(w.gateway) != Open && Chosen(ScoresBy(scorer, breaker, configs), breaker, threshold) == scorer(w);
  }

  // One breaker step is worth half the health weight.
  lemma HealthScoresHigher(config: RoutingConfig, b: Bounds, metrics: map<Gateway, Metrics>, c: GatewayConfig)
    ensures var closed := ScoreOf(config, b, metrics, Closed, c).compositeScore;
            var halfOpen := ScoreOf(config, b, metrics, HalfOpen, c).compositeScore;
            closed - halfOpen == config.weightHealth * 0.5
  {
  }

  // ---------------------------------------------------------------- scores in range

  predicate Share(x: real) { 0.0 <= x <= 1.0 }

  // The constraint on routing_config.
  predicate Weighted(config: RoutingConfig) {
    && config.weightSuccessRate >= 0.0 && config.weightLatency >= 0.0 && config.weightCost >= 0.0
    && config.weightHealth >= 0.0 && config.weightFit >= 0.0
    && config.weightSuccessRate + config.weightLatency + config.weightCost + config.weightHealth + config.weightFit == 1.0
  }

  lemma ShareOfWeight(w: real, x: real) returns (part: real)
    requires w >= 0.0 && Share(x)
    ensures part == w * x && 0.0 <= part <= w
  {
    part := w * x;
    assert w * (1.0 - x) >= 0.0;
  }

  lemma CompositeIsShare(config: RoutingConfig, success: real, latency: real, cost: real, health: real, fit: real)
    requires Weighted(config) && Share(success) && Share(latency) && Share(cost) && Share(health) && Share(fit)
    ensures Share(Composite(config, success, latency, cost, health, fit))
  {
    var a := ShareOfWeight(config.weightSuccessRate, success);
    var b := ShareOfWeight(config.weightLatency, latency);
    var c := ShareOfWeight(config.weightCost, cost);
    var d := ShareOfWeight(config.weightHealth, health);
    var e := ShareOfWeight(config.weightFit, fit);
    CompositeIsSum(config, success, latency, cost, health, fit, a, b, c, d, e);
    SumBelow(config, a, b, c, d, e);
  }

  lemma CompositeIsSum(config: RoutingConfig, success: real, latency: real, cost: real, health: real, fit: real,
                       a: real, b: real, c: real, d: real, e: real)
    requires a == config.weightSuccessRate * success && b == config.weightLatency * latency && c == config.weightCost * cost
    requires d == config.weightHealth * health && e == config.weightFit * fit
    ensures Composite(config, success, latency, cost, health, fit) == a + b + c + d + e
  {
  }

  lemma SumBelow(config: RoutingConfig, a: real, b: real, c: real, d: real, e: real)
    requires Weighted(config)
    requires 0.0 <= a <= config.weightSuccessRate && 0.0 <= b <= config.weightLatency && 0.0 <= c <= config.weightCost
    requires 0.0 <= d <= config.weightHealth && 0.0 <= e <= config.weightFit
    ensures Share(a + b + c + d + e)
  {
  }

  lemma CostScoreIsShare(configs: seq<GatewayConfig>, metrics: map<Gateway, Metrics>, i: nat)
    requires i < |configs|
    ensures Share(CostScore(Cost(configs[i]), BoundsOf(configs, metrics)))
  {
    var costs := Costs(configs);
    assert costs[i] in costs;
    NormalisedWithin(costs[i], MinOf(costs), MaxOf(costs));
  }

  // A latency score leaves [0, 1] exactly when the gateway's recorded latency is 0 while some
  // listed gateway has a positive one.
  lemma LatencyScoreInRangeExactly(configs: seq<GatewayConfig>, metrics: map<Gateway, Metrics>, c: GatewayConfig)
    requires c in configs && (c.gateway in metrics ==> metrics[c.gateway].p95LatencyMs >= 0.0)
    ensures var b := BoundsOf(configs, metrics);
            Share(LatencyScore(P95(c.gateway, metrics, b), b)) <==>
            c.gateway !in metrics || metrics[c.gateway].p95LatencyMs > 0.0 || KnownLatencies(configs, metrics) == []
  {
    var b := BoundsOf(configs, metrics);
    var p95 := P95(c.gateway, metrics, b);
    LatencyAmongBounds(configs, metrics, c);
    LatencyScoreIsNormalised(configs, metrics, p95);
    NormalisedWithin(p95, b.minLatency, b.maxLatency);
  }

  lemma LatencyAmongBounds(configs: seq<GatewayConfig>, metrics: map<Gateway, Metrics>, c: GatewayConfig)
    requires c in configs && (c.gateway in metrics ==> metrics[c.gateway].p95LatencyMs >= 0.0)
    ensures var b := BoundsOf(configs, metrics);
            var p95 := P95(c.gateway, metrics, b);
            && b.minLatency <= b.maxLatency
            && (if c.gateway !in metrics || metrics[c.gateway].p95LatencyMs > 0.0 || KnownLatencies(configs, metrics) == []
                then b.minLatency <= p95 <= b.maxLatency
                else p95 < b.minLatency)
  {
    KnownLatenciesAre(configs, metrics);
    var known := KnownLatencies(configs, metrics);
    if known != [] {
      assert MinOf(known) in known && MaxOf(known) in known;
    }
  }

  // ---------------------------------------------------------------- samples to scores

  // The metrics map of one call, over the rows the flushes wrote.
  function WindowMetrics(table: seq<Health.MetricsRow>, since: int, gateways: set<Gateway>): map<Gateway, Metrics> {
    map g | g in gateways && Health.SlidingWindow(table, since, g).Some? ::
      Metrics(Health.SlidingWindow(table, since, g).value.successRate, Health.SlidingWindow(table, since, g).value.p95LatencyMs as real)
  }

  // No listed gateway has only zero percentiles in the window.
  ghost predicate WindowPositive(table: seq<Health.MetricsRow>, since: int, configs: seq<GatewayConfig>) {
    forall c :: c in configs && Health.InWindow(table, since, c.gateway) != [] ==>
                  exists i :: 0 <= i < |Health.InWindow(table, since, c.gateway)|
                              && Health.InWindow(table, since, c.gateway)[i].p95LatencyMs > 0
  }

  lemma WindowMetricsInRange(table: seq<Health.MetricsRow>, since: int, gateways: set<Gateway>, configs: seq<GatewayConfig>)
    requires Health.Sound(table) && WindowPositive(table, since, configs)
    ensures var metrics := WindowMetrics(table, since, gateways);
            AllPositive(configs, metrics) && forall g :: g in metrics ==> Share(metrics[g].successRate)
  {
    var metrics := WindowMetrics(table, since, gateways);
    forall g | g in metrics ensures Share(metrics[g].successRate) {
      Health.WindowRateInRange(table, since, g);
    }
    forall c | c in configs && c.gateway in metrics ensures metrics[c.gateway].p95LatencyMs > 0.0 {
      Health.WindowRateInRange(table, since, c.gateway);
    }
  }

  lemma ScoreIsShare(config: RoutingConfig, configs: seq<GatewayConfig>, metrics: map<Gateway, Metrics>, state: BreakerState, i: nat)
    requires Weighted(config) && i < |configs| && AllPositive(configs, metrics)
    requires forall g :: g in metrics ==> Share(metrics[g].successRate)
    ensures Share(ScoreOf(config, BoundsOf(configs, metrics), metrics, state, configs[i]).compositeScore)
  {
    var c, b := configs[i], BoundsOf(configs, metrics);
    CostScoreIsShare(configs, metrics, i);
    LatencyScoreInRangeExactly(configs, metrics, c);
    CompositeIsShare(config, SuccessRate(c.gateway, metrics), LatencyScore(P95(c.gateway, metrics, b), b), CostScore(Cost(c), b),
                     HealthScore(state), 1.0);
  }

  // From samples to scores: over rows written by flushes, with weights that obey the constraint
  // and no gateway whose every percentile in the window is 0, every composite score is in [0, 1].
  lemma EveryCompositeInRange(config: RoutingConfig, configs: seq<GatewayConfig>, table: seq<Health.MetricsRow>, since: int,
                              gateways: set<Gateway>, breaker: Gateway -> BreakerState, paymentMethod: PaymentMethod, currency: Currency)
    requires Weighted(config) && Health.Sound(table)
    requires WindowPositive(table, since, EligibleConfigs(configs, paymentMethod, currency))
    ensures var scores := CallScores(config, configs, WindowMetrics(table, since, gateways), breaker, paymentMethod, currency);
            forall i :: 0 <= i < |scores| ==> Share(scores[i].compositeScore)
  {
    var metrics, enabled := WindowMetrics(table, since, gateways), EligibleConfigs(configs, paymentMethod, currency);
    WindowMetricsInRange(table, since, gateways, enabled);
    if enabled != [] {
      var scorer := ScorerOf(config, BoundsOf(enabled, metrics), metrics, breaker);
      forall i | 0 <= i < |enabled| ensures Share(scorer(enabled[i]).compositeScore) {
        ScoreIsShare(config, enabled, metrics, breaker(enabled[i].gateway), i);
      }
      ScoresAreShares(scorer, breaker, enabled);
    }
  }

  lemma {:induction false} ScoresAreShares(scorer: Scorer, breaker: Gateway -> BreakerState, configs: seq<GatewayConfig>)
    requires forall i :: 0 <= i < |configs| ==> Share(scorer(configs[i]).compositeScore)
    ensures forall i :: 0 <= i < |ScoresBy(scorer, breaker, configs)| ==> Share(ScoresBy(scorer, breaker, configs)[i].compositeScore)
    decreases |configs|
  {
    if configs != [] {
      ScoresAreShares(scorer, breaker, configs[..|configs| - 1]);
    }
  }
}
