/** Quarter-Kelly sizing clipped by a list of constraints.  Decimals are exact reals; rounding to cents
    is half-to-even, as the decimal type rounds. */
module Sizing {
  import opened MachineInts
  import opened RealOrder

  // ── Rounding ───────────────────────────────────────────────────────────────

  function RoundEven(x: real): int {
    var f := x.Floor;
    var d := x - f as real;
    if d < 0.5 then f else if d > 0.5 then f + 1 else if f % 2 == 0 then f else f + 1
  }

  function Round2(x: real): real { RoundEven(x * 100.0) as real / 100.0 }

  lemma RoundEvenNear(x: real)
    ensures -0.5 <= RoundEven(x) as real - x <= 0.5
  {
  }

  lemma RoundEvenMonotone(x: real, y: real)
    requires x <= y
    ensures RoundEven(x) <= RoundEven(y)
  {
    RoundEvenNear(x);
    RoundEvenNear(y);
    assert x.Floor <= y.Floor;
  }

  /** Rounding keeps order, moves a value by at most half a cent, and leaves whole cents alone. */
  lemma Round2Laws(x: real, y: real, cents: int)
    ensures x <= y ==> Round2(x) <= Round2(y)
    ensures -0.005 <= Round2(x) - x <= 0.005
    ensures Round2(cents as real / 100.0) == cents as real / 100.0
    ensures x >= 0.0 ==> Round2(x) >= 0.0
  {
    if x <= y { RoundEvenMonotone(x * 100.0, y * 100.0); }
    RoundEvenNear(x * 100.0);
    if x >= 0.0 { RoundEvenMonotone(0.0, x * 100.0); }
  }

  /** The digits of `x` beyond whole cents are less than half a cent, or exactly half over an even cent. */
  predicate RoundsDown(x: real) {
    var c := x * 100.0;
    var d := c - c.Floor as real;
    d < 0.5 || (d == 0.5 && c.Floor % 2 == 0)
  }

  lemma RoundsDownIff(x: real)
    ensures Round2(x) <= x <==> RoundsDown(x)
  {
    RoundEvenNear(x * 100.0);
  }

  // ── Kelly ──────────────────────────────────────────────────────────────────

  datatype KellyParams = KellyParams(
    fraction: real,
    minEdgeBps: real,
    maxFraction: real,
    minConfidence: real,
    minSamples: u32,
    maxStalenessSecs: u64)

  /** What configuration validation admits. */
  predicate ValidParams(k: KellyParams) {
    0.0 < k.fraction <= 1.0 && 0.0 < k.maxFraction <= 1.0 && k.maxStalenessSecs >= 1
  }

  datatype Probability = Probability(
    win: real,
    fill: real,
    confidence: real,
    samples: u32,
    stalenessSecs: u64,
    slippage: real,
    failureCost: real)

  /** Win probability, fill probability and confidence are fractions of one. */
  predicate ValidProbability(p: Probability) {
    0.0 <= p.win <= 1.0 && 0.0 <= p.fill <= 1.0 && 0.0 <= p.confidence <= 1.0
  }

  datatype Binding =
    | InvalidInput
    | LowConfidence
    | InsufficientSamples
    | StaleModel
    | NegativeOddsAfterCosts
    | BelowMinEdge
    | Kelly

  datatype KellyResult = KellyResult(
    bet: real,
    raw: real,
    fractional: real,
    edgeBps: real,
    effectiveWin: real,
    netOdds: real,
    binding: Binding)

  function Freshness(k: KellyParams, p: Probability): real
    requires k.maxStalenessSecs >= 1
  {
    MaxR(1.0 - (p.stalenessSecs as real) / (k.maxStalenessSecs as real), 0.0)
  }

  function EffectiveWin(k: KellyParams, p: Probability): real
    requires k.maxStalenessSecs >= 1
  {
    p.win * p.fill * p.confidence * Freshness(k, p)
  }

  function NetOdds(p: Probability, price: real): real
    requires price != 0.0
  {
    (1.0 - price) / price - p.slippage - p.failureCost
  }

  function RawKelly(w: real, odds: real): real
    requires odds > 0.0
  {
    MaxR((w * odds - (1.0 - w)) / odds, 0.0)
  }

  function Fractional(k: KellyParams, raw: real): real { MinR(raw * k.fraction, k.maxFraction) }

  function Stake(bankroll: real, fractional: real): real { Round2(bankroll * fractional) }

  function EdgeBps(w: real, price: real): real
    requires price != 0.0
  {
    (w - price) / price * 10000.0
  }

  function Staked(k: KellyParams, w: real, odds: real, price: real, bankroll: real): KellyResult
    requires odds > 0.0 && price != 0.0
  {
    var raw := RawKelly(w, odds);
    KellyResult(Stake(bankroll, Fractional(k, raw)), raw, Fractional(k, raw), EdgeBps(w, price), w, odds, Kelly)
  }

  function Calculate(k: KellyParams, p: Probability, price: real, bankroll: real): KellyResult
    requires ValidParams(k)
  {
    var zero := KellyResult(0.0, 0.0, 0.0, 0.0, 0.0, 0.0, InvalidInput);
    if price <= 0.0 || price >= 1.0 || bankroll <= 0.0 then zero
    else if p.confidence < k.minConfidence then zero.(binding := LowConfidence)
    else if p.samples < k.minSamples then zero.(binding := InsufficientSamples)
    else if p.stalenessSecs > k.maxStalenessSecs then zero.(binding := StaleModel)
    else
      var w, odds := EffectiveWin(k, p), NetOdds(p, price);
      if odds <= 0.0 then zero.(effectiveWin := w, netOdds := odds, binding := NegativeOddsAfterCosts)
      else
        var edge := EdgeBps(w, price);
        if edge < k.minEdgeBps then zero.(edgeBps := edge, effectiveWin := w, netOdds := odds, binding := BelowMinEdge)
        else
          Staked(k, w, odds, price, bankroll)
  }

  // ── Small facts about real arithmetic ──────────────────────────────────────

  lemma ProductFraction(a: real, x: real)
    requires 0.0 <= a <= 1.0 && 0.0 <= x <= 1.0
    ensures 0.0 <= a * x <= 1.0
  {
    ProductMonotone(a, 1.0, x, 1.0);
  }

  lemma QuotientUnique(n: real, d: real, q: real)
    requires d > 0.0 && q * d == n
    ensures n / d == q
  {
  }

  lemma FreshnessMonotone(k: KellyParams, p: Probability, q: Probability)
    requires k.maxStalenessSecs >= 1 && p.stalenessSecs >= q.stalenessSecs
    ensures 0.0 <= Freshness(k, p) <= Freshness(k, q) <= 1.0
  {
    QuotientMonotone(q.stalenessSecs as real, p.stalenessSecs as real, k.maxStalenessSecs as real, k.maxStalenessSecs as real);
  }

  /** `q` is at least as favourable as `p` in every respect. */
  predicate NoWorse(p: Probability, q: Probability) {
    && p.win <= q.win && p.fill <= q.fill && p.confidence <= q.confidence && p.samples <= q.samples
    && p.stalenessSecs >= q.stalenessSecs && p.slippage >= q.slippage && p.failureCost >= q.failureCost
  }

  lemma EffectiveWinMonotone(k: KellyParams, p: Probability, q: Probability)
    requires k.maxStalenessSecs >= 1 && ValidProbability(p) && ValidProbability(q) && NoWorse(p, q)
    ensures 0.0 <= EffectiveWin(k, p) <= EffectiveWin(k, q) <= 1.0
  {
    FreshnessMonotone(k, p, q);
    ProductMonotone(p.win, q.win, p.fill, q.fill);
    ProductMonotone(p.win * p.fill, q.win * q.fill, p.confidence, q.confidence);
    ProductMonotone(p.win * p.fill * p.confidence, q.win * q.fill * q.confidence, Freshness(k, p), Freshness(k, q));
    ProductOfFractions(q.win, q.fill, q.confidence, Freshness(k, q));
  }

  lemma ProductOfFractions(w: real, x: real, y: real, z: real)
    requires 0.0 <= w <= 1.0 && 0.0 <= x <= 1.0 && 0.0 <= y <= 1.0 && 0.0 <= z <= 1.0
    ensures 0.0 <= w * x * y * z <= 1.0
  {
    ProductFraction(w, x);
    ProductFraction(w * x, y);
    ProductFraction(w * x * y, z);
  }

  lemma OddsMonotone(p: Probability, x: real, q: Probability, y: real)
    requires NoWorse(p, q) && 0.0 < y <= x < 1.0
    ensures NetOdds(p, x) <= NetOdds(q, y)
  {
    QuotientMonotone(1.0 - x, 1.0 - y, x, y);
  }

  lemma EdgeMonotone(w: real, x: real, v: real, y: real)
    requires 0.0 <= w <= v && 0.0 < y <= x
    ensures (w - x) / x * 10000.0 <= (v - y) / y * 10000.0
  {
    QuotientMonotone(w, v, x, y);
    EdgeSplit(w, x);
    EdgeSplit(v, y);
  }

  lemma EdgeSplit(w: real, x: real)
    requires x > 0.0
    ensures (w - x) / x == w / x - 1.0
  {
    QuotientUnique(w - x, x, w / x - 1.0);
  }

  lemma KellyFractionMonotone(w: real, o: real, v: real, u: real)
    requires 0.0 <= w <= v <= 1.0 && 0.0 < o <= u
    ensures 0.0 <= RawKelly(w, o) <= RawKelly(v, u)
  {
    QuotientMonotone(1.0 - v, 1.0 - w, u, o);
    SplitFraction(w, o);
    SplitFraction(v, u);
    MaxOrder((w * o - (1.0 - w)) / o, (v * u - (1.0 - v)) / u);
  }

  lemma MaxOrder(x: real, y: real)
    requires x <= y
    ensures 0.0 <= MaxR(x, 0.0) <= MaxR(y, 0.0)
  {
  }

  lemma SplitFraction(w: real, o: real)
    requires o > 0.0
    ensures (w * o - (1.0 - w)) / o == w - (1.0 - w) / o
  {
    QuotientUnique(w * o - (1.0 - w), o, w - (1.0 - w) / o);
  }

  // ── Kelly laws ─────────────────────────────────────────────────────────────

  lemma MinOrder(x: real, y: real, c: real)
    requires x <= y
    ensures MinR(x, c) <= MinR(y, c) <= c
    ensures 0.0 <= x && 0.0 <= c ==> 0.0 <= MinR(x, c)
  {
  }

  lemma FractionalBounds(k: KellyParams, raw: real, more: real)
    requires ValidParams(k) && 0.0 <= raw <= more
    ensures 0.0 <= Fractional(k, raw) <= Fractional(k, more) <= 1.0
  {
    ProductMonotone(raw, more, k.fraction, k.fraction);
    MinOrder(raw * k.fraction, more * k.fraction, k.maxFraction);
  }

  lemma RoundedWithin(x: real, bankroll: real, cents: int)
    requires 0.0 <= x <= bankroll
    ensures 0.0 <= Round2(x) <= bankroll + 0.005
    ensures bankroll == cents as real / 100.0 ==> Round2(x) <= bankroll
  {
    Round2Laws(x, bankroll, cents);
  }

  lemma StakeBounds(bankroll: real, f: real, cents: int)
    requires bankroll > 0.0 && 0.0 <= f <= 1.0
    ensures 0.0 <= Stake(bankroll, f) <= bankroll + 0.005
    ensures bankroll == cents as real / 100.0 ==> Stake(bankroll, f) <= bankroll
  {
    ProductMonotone(bankroll, bankroll, f, 1.0);
    RoundedWithin(bankroll * f, bankroll, cents);
  }

  lemma Round2Monotone(x: real, y: real)
    requires x <= y
    ensures Round2(x) <= Round2(y)
  {
    Round2Laws(x, y, 0);
  }

  lemma StakeMonotone(bankroll: real, f: real, g: real)
    requires bankroll > 0.0 && 0.0 <= f <= g
    ensures Stake(bankroll, f) <= Stake(bankroll, g)
  {
    ProductMonotone(bankroll, bankroll, f, g);
    Round2Monotone(bankroll * f, bankroll * g);
  }

  /** The bet is never negative and exceeds the bankroll by at most half a cent, and not at all when the
      bankroll is in whole cents. */
  lemma KellyBetBounds(k: KellyParams, p: Probability, price: real, bankroll: real, cents: int)
    requires ValidParams(k)
    ensures Calculate(k, p, price, bankroll).bet >= 0.0
    ensures bankroll > 0.0 ==> Calculate(k, p, price, bankroll).bet <= bankroll + 0.005
    ensures bankroll > 0.0 && bankroll == cents as real / 100.0 ==> Calculate(k, p, price, bankroll).bet <= bankroll
    ensures Calculate(k, p, price, bankroll).bet > 0.0 ==> Calculate(k, p, price, bankroll).binding == Kelly
  {
    var r := Calculate(k, p, price, bankroll);
    if r.binding == Kelly {
      FractionalBounds(k, r.raw, r.raw);
      StakeBounds(bankroll, r.fractional, cents);
    }
  }

  lemma KellyPassesGates(k: KellyParams, p: Probability, x: real, q: Probability, y: real, bankroll: real)
    requires ValidParams(k) && ValidProbability(p) && ValidProbability(q) && NoWorse(p, q) && 0.0 < y <= x
    requires Calculate(k, p, x, bankroll).binding == Kelly
    ensures Calculate(k, q, y, bankroll).binding == Kelly
  {
    EffectiveWinMonotone(k, p, q);
    OddsMonotone(p, x, q, y);
    EdgeMonotone(EffectiveWin(k, p), x, EffectiveWin(k, q), y);
  }

  /** The bet is monotone through every early return: with an entry price that is no higher (and still
      positive) and inputs no worse in any respect, the bet is no lower. */
  lemma KellyMonotone(k: KellyParams, p: Probability, x: real, q: Probability, y: real, bankroll: real)
    requires ValidParams(k) && ValidProbability(p) && ValidProbability(q) && NoWorse(p, q) && 0.0 < y <= x
    ensures Calculate(k, p, x, bankroll).bet <= Calculate(k, q, y, bankroll).bet
  {
    KellyBetBounds(k, q, y, bankroll, 0);
    var r, s := Calculate(k, p, x, bankroll), Calculate(k, q, y, bankroll);
    if r.binding == Kelly {
      KellyPassesGates(k, p, x, q, y, bankroll);
      EffectiveWinMonotone(k, p, q);
      OddsMonotone(p, x, q, y);
      KellyFractionMonotone(r.effectiveWin, r.netOdds, s.effectiveWin, s.netOdds);
      FractionalBounds(k, r.raw, s.raw);
      StakeMonotone(bankroll, r.fractional, s.fractional);
    }
  }

  /** A bet inside the bankroll whatever the opportunity looks like. */
  ghost predicate NeverOverBankroll(k: KellyParams, bankroll: real)
    requires ValidParams(k)
  {
    forall p, price :: ValidProbability(p) ==> Calculate(k, p, price, bankroll).bet <= bankroll
  }

  lemma RawKellyAtMostOne(w: real, odds: real)
    requires 0.0 <= w <= 1.0 && odds > 0.0
    ensures 0.0 <= RawKelly(w, odds) <= 1.0 && RawKelly(1.0, odds) == 1.0
  {
    SplitFraction(w, odds);
    QuotientMonotone(0.0, 1.0 - w, odds, odds);
    QuotientUnique(odds, odds, 1.0);
  }

  lemma LargestBet(k: KellyParams, p: Probability, price: real, bankroll: real)
    requires ValidParams(k) && ValidProbability(p) && bankroll > 0.0
    ensures Calculate(k, p, price, bankroll).bet <= Stake(bankroll, Fractional(k, 1.0))
  {
    var r := Calculate(k, p, price, bankroll);
    FractionalBounds(k, 1.0, 1.0);
    StakeBounds(bankroll, Fractional(k, 1.0), 0);
    if r.binding == Kelly {
      EffectiveWinMonotone(k, p, p);
      RawKellyAtMostOne(r.effectiveWin, r.netOdds);
      FractionalBounds(k, r.raw, 1.0);
      StakeMonotone(bankroll, r.fractional, Fractional(k, 1.0));
    }
  }

  /** A certain win at no extra cost, on a fresh and fully trusted model. */
  predicate SureThing(p: Probability) {
    p.win == 1.0 && p.fill == 1.0 && p.confidence == 1.0 && p.stalenessSecs == 0 && p.slippage == 0.0 && p.failureCost == 0.0
  }

  lemma EvenOdds(p: Probability)
    requires SureThing(p)
    ensures NetOdds(p, 0.5) == 1.0
  {
  }

  predicate PassesGates(k: KellyParams, p: Probability) {
    p.confidence >= k.minConfidence && p.samples >= k.minSamples && p.stalenessSecs <= k.maxStalenessSecs
  }

  lemma BetOnSureThing(k: KellyParams, p: Probability, bankroll: real)
    requires ValidParams(k) && k.minEdgeBps <= 10000.0 && bankroll > 0.0 && PassesGates(k, p)
    requires EffectiveWin(k, p) == 1.0 && NetOdds(p, 0.5) == 1.0
    ensures Calculate(k, p, 0.5, bankroll).bet == Stake(bankroll, Fractional(k, 1.0))
  {
    RawKellyAtMostOne(1.0, 1.0);
    var w := EffectiveWin(k, p);
    assert (w - 0.5) / 0.5 * 10000.0 == 10000.0;
  }

  lemma FreshIsWhole(k: KellyParams, p: Probability)
    requires k.maxStalenessSecs >= 1 && SureThing(p)
    ensures EffectiveWin(k, p) == 1.0
  {
    QuotientUnique(0.0, k.maxStalenessSecs as real, 0.0);
  }

  lemma SureThingBet(k: KellyParams, p: Probability, bankroll: real)
    requires ValidParams(k) && k.minEdgeBps <= 10000.0 && k.minConfidence <= 1.0 && bankroll > 0.0
    requires SureThing(p) && p.samples >= k.minSamples
    ensures Calculate(k, p, 0.5, bankroll).bet == Stake(bankroll, Fractional(k, 1.0))
  {
    FreshIsWhole(k, p);
    EvenOdds(p);
    BetOnSureThing(k, p, bankroll);
  }

  /** Rounding up can push the bet over the bankroll.  It never does, for any input, exactly when the
      rounded largest stake fits: the bankroll times the smaller of the two configured fractions. */
  lemma NeverOverBankrollIff(k: KellyParams, bankroll: real)
    requires ValidParams(k) && k.minEdgeBps <= 10000.0 && k.minConfidence <= 1.0 && bankroll > 0.0
    ensures NeverOverBankroll(k, bankroll) <==> Stake(bankroll, MinR(k.fraction, k.maxFraction)) <= bankroll
  {
    assert Fractional(k, 1.0) == MinR(k.fraction, k.maxFraction);
    var sure := Probability(1.0, 1.0, 1.0, k.minSamples, 0, 0.0, 0.0);
    SureThingBet(k, sure, bankroll);
    if Stake(bankroll, Fractional(k, 1.0)) <= bankroll {
      forall p, price | ValidProbability(p) ensures Calculate(k, p, price, bankroll).bet <= bankroll {
        LargestBet(k, p, price, bankroll);
      }
    } else {
      assert ValidProbability(sure) && Calculate(k, sure, 0.5, bankroll).bet > bankroll;
    }
  }

  /** Full Kelly on 1.006 bets 1.01. */
  lemma BetCanExceedBankroll()
    ensures Stake(1.006, MinR(1.0, 1.0)) == 1.01 > 1.006
  {
    assert (100.6).Floor == 100;
    assert RoundEven(100.6) == 101;
  }

  // ── Constraints ────────────────────────────────────────────────────────────

  datatype ConstraintName =
    | KellyUpperBound
    | MaxSingleBet
    | MaxSingleLoss
    | MarketExposureHeadroom
    | PortfolioExposureHeadroom
    | DailyBudgetRemaining
    | WeeklyLossHeadroom
    | AvailableBalance
    | DrawdownScaled
    | FactorBucket
    | FactorPortfolio
    | FactorReconciliation

  datatype Constraint = Constraint(name: ConstraintName, maxUsd: real)

  datatype SizerConfig = SizerConfig(
    kelly: KellyParams,
    maxSingleBet: real,
    maxSingleLoss: real,
    maxMarketExposure: real,
    maxTotalExposure: real,
    maxWeeklyLoss: real,
    reserve: real,
    minTrade: real)

  datatype Context = Context(
    probability: Probability,
    entryPrice: real,
    marketExposure: real,
    totalExposure: real,
    budgetRemaining: real,
    weeklyLoss: real,
    equity: real,
    reserved: real,
    potentialLoss: real)

  /** Size multipliers of the active control factors. */
  datatype Factors = Factors(bucket: real, portfolioGlobal: real, portfolioCategory: Option<real>, reconciliation: real) {
    function Portfolio(): real {
      portfolioGlobal * (if portfolioCategory.Some? then portfolioCategory.value else 1.0)
    }
  }

  datatype SizeResult = SizeResult(bet: real, binding: ConstraintName, constraints: seq<Constraint>)

  function BaseConstraints(s: SizerConfig, c: Context, bankroll: real, drawdown: real): seq<Constraint>
    requires ValidParams(s.kelly)
  {
    [Constraint(KellyUpperBound, Calculate(s.kelly, c.probability, c.entryPrice, bankroll).bet),
     Constraint(MaxSingleBet, s.maxSingleBet),
     Constraint(MaxSingleLoss, s.maxSingleLoss),
     Constraint(MarketExposureHeadroom, MaxR(s.maxMarketExposure - c.marketExposure, 0.0)),
     Constraint(PortfolioExposureHeadroom, MaxR(s.maxTotalExposure - c.totalExposure, 0.0)),
     Constraint(DailyBudgetRemaining, MaxR(c.budgetRemaining, 0.0)),
     Constraint(WeeklyLossHeadroom, MaxR(s.maxWeeklyLoss - c.weeklyLoss, 0.0)),
     Constraint(AvailableBalance, MaxR(c.equity - s.reserve - c.reserved - c.potentialLoss, 0.0)),
     Constraint(DrawdownScaled, if drawdown <= 0.0 then 0.0 else bankroll * drawdown)]
  }

  function Clamp01(x: real): real { MaxR(MinR(x, 1.0), 0.0) }

  function Share(base: real, part: real): real { MaxR(base * part, 0.0) }

  function Scaled(base: real, multiplier: real): real { Share(base, Clamp01(multiplier)) }

  function Cap(name: ConstraintName, base: real, multiplier: real): seq<Constraint> {
    if multiplier < 1.0 then [Constraint(name, Scaled(base, multiplier))] else []
  }

  function FactorConstraints(base: real, f: Factors): seq<Constraint> {
    Cap(FactorBucket, base, f.bucket) + Cap(FactorPortfolio, base, f.Portfolio()) + Cap(FactorReconciliation, base, f.reconciliation)
  }

  /** The smallest bound; of equal ones, the first. */
  function Tightest(cs: seq<Constraint>): Constraint
    requires cs != []
  {
    if |cs| == 1 then cs[0]
    else
      var t, last := Tightest(cs[..|cs| - 1]), cs[|cs| - 1];
      if last.maxUsd < t.maxUsd then last else t
  }

  function WithFactors(cs: seq<Constraint>, f: Option<Factors>): seq<Constraint>
    requires cs != []
  {
    if f.None? then cs else cs + FactorConstraints(Tightest(cs).maxUsd, f.value)
  }

  function Settle(minTrade: real, cs: seq<Constraint>): SizeResult
    requires cs != []
  {
    SizeResult(FinalBet(minTrade, Tightest(cs).maxUsd), Tightest(cs).name, cs)
  }

  function FinalBet(minTrade: real, tightest: real): real {
    var m := MaxR(tightest, 0.0);
    Round2(if m < minTrade then 0.0 else m)
  }

  function Size(s: SizerConfig, c: Context, bankroll: real, drawdown: real, f: Option<Factors>): SizeResult
    requires ValidParams(s.kelly)
  {
    Settle(s.minTrade, WithFactors(BaseConstraints(s, c, bankroll, drawdown), f))
  }

  // ── Sizer laws ─────────────────────────────────────────────────────────────

  predicate FirstMinimum(cs: seq<Constraint>, i: nat)
    requires i < |cs|
  {
    && (forall j :: 0 <= j < |cs| ==> cs[i].maxUsd <= cs[j].maxUsd)
    && (forall j :: 0 <= j < i ==> cs[j].maxUsd > cs[i].maxUsd)
  }

  /** The tightest constraint is the first minimum of the list. */
  lemma {:induction false} TightestIsFirstMinimum(cs: seq<Constraint>) returns (i: nat)
    requires cs != []
    ensures i < |cs| && Tightest(cs) == cs[i] && FirstMinimum(cs, i)
  {
    i := 0;
    if |cs| > 1 {
      var init := cs[..|cs| - 1];
      i := TightestIsFirstMinimum(init);
      assert forall j :: 0 <= j < |init| ==> cs[j] == init[j];
      if cs[|cs| - 1].maxUsd < Tightest(init).maxUsd {
        i := |cs| - 1;
      }
    }
  }

  lemma {:induction false} TightestAppend(cs: seq<Constraint>, ds: seq<Constraint>)
    requires cs != []
    ensures Tightest(cs + ds).maxUsd == if ds == [] then Tightest(cs).maxUsd else MinR(Tightest(cs).maxUsd, Tightest(ds).maxUsd)
    ensures (forall i :: 0 <= i < |ds| ==> ds[i].maxUsd >= Tightest(cs).maxUsd) ==> Tightest(cs + ds) == Tightest(cs)
  {
    if ds == [] {
      assert cs + ds == cs;
    } else {
      var init := ds[..|ds| - 1];
      TightestAppend(cs, init);
      assert (cs + ds)[..|cs + ds| - 1] == cs + init;
    }
  }

  /** The factor multiplier: the smallest clamped multiplier, at most one. */
  function Multiplier(f: Option<Factors>): real {
    if f.None? then 1.0
    else MinR(MinR(Clamp01(f.value.bucket), Clamp01(f.value.Portfolio())), Clamp01(f.value.reconciliation))
  }

  lemma ScaledOrder(base: real, more: real, x: real)
    requires base <= more
    ensures 0.0 <= Scaled(base, x) <= Scaled(more, x)
    ensures Scaled(base, x) <= MaxR(base, 0.0)
    ensures x >= 1.0 ==> Scaled(base, x) == MaxR(base, 0.0)
  {
    ShareOrder(base, more, Clamp01(x));
  }

  lemma ShareOrder(base: real, more: real, m: real)
    requires base <= more && 0.0 <= m <= 1.0
    ensures 0.0 <= Share(base, m) <= Share(more, m)
    ensures Share(base, m) <= MaxR(base, 0.0)
    ensures m == 1.0 ==> Share(base, m) == MaxR(base, 0.0)
  {
    if base >= 0.0 {
      ProductMonotone(base, more, m, m);
      ProductMonotone(base, base, m, 1.0);
    } else {
      NegativeShare(base, m);
    }
  }

  lemma NegativeShare(base: real, m: real)
    requires base < 0.0 && 0.0 <= m <= 1.0
    ensures base * m <= 0.0
  {
    ProductMonotone(0.0, -base, 0.0, m);
    assert base * m == -((-base) * m);
  }

  /** Of two shares of one base, the smaller is the share of the smaller part. */
  lemma SmallerShare(base: real, x: real, y: real)
    requires 0.0 <= x <= 1.0 && 0.0 <= y <= 1.0
    ensures MinR(Share(base, x), Share(base, y)) == Share(base, MinR(x, y))
  {
    if base < 0.0 {
      NegativeShare(base, x);
      NegativeShare(base, y);
    } else if x <= y {
      ProductMonotone(base, base, x, y);
    } else {
      ProductMonotone(base, base, y, x);
    }
  }

  lemma CapTightens(cs: seq<Constraint>, name: ConstraintName, base: real, multiplier: real)
    requires cs != [] && Tightest(cs).maxUsd <= base
    ensures MaxR(Tightest(cs + Cap(name, base, multiplier)).maxUsd, 0.0) == MinR(MaxR(Tightest(cs).maxUsd, 0.0), Scaled(base, multiplier))
    ensures Tightest(cs + Cap(name, base, multiplier)).maxUsd <= base
  {
    TightestAppend(cs, Cap(name, base, multiplier));
    ScaledOrder(base, base, multiplier);
  }

  /** The base scaled by the smallest of the factor multipliers. */
  function ScaledBase(base: real, f: Option<Factors>): real {
    if f.None? then MaxR(base, 0.0)
    else MinR(MinR(Scaled(base, f.value.bucket), Scaled(base, f.value.Portfolio())), Scaled(base, f.value.reconciliation))
  }

  lemma ScaledBaseMonotone(base: real, more: real, f: Option<Factors>)
    requires base <= more
    ensures 0.0 <= ScaledBase(base, f) <= ScaledBase(more, f)
  {
    if f.Some? {
      ScaledOrder(base, more, f.value.bucket);
      ScaledOrder(base, more, f.value.Portfolio());
      ScaledOrder(base, more, f.value.reconciliation);
    }
  }

  lemma ScaledBaseIsShare(base: real, f: Option<Factors>)
    ensures ScaledBase(base, f) == Share(base, Multiplier(f))
  {
    if f.Some? {
      var x, y, z := Clamp01(f.value.bucket), Clamp01(f.value.Portfolio()), Clamp01(f.value.reconciliation);
      SmallerShare(base, x, y);
      SmallerShare(base, MinR(x, y), z);
    }
  }

  lemma FactorLaw(cs: seq<Constraint>, f: Option<Factors>)
    requires cs != []
    ensures MaxR(Tightest(WithFactors(cs, f)).maxUsd, 0.0) == ScaledBase(Tightest(cs).maxUsd, f)
  {
    if f.Some? {
      ThreeCaps(cs, Tightest(cs).maxUsd, f.value.bucket, f.value.Portfolio(), f.value.reconciliation);
    }
  }

  lemma ThreeCaps(cs: seq<Constraint>, base: real, x: real, y: real, z: real)
    requires cs != [] && Tightest(cs).maxUsd == base
    ensures MaxR(Tightest(cs + (Cap(FactorBucket, base, x) + Cap(FactorPortfolio, base, y) + Cap(FactorReconciliation, base, z))).maxUsd, 0.0)
      == MinR(MinR(Scaled(base, x), Scaled(base, y)), Scaled(base, z))
  {
    var a, b, c := Cap(FactorBucket, base, x), Cap(FactorPortfolio, base, y), Cap(FactorReconciliation, base, z);
    CapTightens(cs, FactorBucket, base, x);
    CapTightens(cs + a, FactorPortfolio, base, y);
    CapTightens(cs + a + b, FactorReconciliation, base, z);
    ScaledOrder(base, base, x);
    assert cs + a + b + c == cs + (a + b + c);
  }

  /** The smallest cap times the factor multiplier, floored at zero. */
  function Target(cs: seq<Constraint>, f: Option<Factors>): real
    requires cs != []
  {
    Share(Tightest(cs).maxUsd, Multiplier(f))
  }

  /** Rounded to cents, or nothing below the minimum trade. */
  function Tradable(minTrade: real, m: real): real { if m >= minTrade then Round2(m) else 0.0 }

  lemma FinalBetIsTradable(minTrade: real, tightest: real, m: real)
    requires MaxR(tightest, 0.0) == m
    ensures FinalBet(minTrade, tightest) == Tradable(minTrade, m)
  {
    Round2Laws(0.0, 0.0, 0);
  }

  lemma SettleLaw(minTrade: real, cs: seq<Constraint>, f: Option<Factors>)
    requires cs != []
    ensures Settle(minTrade, WithFactors(cs, f)).bet == Tradable(minTrade, Target(cs, f))
  {
    FactorLaw(cs, f);
    ScaledBaseIsShare(Tightest(cs).maxUsd, f);
    FinalBetIsTradable(minTrade, Tightest(WithFactors(cs, f)).maxUsd, Target(cs, f));
  }

  /** The named binding constraint is the first one that attains the minimum of the list. */
  predicate BindsFirst(r: SizeResult) {
    exists i :: 0 <= i < |r.constraints| && r.constraints[i].name == r.binding && FirstMinimum(r.constraints, i)
  }

  /** The final bet is the smallest of the nine base caps, scaled by the factors; the binding constraint
      is the first minimum of the whole list. */
  lemma SizerLaw(s: SizerConfig, c: Context, bankroll: real, drawdown: real, f: Option<Factors>)
    requires ValidParams(s.kelly)
    ensures Size(s, c, bankroll, drawdown, f).bet == Tradable(s.minTrade, Target(BaseConstraints(s, c, bankroll, drawdown), f))
    ensures BindsFirst(Size(s, c, bankroll, drawdown, f))
  {
    var base := BaseConstraints(s, c, bankroll, drawdown);
    SettleLaw(s.minTrade, base, f);
    SettleBindsFirst(s.minTrade, WithFactors(base, f));
  }

  lemma SettleBindsFirst(minTrade: real, cs: seq<Constraint>)
    requires cs != []
    ensures BindsFirst(Settle(minTrade, cs))
  {
    var i := TightestIsFirstMinimum(cs);
    assert Settle(minTrade, cs).constraints[i].name == Settle(minTrade, cs).binding;
  }

  lemma NeutralSettle(minTrade: real, cs: seq<Constraint>, f: Factors)
    requires cs != [] && f.bucket >= 1.0 && f.Portfolio() >= 1.0 && f.reconciliation >= 1.0
    ensures Settle(minTrade, WithFactors(cs, Some(f))) == Settle(minTrade, cs)
  {
    assert cs + FactorConstraints(Tightest(cs).maxUsd, f) == cs;
  }

  /** Multipliers of one or more leave the bet, the binding constraint and the breakdown unchanged. */
  lemma NeutralFactorsChangeNothing(s: SizerConfig, c: Context, bankroll: real, drawdown: real, f: Factors)
    requires ValidParams(s.kelly) && f.bucket >= 1.0 && f.Portfolio() >= 1.0 && f.reconciliation >= 1.0
    ensures Size(s, c, bankroll, drawdown, Some(f)) == Size(s, c, bankroll, drawdown, None)
  {
    NeutralSettle(s.minTrade, BaseConstraints(s, c, bankroll, drawdown), f);
  }

  /** No constraint is exceeded by more than half a cent, and none at all exactly when the smallest one is
      under the minimum trade or its digits round down. */
  lemma BetWithinCaps(minTrade: real, cs: seq<Constraint>, i: nat)
    requires i < |cs|
    ensures Settle(minTrade, cs).bet <= MaxR(cs[i].maxUsd, 0.0) + 0.005
    ensures var m := MaxR(Tightest(cs).maxUsd, 0.0);
            Settle(minTrade, cs).bet <= m <==> m < minTrade || RoundsDown(m)
  {
    var first := TightestIsFirstMinimum(cs);
    var m := MaxR(Tightest(cs).maxUsd, 0.0);
    RoundsDownIff(m);
    Round2Laws(m, m, 0);
    Round2Laws(0.0, 0.0, 0);
  }

  /** Rounding can pass a cap: a cap of 10.006 yields a bet of 10.01. */
  lemma RoundingCanPassACap()
    ensures FinalBet(1.0, 10.006) == 10.01 > 10.006
  {
    assert (1000.6).Floor == 1000;
    assert RoundEven(1000.6) == 1001;
  }

  /** The bankroll handed to Kelly: what is free, capped by configuration, never negative. */
  function AvailableBankroll(s: SizerConfig, c: Context, configured: real): real {
    MaxR(MinR(configured, MaxR(Free(s, c), 0.0)), 0.0)
  }

  /** Equity left after the reserve, open reservations and worst-case losses of pending trades. */
  function Free(s: SizerConfig, c: Context): real { c.equity - s.reserve - c.reserved - c.potentialLoss }

  /** Whatever the configured bankroll, a bet stays within the free equity up to half a cent, and there
      is no bet when nothing is free. */
  lemma NeverSpendsReserve(s: SizerConfig, c: Context, configured: real, drawdown: real, f: Option<Factors>)
    requires ValidParams(s.kelly)
    ensures var bet := Size(s, c, AvailableBankroll(s, c, configured), drawdown, f).bet;
            bet <= MaxR(Free(s, c), 0.0) + 0.005 && (Free(s, c) <= 0.0 ==> bet == 0.0)
  {
    var base := BaseConstraints(s, c, AvailableBankroll(s, c, configured), drawdown);
    assert base[7].maxUsd == MaxR(Free(s, c), 0.0);
    CappedAt(s.minTrade, base, f, 7);
  }

  lemma CappedAt(minTrade: real, cs: seq<Constraint>, f: Option<Factors>, i: nat)
    requires i < |cs|
    ensures Settle(minTrade, WithFactors(cs, f)).bet <= MaxR(cs[i].maxUsd, 0.0) + 0.005
    ensures cs[i].maxUsd <= 0.0 ==> Settle(minTrade, WithFactors(cs, f)).bet == 0.0
  {
    var all := WithFactors(cs, f);
    assert all[i] == cs[i];
    BetWithinCaps(minTrade, all, i);
    var first := TightestIsFirstMinimum(all);
    Round2Laws(0.0, 0.0, 0);
  }

  lemma {:induction false} TightestMonotone(cs: seq<Constraint>, ds: seq<Constraint>)
    requires cs != [] && |cs| == |ds| && forall i :: 0 <= i < |cs| ==> cs[i].maxUsd <= ds[i].maxUsd
    ensures Tightest(cs).maxUsd <= Tightest(ds).maxUsd
  {
    if |cs| > 1 { TightestMonotone(cs[..|cs| - 1], ds[..|ds| - 1]); }
  }

  /** The sized bet inherits the monotonicity of Kelly through all caps, factors, the minimum-trade
      threshold and rounding. */
  lemma SizerMonotone(s: SizerConfig, c: Context, d: Context, bankroll: real, drawdown: real, f: Option<Factors>)
    requires ValidParams(s.kelly) && ValidProbability(c.probability) && ValidProbability(d.probability)
    requires NoWorse(c.probability, d.probability) && 0.0 < d.entryPrice <= c.entryPrice
    requires d == c.(probability := d.probability, entryPrice := d.entryPrice)
    ensures Size(s, c, bankroll, drawdown, f).bet <= Size(s, d, bankroll, drawdown, f).bet
  {
    KellyMonotone(s.kelly, c.probability, c.entryPrice, d.probability, d.entryPrice, bankroll);
    SettleMonotone(s.minTrade, BaseConstraints(s, c, bankroll, drawdown), BaseConstraints(s, d, bankroll, drawdown), f);
  }

  lemma SettleMonotone(minTrade: real, cs: seq<Constraint>, ds: seq<Constraint>, f: Option<Factors>)
    requires cs != [] && |cs| == |ds| && forall i :: 0 <= i < |cs| ==> cs[i].maxUsd <= ds[i].maxUsd
    ensures Settle(minTrade, WithFactors(cs, f)).bet <= Settle(minTrade, WithFactors(ds, f)).bet
  {
    TightestMonotone(cs, ds);
    FactorLaw(cs, f);
    FactorLaw(ds, f);
    ScaledBaseMonotone(Tightest(cs).maxUsd, Tightest(ds).maxUsd, f);
    FinalBetMonotone(minTrade, Tightest(WithFactors(cs, f)).maxUsd, Tightest(WithFactors(ds, f)).maxUsd);
  }

  lemma FinalBetMonotone(minTrade: real, x: real, y: real)
    requires MaxR(x, 0.0) <= MaxR(y, 0.0)
    ensures 0.0 <= FinalBet(minTrade, x) <= FinalBet(minTrade, y)
  {
    Round2Laws(MaxR(x, 0.0), MaxR(y, 0.0), 0);
    Round2Laws(0.0, MaxR(y, 0.0), 0);
  }

  /** The sizer as written: a growing constraint list, then a scan for the first minimum. */
  method SizePosition(s: SizerConfig, c: Context, bankroll: real, drawdown: real, f: Option<Factors>) returns (r: SizeResult)
    requires ValidParams(s.kelly)
    ensures r == Size(s, c, bankroll, drawdown, f)
  {
    var constraints := PushFactorConstraints(BaseConstraints(s, c, bankroll, drawdown), f);
    var binding := FindTightest(constraints);
    var final := MaxR(binding.maxUsd, 0.0);
    if final < s.minTrade {
      final := 0.0;
    }
    r := SizeResult(Round2(final), binding.name, constraints);
  }

  method PushFactorConstraints(cs: seq<Constraint>, f: Option<Factors>) returns (constraints: seq<Constraint>)
    requires cs != []
    ensures constraints == WithFactors(cs, f)
  {
    constraints := cs;
    if f.None? {
      return;
    }
    var base := FindTightest(constraints);
    if f.value.bucket < 1.0 {
      constraints := constraints + [Constraint(FactorBucket, Scaled(base.maxUsd, f.value.bucket))];
    }
    if f.value.Portfolio() < 1.0 {
      constraints := constraints + [Constraint(FactorPortfolio, Scaled(base.maxUsd, f.value.Portfolio()))];
    }
    if f.value.reconciliation < 1.0 {
      constraints := constraints + [Constraint(FactorReconciliation, Scaled(base.maxUsd, f.value.reconciliation))];
    }
    assert constraints == cs + FactorConstraints(base.maxUsd, f.value);
  }

  method FindTightest(cs: seq<Constraint>) returns (t: Constraint)
    requires cs != []
    ensures t == Tightest(cs)
  {
    t := cs[0];
    for i := 1 to |cs|
      invariant t == Tightest(cs[..i])
    {
      assert cs[..i + 1][..i] == cs[..i];
      if cs[i].maxUsd < t.maxUsd {
        t := cs[i];
      }
    }
    assert cs[..|cs|] == cs;
  }
}
