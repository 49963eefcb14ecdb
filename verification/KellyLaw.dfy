/** The Kelly bet stated on its inputs: which gate an opportunity fails, and what an accepted one stakes. */
module KellyLaw {
  import opened RealOrder
  import opened Sizing

  // ── The gates ──────────────────────────────────────────────────────────────

  predicate Offered(price: real, bankroll: real) { 0.0 < price < 1.0 && bankroll > 0.0 }

  predicate Trusted(k: KellyParams, p: Probability) {
    p.confidence >= k.minConfidence && p.samples >= k.minSamples && p.stalenessSecs <= k.maxStalenessSecs
  }

  /** The win probability discounted by fill, confidence and the age of the model. */
  function Discounted(k: KellyParams, p: Probability): real
    requires k.maxStalenessSecs >= 1
  {
    p.win * p.fill * p.confidence * (1.0 - (p.stalenessSecs as real) / (k.maxStalenessSecs as real))
  }

  /** What a dollar wins, less the costs of getting it. */
  function AfterCosts(p: Probability, price: real): real
    requires price > 0.0
  {
    (1.0 - price) / price - (p.slippage + p.failureCost)
  }

  /** The costs eat up the odds. */
  predicate CostsExceedOdds(p: Probability, price: real)
    requires price > 0.0
  {
    p.slippage + p.failureCost >= (1.0 - price) / price
  }

  /** The edge over the price, in basis points of it, is too thin. */
  predicate EdgeTooThin(k: KellyParams, p: Probability, price: real)
    requires k.maxStalenessSecs >= 1
  {
    (Discounted(k, p) - price) * 10000.0 < k.minEdgeBps * price
  }

  predicate Accepted(k: KellyParams, p: Probability, price: real, bankroll: real)
    requires k.maxStalenessSecs >= 1
  {
    Offered(price, bankroll) && Trusted(k, p) && !CostsExceedOdds(p, price) && !EdgeTooThin(k, p, price)
  }

  lemma StillFresh(k: KellyParams, p: Probability)
    requires k.maxStalenessSecs >= 1 && p.stalenessSecs <= k.maxStalenessSecs
    ensures EffectiveWin(k, p) == Discounted(k, p)
  {
    QuotientMonotone(p.stalenessSecs as real, k.maxStalenessSecs as real, k.maxStalenessSecs as real, k.maxStalenessSecs as real);
    QuotientUnique(k.maxStalenessSecs as real, k.maxStalenessSecs as real, 1.0);
  }

  lemma EdgeIff(w: real, price: real, min: real)
    requires price > 0.0
    ensures EdgeBps(w, price) < min <==> (w - price) * 10000.0 < min * price
  {
    var edge := EdgeBps(w, price);
    assert edge * price == (w - price) * 10000.0;
    Times(edge, min, price);
  }

  lemma Times(x: real, y: real, d: real)
    requires d > 0.0
    ensures x < y <==> x * d < y * d
  {
  }

  lemma NetOddsAre(p: Probability, price: real)
    requires price > 0.0
    ensures NetOdds(p, price) == AfterCosts(p, price)
    ensures NetOdds(p, price) <= 0.0 <==> CostsExceedOdds(p, price)
  {
  }

  /** Each answer is given exactly on its own gate condition, read off the inputs in the order of the gates; only
      an accepted opportunity gets a bet. */
  lemma BindingIff(k: KellyParams, p: Probability, price: real, bankroll: real)
    requires ValidParams(k)
    ensures var r := Calculate(k, p, price, bankroll);
      && (r.binding == InvalidInput <==> !Offered(price, bankroll))
      && (r.binding == LowConfidence <==> Offered(price, bankroll) && p.confidence < k.minConfidence)
      && (r.binding == InsufficientSamples <==>
           Offered(price, bankroll) && p.confidence >= k.minConfidence && p.samples < k.minSamples)
      && (r.binding == StaleModel <==>
           && Offered(price, bankroll) && p.confidence >= k.minConfidence && p.samples >= k.minSamples
           && p.stalenessSecs > k.maxStalenessSecs)
      && (r.binding == NegativeOddsAfterCosts <==>
           Offered(price, bankroll) && Trusted(k, p) && CostsExceedOdds(p, price))
      && (r.binding == BelowMinEdge <==>
           Offered(price, bankroll) && Trusted(k, p) && !CostsExceedOdds(p, price) && EdgeTooThin(k, p, price))
      && (r.binding == Kelly <==> Accepted(k, p, price, bankroll))
      && (r.binding != Kelly ==> r.bet == 0.0)
  {
    if Offered(price, bankroll) && Trusted(k, p) {
      StillFresh(k, p);
      NetOddsAre(p, price);
      EdgeIff(Discounted(k, p), price, k.minEdgeBps);
    }
  }

  // ── The stake ──────────────────────────────────────────────────────────────

  /** `r` is the Kelly fraction of win probability `w` at odds `o`: the expected gain over the odds, or nothing
      when no gain is expected. */
  predicate KellyFraction(r: real, w: real, o: real) {
    r * o == if w * o - (1.0 - w) > 0.0 then w * o - (1.0 - w) else 0.0
  }

  lemma FractionIs(w: real, o: real)
    requires o > 0.0
    ensures KellyFraction(RawKelly(w, o), w, o)
  {
    var gain := w * o - (1.0 - w);
    assert gain / o * o == gain;
    if gain > 0.0 { QuotientMonotone(0.0, gain, o, o); } else { QuotientMonotone(0.0, -gain, o, o); Negated(gain, o); }
  }

  lemma Negated(x: real, d: real)
    requires d > 0.0
    ensures x / d == -(-x / d)
  {
    QuotientUnique(x, d, -(-x / d));
  }

  /** An accepted opportunity stakes the configured part of the Kelly fraction, at most the configured cap, of the
      bankroll, rounded to cents; the fraction is taken at the discounted win probability and the odds after
      costs. */
  lemma StakeIsKelly(k: KellyParams, p: Probability, price: real, bankroll: real)
    requires ValidParams(k) && Accepted(k, p, price, bankroll)
    ensures AfterCosts(p, price) > 0.0
    ensures KellyBet(k, price, bankroll, Calculate(k, p, price, bankroll), Discounted(k, p), AfterCosts(p, price))
  {
    AcceptedResult(k, p, price, bankroll);
    StakedIsKelly(k, Discounted(k, p), AfterCosts(p, price), price, bankroll);
  }

  /** The configured part of the Kelly fraction, at most the configured cap. */
  predicate Capped(k: KellyParams, raw: real, f: real) {
    f == if raw * k.fraction < k.maxFraction then raw * k.fraction else k.maxFraction
  }

  /** The fraction of the bankroll, rounded to cents. */
  predicate Cents(bankroll: real, f: real, bet: real) {
    bet == Round2(bankroll * f) && -0.005 <= bet - bankroll * f <= 0.005
  }

  /** The edge in basis points of the price. */
  predicate Edge(bps: real, w: real, price: real) { bps * price == (w - price) * 10000.0 }

  /** `r` bets on win probability `w` at odds `o`. */
  predicate KellyBet(k: KellyParams, price: real, bankroll: real, r: KellyResult, w: real, o: real) {
    && r.effectiveWin == w && r.netOdds == o && Edge(r.edgeBps, w, price)
    && KellyFraction(r.raw, w, o) && Capped(k, r.raw, r.fractional) && Cents(bankroll, r.fractional, r.bet)
  }

  lemma StakedIsKelly(k: KellyParams, w: real, o: real, price: real, bankroll: real)
    requires o > 0.0 && price > 0.0
    ensures KellyBet(k, price, bankroll, Staked(k, w, o, price, bankroll), w, o)
  {
    FractionIs(w, o);
    EdgeIs(w, price);
    CappedIs(k, RawKelly(w, o));
    StakeInCents(bankroll, Fractional(k, RawKelly(w, o)));
    var r := Staked(k, w, o, price, bankroll);
    assert r.effectiveWin == w && r.netOdds == o;
    assert r.raw == RawKelly(w, o) && r.fractional == Fractional(k, r.raw) && r.bet == Stake(bankroll, r.fractional);
    assert r.edgeBps == EdgeBps(w, price);
  }

  lemma CappedIs(k: KellyParams, raw: real)
    ensures Capped(k, raw, Fractional(k, raw))
  {
  }

  lemma StakeInCents(bankroll: real, f: real)
    ensures Cents(bankroll, f, Stake(bankroll, f))
  {
    Round2Laws(bankroll * f, bankroll * f, 0);
  }

  lemma EdgeIs(w: real, price: real)
    requires price > 0.0
    ensures Edge(EdgeBps(w, price), w, price)
  {
  }

  lemma AcceptedResult(k: KellyParams, p: Probability, price: real, bankroll: real)
    requires ValidParams(k) && Accepted(k, p, price, bankroll)
    ensures AfterCosts(p, price) > 0.0
    ensures Calculate(k, p, price, bankroll) == Staked(k, Discounted(k, p), AfterCosts(p, price), price, bankroll)
  {
    BindingIff(k, p, price, bankroll);
    KellyFields(k, p, price, bankroll);
    StillFresh(k, p);
    NetOddsAre(p, price);
  }

  lemma KellyFields(k: KellyParams, p: Probability, price: real, bankroll: real)
    requires ValidParams(k) && Calculate(k, p, price, bankroll).binding == Kelly
    ensures price > 0.0 && NetOdds(p, price) > 0.0
    ensures Calculate(k, p, price, bankroll) == Staked(k, EffectiveWin(k, p), NetOdds(p, price), price, bankroll)
  {
  }
}
