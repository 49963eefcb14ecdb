/** The sized bet as an optimum: up to rounding, the largest stake that keeps every limit once it is added to
    what is already at risk, and that the control factors allow. */
module SizerOptimum {
  import opened MachineInts
  import opened RealOrder
  import opened Sizing

  /** Staking `x` more breaks no limit. */
  predicate WithinLimits(s: SizerConfig, c: Context, bankroll: real, drawdown: real, x: real)
    requires ValidParams(s.kelly)
  {
    && x <= Calculate(s.kelly, c.probability, c.entryPrice, bankroll).bet
    && x <= s.maxSingleBet
    && x <= s.maxSingleLoss
    && c.marketExposure + x <= s.maxMarketExposure
    && c.totalExposure + x <= s.maxTotalExposure
    && x <= c.budgetRemaining
    && c.weeklyLoss + x <= s.maxWeeklyLoss
    && x + s.reserve + c.reserved + c.potentialLoss <= c.equity
    && drawdown > 0.0 && x <= bankroll * drawdown
  }

  /** The control factors cut a stake of `x` down to `y` or more. */
  predicate FactorsAllow(f: Option<Factors>, x: real, y: real) {
    && y <= x
    && (f.Some? ==>
         && y <= f.value.bucket * x
         && y <= f.value.portfolioGlobal * (if f.value.portfolioCategory.Some? then f.value.portfolioCategory.value else 1.0) * x
         && y <= f.value.reconciliation * x)
  }

  // ── The base caps ──────────────────────────────────────────────────────────

  lemma {:induction false} TightestIsLeast(cs: seq<Constraint>, x: real)
    requires cs != []
    ensures x <= Tightest(cs).maxUsd <==> forall i :: 0 <= i < |cs| ==> x <= cs[i].maxUsd
  {
    if |cs| > 1 {
      var init := cs[..|cs| - 1];
      TightestIsLeast(init, x);
      assert forall i :: 0 <= i < |init| ==> init[i] == cs[i];
    }
  }

  lemma LimitsAreCaps(s: SizerConfig, c: Context, bankroll: real, drawdown: real, x: real)
    requires ValidParams(s.kelly) && x > 0.0
    ensures var cs := BaseConstraints(s, c, bankroll, drawdown);
            WithinLimits(s, c, bankroll, drawdown, x) <==> forall i :: 0 <= i < |cs| ==> x <= cs[i].maxUsd
  {
    var cs := BaseConstraints(s, c, bankroll, drawdown);
    assert (forall i :: 0 <= i < |cs| ==> x <= cs[i].maxUsd) <==>
      && x <= cs[0].maxUsd && x <= cs[1].maxUsd && x <= cs[2].maxUsd && x <= cs[3].maxUsd && x <= cs[4].maxUsd
      && x <= cs[5].maxUsd && x <= cs[6].maxUsd && x <= cs[7].maxUsd && x <= cs[8].maxUsd;
  }

  lemma WithinIff(s: SizerConfig, c: Context, bankroll: real, drawdown: real, x: real)
    requires ValidParams(s.kelly) && x > 0.0
    ensures WithinLimits(s, c, bankroll, drawdown, x) <==> x <= Tightest(BaseConstraints(s, c, bankroll, drawdown)).maxUsd
  {
    LimitsAreCaps(s, c, bankroll, drawdown, x);
    TightestIsLeast(BaseConstraints(s, c, bankroll, drawdown), x);
  }

  // ── The factors ────────────────────────────────────────────────────────────

  lemma ClampCuts(m: real, x: real, y: real)
    requires 0.0 < y <= x && y <= m * x
    ensures m > 0.0 && y <= Clamp01(m) * x
  {
    if m <= 0.0 {
      ProductMonotone(0.0, -m, x, x);
      assert false;
    }
  }

  lemma ClampAllows(m: real, mult: real, x: real)
    requires 0.0 < mult <= Clamp01(m) && x > 0.0
    ensures mult * x <= m * x && mult * x <= x
  {
    ProductMonotone(mult, m, x, x);
    ProductMonotone(mult, 1.0, x, x);
  }

  lemma AllowedIsWithinTarget(f: Option<Factors>, x: real, y: real, base: real)
    requires 0.0 < y && x <= base && FactorsAllow(f, x, y)
    ensures y <= Share(base, Multiplier(f))
  {
    if f.Some? {
      ClampCuts(f.value.bucket, x, y);
      ClampCuts(f.value.Portfolio(), x, y);
      ClampCuts(f.value.reconciliation, x, y);
    }
    assert y <= Multiplier(f) * x;
    ProductMonotone(Multiplier(f), Multiplier(f), x, base);
    assert Multiplier(f) * base == base * Multiplier(f);
  }

  lemma PositiveShare(base: real, m: real)
    requires 0.0 <= m <= 1.0 && Share(base, m) > 0.0
    ensures base > 0.0 && m > 0.0 && Share(base, m) == m * base <= base
  {
    if base < 0.0 { NegativeShare(base, m); assert false; }
    ProductMonotone(m, 1.0, base, base);
  }

  lemma SmallestAllows(f: Factors, m: real, base: real)
    requires 0.0 < m <= 1.0 && base > 0.0
    requires m <= Clamp01(f.bucket) && m <= Clamp01(f.Portfolio()) && m <= Clamp01(f.reconciliation)
    ensures FactorsAllow(Some(f), base, m * base)
  {
    ClampAllows(f.bucket, m, base);
    ClampAllows(f.Portfolio(), m, base);
    ClampAllows(f.reconciliation, m, base);
  }

  lemma MultiplierRange(f: Option<Factors>)
    ensures 0.0 <= Multiplier(f) <= 1.0
    ensures f.Some? ==>
      && Multiplier(f) <= Clamp01(f.value.bucket) && Multiplier(f) <= Clamp01(f.value.Portfolio())
      && Multiplier(f) <= Clamp01(f.value.reconciliation)
  {
  }

  lemma TargetIsAllowed(f: Option<Factors>, base: real)
    requires Share(base, Multiplier(f)) > 0.0
    ensures base > 0.0 && FactorsAllow(f, base, Share(base, Multiplier(f)))
  {
    MultiplierRange(f);
    PositiveShare(base, Multiplier(f));
    if f.Some? { SmallestAllows(f.value, Multiplier(f), base); }
  }

  // ── The optimum ────────────────────────────────────────────────────────────

  lemma RoundedTarget(minTrade: real, m: real)
    requires m >= 0.0
    ensures m >= minTrade ==> -0.005 <= Tradable(minTrade, m) - m <= 0.005
    ensures Tradable(minTrade, m) > 0.0 ==> m > 0.0 && m >= minTrade
  {
    Round2Laws(m, 0.0, 0);
  }

  /** A stake that breaks no limit, cut down by the factors, and worth the minimum trade. */
  predicate Admissible(s: SizerConfig, c: Context, bankroll: real, drawdown: real, f: Option<Factors>, x: real, y: real)
    requires ValidParams(s.kelly)
  {
    x > 0.0 && WithinLimits(s, c, bankroll, drawdown, x) && FactorsAllow(f, x, y) && y > 0.0 && y >= s.minTrade
  }

  /** No admissible stake exceeds the bet by more than half a cent. */
  lemma BetIsLargest(s: SizerConfig, c: Context, bankroll: real, drawdown: real, f: Option<Factors>, x: real, y: real)
    requires ValidParams(s.kelly) && Admissible(s, c, bankroll, drawdown, f, x, y)
    ensures y <= Size(s, c, bankroll, drawdown, f).bet + 0.005
  {
    var base := Tightest(BaseConstraints(s, c, bankroll, drawdown)).maxUsd;
    WithinIff(s, c, bankroll, drawdown, x);
    AllowedIsWithinTarget(f, x, y, base);
    SizerLaw(s, c, bankroll, drawdown, f);
    RoundedTarget(s.minTrade, Share(base, Multiplier(f)));
  }

  /** A positive bet is within half a cent of an admissible stake. */
  lemma BetIsAdmissible(s: SizerConfig, c: Context, bankroll: real, drawdown: real, f: Option<Factors>) returns (x: real, y: real)
    requires ValidParams(s.kelly) && Size(s, c, bankroll, drawdown, f).bet > 0.0
    ensures Admissible(s, c, bankroll, drawdown, f, x, y) && -0.005 <= Size(s, c, bankroll, drawdown, f).bet - y <= 0.005
  {
    x := Tightest(BaseConstraints(s, c, bankroll, drawdown)).maxUsd;
    y := Share(x, Multiplier(f));
    SizerLaw(s, c, bankroll, drawdown, f);
    RoundedTarget(s.minTrade, y);
    TargetIsAllowed(f, x);
    WithinIff(s, c, bankroll, drawdown, x);
  }

  /** The bankroll Kelly works with is the largest amount within the configured one that leaves the reserve, the open
      reservations and the pending losses untouched, and nothing when there is none. */
  lemma BankrollIsLargestFree(s: SizerConfig, c: Context, configured: real, x: real)
    ensures var b := AvailableBankroll(s, c, configured);
      && b >= 0.0
      && (b > 0.0 ==> b <= configured && b + s.reserve + c.reserved + c.potentialLoss <= c.equity)
      && (0.0 < x <= configured && x + s.reserve + c.reserved + c.potentialLoss <= c.equity ==> x <= b)
  {
  }
}
