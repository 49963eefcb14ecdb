/** The caps in terms of the trades: what a run's losses do to the breaker, and exactly when a trade leaves a
    closed breaker closed. */
module RiskEngineCaps {
  import opened RiskEngineModel
  import opened RiskEngineBooks
  import opened WindowTotals
  import CB = CircuitBreakers
  import BR = BreakerRuns
  import Safety = RiskEngineSafety

  // ── A closed breaker ───────────────────────────────────────────────────────

  /** No cap that a fill checks is reached. */
  predicate FeesAndErrorsBelow(c: RiskConfig, b: Books, m: Metrics) {
    && b.daily.stats.fees < c.maxDailyFees
    && b.hourly.stats.fees < c.maxHourlyFees
    && m.misses < c.maxConsecutiveMisses
    && ErrorRateBelow(c, m)
  }

  predicate ErrorRateBelow(c: RiskConfig, m: Metrics) {
    m.apiRequests == 0 || (m.apiErrors as real) < c.apiErrorRateThreshold * (m.apiRequests as real)
  }

  /** No cap that only a settlement checks is reached. */
  predicate LossesBelow(c: RiskConfig, b: Books) {
    && b.daily.stats.loss < c.maxDailyLoss
    && b.weekly.stats.loss < c.maxWeeklyLoss
    && b.hourly.stats.loss < c.maxHourlyLoss
    && b.daily.stats.maxSingleLoss < c.maxSingleLoss
    && b.daily.stats.fees < c.maxDailyFees
  }

  lemma RateBelowIff(errors: real, requests: real, threshold: real)
    requires requests > 0.0
    ensures errors / requests >= threshold <==> errors >= threshold * requests
  {
    var rate := errors / requests;
    assert rate * requests == errors;
    if rate >= threshold {
      assert (rate - threshold) * requests >= 0.0;
    } else {
      assert (threshold - rate) * requests > 0.0;
    }
  }

  lemma ApiErrorsIff(c: RiskConfig, m: Metrics)
    ensures TooManyApiErrors(c, m) <==> !ErrorRateBelow(c, m)
  {
    if m.apiRequests > 0 { RateBelowIff(m.apiErrors as real, m.apiRequests as real, c.apiErrorRateThreshold); }
  }

  lemma ClosedThroughLossCaps(c: RiskConfig, books: Books, b: CB.Breaker, now: int)
    requires b.state.Closed?
    ensures CheckLossCaps(c, books, b, now).state.Closed? <==> LossesBelow(c, books)
    ensures LossesBelow(c, books) ==> CheckLossCaps(c, books, b, now) == b
  {
  }

  lemma ClosedThroughChecks(c: RiskConfig, books: Books, b: CB.Breaker, t: Trade, m: Metrics, now: int)
    ensures b.state.Closed? ==>
      (CommonChecks(c, books, b, t, m, now).state.Closed? <==> FeesAndErrorsBelow(c, books, m))
    ensures !b.state.AllowsTrading() ==> !CommonChecks(c, books, b, t, m, now).state.Closed?
  {
    ApiErrorsIff(c, m);
  }

  lemma LossCapsStop(c: RiskConfig, books: Books, b: CB.Breaker, now: int)
    requires b.state.Closed? && !LossesBelow(c, books)
    ensures !CheckLossCaps(c, books, b, now).state.AllowsTrading()
  {
  }

  /** A trade leaves a closed breaker closed exactly when no cap of its phase is reached by the new books: fees,
      misses and the error rate for a fill, and the four losses besides for a settlement. */
  lemma StaysClosedIff(e: Engine, phase: Phase, t: Trade, m: Metrics, now: int)
    requires e.breaker.state.Closed?
    ensures var a := ApplyTrade(e, phase, t, m, now);
            a.breaker.state.Closed? <==>
              FeesAndErrorsBelow(e.config, a.books, m) && (phase.Settlement? ==> LossesBelow(e.config, a.books))
  {
    var books := if phase.Fill? then BookFill(e.books, t, now) else BookSettlement(e.books, t, now);
    var capped := if phase.Fill? then e.breaker else CheckLossCaps(e.config, books, e.breaker, now);
    ClosedThroughLossCaps(e.config, books, e.breaker, now);
    if phase.Settlement? && !LossesBelow(e.config, books) { LossCapsStop(e.config, books, e.breaker, now); }
    ClosedThroughChecks(e.config, books, capped, t, m, now);
  }

  // ── Losses over a run ──────────────────────────────────────────────────────

  /** The settlement is applied: it has nothing to resolve, or the store resolved it. */
  predicate Applies(t: Trade, io: SettleIo) { t.outcome.Success? ==> io.resolveOk }

  lemma SettlementKeepsState(e: Engine, t: Trade, m: Metrics, io: SettleIo, now: int)
    requires Applies(t, io)
    ensures var a, r := ApplyTrade(e, Settlement, t, m, now), OnSettlement(e, t, m, io, now).0;
      && r.books == a.books
      && (r.breaker == a.breaker || r.breaker == CB.Halt(a.breaker, CB.System, PERSIST_FAILED, now)
          || r.breaker == CB.Halt(a.breaker, CB.System, AUDIT_FAILED, now)
          || r.breaker == CB.Halt(a.breaker, CB.System, BLACKLIST_PERSIST, now))
  {
  }

  lemma HaltKeepsEnforced(c: RiskConfig, books: Books, b: CB.Breaker, m: Metrics, reason: string, now: int)
    requires Safety.Enforced(c, books, b, m, true)
    ensures Safety.Enforced(c, books, CB.Halt(b, CB.System, reason, now), m, true)
  {
  }

  /** After an applied settlement, whatever its persistence does, every breached cap shows in the breaker. */
  lemma SettlementEnforces(e: Engine, t: Trade, m: Metrics, io: SettleIo, now: int)
    requires BR.SessionOnly(e.breaker) && Applies(t, io)
    ensures var r := OnSettlement(e, t, m, io, now).0; Safety.Enforced(e.config, r.books, r.breaker, m, true)
  {
    var a := ApplyTrade(e, Settlement, t, m, now);
    Safety.BreachedCapsStopTrading(e, Settlement, t, m, now);
    SettlementKeepsState(e, t, m, io, now);
    HaltKeepsEnforced(e.config, a.books, a.breaker, m, PERSIST_FAILED, now);
    HaltKeepsEnforced(e.config, a.books, a.breaker, m, AUDIT_FAILED, now);
    HaltKeepsEnforced(e.config, a.books, a.breaker, m, BLACKLIST_PERSIST, now);
  }

  /** The losses of the postings that the period's window covers after the run. */
  ghost function LossInWindow(period: Period, e: Engine, evs: seq<Event>): real {
    var w := Covered(period, StartOf(period, e.books), Journal(e.applied, evs));
    BaseOf(period, e.books, w).loss + SumOf(LossOf, w.postings)
  }

  /** The largest loss of one posting that the day covers after the run. */
  ghost function LargestLossOfDay(e: Engine, evs: seq<Event>): real {
    var w := Covered(DayPeriod, StartOf(DayPeriod, e.books), Journal(e.applied, evs));
    Largest(BaseOf(DayPeriod, e.books, w).maxSingleLoss, LossOf, w.postings)
  }

  lemma RunLast(e: Engine, evs: seq<Event>, ev: Event)
    ensures Run(e, evs + [ev]) == Step(Run(e, evs), ev).0
  {
    assert (evs + [ev])[..|evs|] == evs;
  }

  lemma LossesShow(e: Engine, evs: seq<Event>)
    ensures Run(e, evs).books.daily.stats.loss == LossInWindow(DayPeriod, e, evs)
    ensures Run(e, evs).books.weekly.stats.loss == LossInWindow(WeekPeriod, e, evs)
    ensures Run(e, evs).books.hourly.stats.loss == LossInWindow(HourPeriod, e, evs)
  {
    WindowsHoldJournal(DayPeriod, e, evs);
    WindowsHoldJournal(WeekPeriod, e, evs);
    WindowsHoldJournal(HourPeriod, e, evs);
  }

  lemma LargestLossShows(e: Engine, evs: seq<Event>)
    requires e.books.daily.stats.maxSingleLoss >= 0.0
    ensures Run(e, evs).books.daily.stats.maxSingleLoss == LargestLossOfDay(e, evs)
  {
    WindowsHoldJournal(DayPeriod, e, evs);
  }

  /** Over every run that ends in an applied settlement: losses since the week began that reach the weekly cap
      leave the breaker halted at System, a day's losses or one loss of the day that reach theirs leave it halted
      at Daily or above, and an hour's losses that reach theirs at least stop trading. */
  lemma LossesOfRunStopTrading(e: Engine, evs: seq<Event>, t: Trade, m: Metrics, io: SettleIo, at: int)
    requires BR.SessionOnly(e.breaker) && Applies(t, io) && e.books.daily.stats.maxSingleLoss >= 0.0
    ensures var all := evs + [SettleEvent(t, m, io, at)];
            var c, b := Run(e, evs).config, Run(e, all).breaker;
      && (LossInWindow(WeekPeriod, e, all) >= c.maxWeeklyLoss ==> BR.HaltedAtLeast(b, CB.System))
      && (LossInWindow(DayPeriod, e, all) >= c.maxDailyLoss ==> BR.HaltedAtLeast(b, CB.Daily))
      && (LargestLossOfDay(e, all) >= c.maxSingleLoss ==> BR.HaltedAtLeast(b, CB.Daily))
      && (LossInWindow(HourPeriod, e, all) >= c.maxHourlyLoss ==> !b.state.AllowsTrading())
  {
    var all := evs + [SettleEvent(t, m, io, at)];
    RunLast(e, evs, SettleEvent(t, m, io, at));
    Safety.OnlySessionFaultsRecover(e, evs);
    SettlementEnforces(Run(e, evs), t, m, io, at);
    LossesShow(e, all);
    LargestLossShows(e, all);
  }

  lemma WeeklyLossBooked(b: Books, t: Trade, at: int)
    requires b.weekly.stats.loss >= 0.0
    ensures BookSettlement(b, t, at).weekly.stats.loss >= LossOf(PostSettlement(t, at))
  {
  }

  /** One settlement that loses at least the weekly cap leaves the breaker halted at System, whatever the store
      does. */
  lemma WeeklyCapInOneSettlement(e: Engine, t: Trade, m: Metrics, io: SettleIo, now: int)
    requires BR.SessionOnly(e.breaker) && e.books.weekly.stats.loss >= 0.0
    requires t.netProfit.Some? && -t.netProfit.value >= e.config.maxWeeklyLoss
    ensures BR.HaltedAtLeast(OnSettlement(e, t, m, io, now).0.breaker, CB.System)
  {
    if Applies(t, io) {
      WeeklyLossBooked(e.books, t, now);
      SettlementEnforces(e, t, m, io, now);
      SettlementKeepsState(e, t, m, io, now);
    }
  }
}
