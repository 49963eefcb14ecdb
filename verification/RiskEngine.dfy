/** The risk engine as an object: every public operation updates the subsystems in place, in the
    order of the source, and is proved to perform the transition of `RiskEngineModel`. */
module RiskEngines {
  import opened MachineInts
  import opened PotentialLosses
  import opened Accounting
  import opened Drawdowns
  import M = RiskEngineModel
  import CB = CircuitBreakers
  import BL = Blacklists

  /** What a fill captures before it is applied. */
  datatype MutableRiskState = MutableRiskState(
    breaker: CB.Breaker,
    daily: Daily,
    weekly: Weekly,
    hourly: Hourly,
    ledger: Ledger,
    drawdown: Drawdown,
    version: u64)

  function Captured(e: M.Engine): MutableRiskState {
    MutableRiskState(e.breaker, e.books.daily, e.books.weekly, e.books.hourly, e.books.ledger, e.drawdown, e.version)
  }

  class RiskEngine {
    var config: M.RiskConfig
    const breaker: CB.CircuitBreaker
    const daily: DailyAccounting
    const weekly: WeeklyAccounting
    const hourly: HourlyAccounting
    const ledger: PotentialLossLedger
    const blacklist: BL.BlacklistManager
    var lifetime: real
    const drawdown: DrawdownGuard
    var version: u64
    var lastEmergency: Option<(int, string)>
    var published: M.RiskSnapshot
    var bloom: BL.Snapshot
    /** Trades whose fill marker is durable. */
    var markers: set<TradeId>

    ghost predicate Valid()
      reads this, blacklist
    {
      && blacklist.policy == config.autoBlacklist
      && BL.Projects(bloom, published.blacklist, published.at)
    }

    ghost function Value(): M.Engine
      reads this, breaker, daily, weekly, hourly, ledger, drawdown, blacklist
    {
      M.Engine(
        config, breaker.Value(),
        M.Books(daily.window, weekly.window, hourly.window, ledger.Value(), lifetime),
        drawdown.Value(), blacklist.entries, version, lastEmergency, published, markers)
    }

    /** Assemble the subsystems of `e` and publish, as the builder does last. */
    constructor (e: M.Engine, now: int)
      ensures Valid() && Value() == M.Publish(e, now)
      ensures fresh(breaker) && fresh(daily) && fresh(weekly) && fresh(hourly) && fresh(ledger)
      ensures fresh(drawdown) && fresh(blacklist)
    {
      var manager := new BL.BlacklistManager([], e.config.autoBlacklist, now);
      manager.entries := e.blacklist;
      var projection := manager.BuildSnapshot(e.published.at);
      config := e.config;
      breaker := new CB.CircuitBreaker(e.breaker);
      daily := new DailyAccounting(e.books.daily);
      weekly := new WeeklyAccounting(e.books.weekly);
      hourly := new HourlyAccounting(e.books.hourly);
      ledger := new PotentialLossLedger(e.books.ledger);
      blacklist := manager;
      lifetime := e.books.lifetime;
      drawdown := new DrawdownGuard(e.drawdown);
      version := e.version;
      lastEmergency := e.lastEmergency;
      published := e.published.(blacklist := e.blacklist);
      bloom := projection;
      markers := e.applied;
      new;
      PublishSnapshot(now);
    }

    method PublishSnapshot(now: int)
      requires Valid()
      modifies this`published, this`bloom
      ensures Valid() && Value() == M.Publish(old(Value()), now)
    {
      var b := blacklist.BuildSnapshot(now);
      published := M.RiskSnapshot(
        breaker.state.AllowsTrading(), breaker.state.IsProbeMode(),
        if breaker.state.Halted? then Some(breaker.state.reason) else None,
        daily.window.stats.loss, daily.window.stats.fees, daily.window.stats.pnl, daily.window.budgetRemaining,
        weekly.window.stats.loss, hourly.window.stats.loss, hourly.window.stats.fees,
        Drawdown(drawdown.hwm, config.maxDrawdownPct, config.drawdownReduction),
        ledger.runningTotal, blacklist.entries, now);
      bloom := b;
    }

    method HaltInternal(reason: string, now: int)
      requires Valid()
      modifies this`published, this`bloom, breaker
      ensures Valid() && Value() == M.HaltInternal(old(Value()), reason, now)
    {
      breaker.HaltAt(CB.System, reason, now);
      PublishSnapshot(now);
    }

    method BumpVersion()
      modifies this`version
      ensures Value() == M.Bump(old(Value()))
    {
      version := WrapU64(version + 1);
    }

    /** The hot path's gate, read from the published snapshot. */
    method AllowsTrading() returns (allowed: bool)
      ensures allowed == Value().published.AllowsTrading()
    {
      allowed := published.breakerAllows && published.manualHalt.None?;
    }

    // ── Trade results ────────────────────────────────────────────────────────

    method RecordWindows(profit: real, fees: real, cost: real, outcome: Outcome, now: int)
      modifies daily, weekly, hourly
      ensures daily.window == RecordDaily(old(daily.window), profit, fees, cost, outcome, now)
      ensures weekly.window == RecordWeekly(old(weekly.window), profit, fees, outcome, now)
      ensures hourly.window == RecordHourly(old(hourly.window), profit, fees, outcome, now)
    {
      var _ := daily.RecordTrade(profit, fees, cost, outcome, now);
      var _ := weekly.RecordTrade(profit, fees, outcome, now);
      var _ := hourly.RecordTrade(profit, fees, outcome, now);
    }

    method ApplyFill(t: M.Trade, now: int)
      modifies daily, weekly, hourly, ledger
      ensures Value() == old(Value()).(books := M.BookFill(old(Value()).books, t, now))
    {
      RecordWindows(0.0, t.fee, t.cost, t.outcome, now);
      if t.outcome.Success? {
        ledger.Record(Entry(t.id, t.cost + t.fee, true, now, None));
      }
    }

    method ApplySettlement(t: M.Trade, now: int)
      modifies this`lifetime, daily, weekly, hourly, ledger
      ensures Value() == old(Value()).(books := M.BookSettlement(old(Value()).books, t, now))
    {
      var profit := if t.netProfit.Some? then t.netProfit.value else 0.0;
      lifetime := lifetime + profit;
      RecordWindows(profit, 0.0, 0.0, t.outcome, now);
      ledger.Settle(t.id, now);
    }

    method HaltWhen(c: bool, level: CB.Level, reason: string, now: int)
      modifies breaker
      ensures breaker.Value() == M.HaltIf(c, old(breaker.Value()), level, reason, now)
    {
      if c {
        breaker.HaltAt(level, reason, now);
      }
    }

    method TripWhen(c: bool, reason: string, now: int)
      modifies breaker
      ensures breaker.Value() == M.TripIf(c, old(breaker.Value()), reason, now)
    {
      if c {
        breaker.TripTo(CB.Session, reason, now);
      }
    }

    method CheckLossCaps(now: int) returns (highest: Option<CB.Level>)
      modifies breaker
      ensures Value() == old(Value()).(
        breaker := M.CheckLossCaps(config, old(Value()).books, old(Value()).breaker, now))
      ensures highest == M.LossCapLevel(config, old(Value()).books)
    {
      var dailyLoss := daily.window.stats.loss >= config.maxDailyLoss;
      HaltWhen(dailyLoss, CB.Daily, M.DAILY_CAP, now);
      highest := M.Escalate(None, dailyLoss, CB.Daily);
      var weeklyLoss := weekly.window.stats.loss >= config.maxWeeklyLoss;
      HaltWhen(weeklyLoss, CB.System, M.WEEKLY_CAP, now);
      highest := M.Escalate(highest, weeklyLoss, CB.System);
      var singleLoss := daily.window.stats.maxSingleLoss >= config.maxSingleLoss;
      HaltWhen(singleLoss, CB.Daily, M.SINGLE_CAP, now);
      highest := M.Escalate(highest, singleLoss, CB.Daily);
      var dailyFees := daily.window.stats.fees >= config.maxDailyFees;
      HaltWhen(dailyFees, CB.Daily, M.DAILY_FEE_CAP, now);
      highest := M.Escalate(highest, dailyFees, CB.Daily);
      var hourlyLoss := hourly.window.stats.loss >= config.maxHourlyLoss;
      TripWhen(hourlyLoss, M.HOURLY_CAP, now);
      highest := M.Escalate(highest, hourlyLoss, CB.Session);
    }

    method ReportProbe(t: M.Trade, now: int)
      modifies breaker
      ensures breaker.Value() ==
        if old(breaker.state.IsProbeMode()) then CB.OnTradeResult(old(breaker.Value()), t.outcome.Success?, now)
        else old(breaker.Value())
    {
      if breaker.state.IsProbeMode() {
        breaker.ReportTrade(t.outcome.Success?, now);
      }
    }

    method ApplyCommonChecks(t: M.Trade, m: M.Metrics, now: int) returns (tripped: Option<CB.Level>)
      modifies drawdown, breaker
      ensures Value() == old(Value()).(
        breaker := M.CommonChecks(config, old(Value()).books, old(Value()).breaker, t, m, now),
        drawdown := old(Value()).drawdown.Raised(m.equity))
      ensures tripped == M.CommonCheckLevel(config, old(Value()).books, m)
    {
      ReportProbe(t, now);
      drawdown.UpdateEquity(m.equity);
      tripped := CheckCommonCaps(m, now);
    }

    method CheckCommonCaps(m: M.Metrics, now: int) returns (tripped: Option<CB.Level>)
      modifies breaker
      ensures breaker.Value() == M.CommonCaps(config, Value().books, old(breaker.Value()), m, now)
      ensures tripped == M.CommonCheckLevel(config, Value().books, m)
    {
      tripped := None;
      var misses := m.misses >= config.maxConsecutiveMisses;
      TripWhen(misses, M.MISSES, now);
      if misses {
        tripped := Some(CB.Session);
      }
      var dailyFees := daily.window.stats.fees >= config.maxDailyFees;
      HaltWhen(dailyFees, CB.Daily, M.DAILY_FEE_CAP, now);
      if dailyFees {
        tripped := Some(CB.Daily);
      }
      var hourlyFees := hourly.window.stats.fees >= config.maxHourlyFees;
      var apiErrors := M.TooManyApiErrors(config, m);
      tripped := TripSession(tripped, hourlyFees, M.HOURLY_FEE_CAP, now);
      tripped := TripSession(tripped, apiErrors, M.API_ERRORS, now);
    }

    method TripSession(current: Option<CB.Level>, c: bool, reason: string, now: int) returns (tripped: Option<CB.Level>)
      modifies breaker
      ensures breaker.Value() == M.TripIf(c, old(breaker.Value()), reason, now)
      ensures tripped == M.Escalate(current, c, CB.Session)
    {
      TripWhen(c, reason, now);
      tripped := M.Escalate(current, c, CB.Session);
    }

    method ApplyTradeResult(phase: M.Phase, t: M.Trade, m: M.Metrics, now: int)
      returns (tripped: Option<CB.Level>, autoAdded: bool)
      requires Valid()
      modifies this, breaker, daily, weekly, hourly, ledger, drawdown, blacklist`entries
      ensures Valid() && Value() == M.ApplyTrade(old(Value()), phase, t, m, now)
      ensures tripped == M.TrippedLevel(old(Value()), phase, t, m, now)
      ensures autoAdded == M.AutoBlacklists(old(Value()), t, m)
    {
      autoAdded := false;
      tripped := None;
      if phase.Fill? {
        ApplyFill(t, now);
      } else {
        ApplySettlement(t, now);
        tripped := CheckLossCaps(now);
      }
      if t.outcome.Miss? {
        var entry := blacklist.AutoBlacklist(t.market, m.misses, now);
        autoAdded := entry.Some?;
      }
      var common := ApplyCommonChecks(t, m, now);
      tripped := M.MergeLevels(tripped, common);
      BumpVersion();
      PublishSnapshot(now);
    }

    method FollowUp(tripped: Option<CB.Level>, autoAdded: bool, blacklistOk: bool, now: int) returns (r: M.Reply)
      requires Valid()
      modifies this, breaker
      ensures Valid() && (Value(), r) == M.FollowUp(old(Value()), tripped, autoAdded, blacklistOk, now)
    {
      if tripped.Some? {
        var reason := if breaker.state.Open? || breaker.state.Halted? then breaker.state.reason else M.CAP_BREACHED;
        lastEmergency := Some((now, reason));
      }
      if autoAdded && !blacklistOk {
        HaltInternal(M.BLACKLIST_PERSIST, now);
        return M.Error;
      }
      return M.Done;
    }

    method CaptureMutableState() returns (s: MutableRiskState)
      ensures s == Captured(Value())
    {
      var b := breaker.Capture();
      var l := ledger.Capture();
      var d := drawdown.Capture();
      s := MutableRiskState(b, daily.window, weekly.window, hourly.window, l, d, version);
    }

    /** Put back the state captured from `before`. */
    method RestoreMutableState(s: MutableRiskState, ghost before: M.Engine, now: int)
      requires Valid() && s == Captured(before)
      modifies this, breaker, daily, weekly, hourly, ledger, drawdown
      ensures Valid() && Value() == M.Restore(old(Value()), before, now)
    {
      breaker.Restore(s.breaker);
      daily.window, weekly.window, hourly.window := s.daily, s.weekly, s.hourly;
      ledger.Restore(s.ledger);
      drawdown.Restore(s.drawdown);
      version := s.version;
      PublishSnapshot(now);
    }

    /** Claim, apply, then commit or roll back. */
    method OnFill(t: M.Trade, m: M.Metrics, io: M.FillIo, now: int) returns (r: M.Reply)
      requires Valid()
      modifies this, breaker, daily, weekly, hourly, ledger, drawdown, blacklist`entries
      ensures Valid() && (Value(), r) == M.OnFill(old(Value()), t, m, io, now)
    {
      if !io.claimOk {
        HaltInternal(M.CLAIM_FAILED, now);
        return M.Error;
      }
      if t.id in markers {
        return M.AlreadyApplied;
      }
      ghost var before := Value();
      var captured := CaptureMutableState();
      var tripped, autoAdded := ApplyTradeResult(M.Fill, t, m, now);
      if !io.commitOk {
        RestoreMutableState(captured, before, now);
        HaltInternal(M.COMMIT_FAILED, now);
        return M.Error;
      }
      markers := markers + {t.id};
      r := FollowUp(tripped, autoAdded, io.blacklistOk, now);
    }

    method PersistAndAudit(upsertOk: bool, auditOk: bool, now: int) returns (r: M.Reply)
      requires Valid()
      modifies this`published, this`bloom, breaker
      ensures Valid() && (Value(), r) == M.PersistAndAudit(old(Value()), upsertOk, auditOk, now)
    {
      if !upsertOk {
        HaltInternal(M.PERSIST_FAILED, now);
        return M.Error;
      }
      if !auditOk {
        HaltInternal(M.AUDIT_FAILED, now);
        return M.Error;
      }
      return M.Done;
    }

    method OnSettlement(t: M.Trade, m: M.Metrics, io: M.SettleIo, now: int) returns (r: M.Reply)
      requires Valid()
      modifies this, breaker, daily, weekly, hourly, ledger, drawdown, blacklist`entries
      ensures Valid() && (Value(), r) == M.OnSettlement(old(Value()), t, m, io, now)
    {
      if t.outcome.Success? && !io.resolveOk {
        HaltInternal(M.RESOLVE_FAILED, now);
        return M.Error;
      }
      var tripped, autoAdded := ApplyTradeResult(M.Settlement, t, m, now);
      r := PersistAndAudit(io.upsertOk, io.auditOk, now);
      if !r.Error? {
        r := FollowUp(tripped, autoAdded, io.blacklistOk, now);
      }
    }

    // ── Tick ─────────────────────────────────────────────────────────────────

    /** Breaker tick, window rollovers and blacklist collection; reports whether any of the first two changed. */
    method Advance(now: int) returns (changed: bool)
      requires Valid()
      modifies breaker, daily, weekly, hourly, blacklist`entries
      ensures Valid() && Value() == M.Advance(old(Value()), now)
      ensures changed == M.TickChanges(old(Value()), now)
    {
      var transitioned := breaker.TickAt(now);
      var dailyRolled := daily.MaybeRollover(now);
      var weeklyRolled := weekly.MaybeRollover(now);
      var hourlyRolled := hourly.MaybeRollover(now);
      var _ := blacklist.Gc(now);
      changed := transitioned || dailyRolled || weeklyRolled || hourlyRolled;
    }

    method Tick(io: M.TickIo, now: int) returns (r: M.Reply)
      requires Valid()
      modifies this, breaker, daily, weekly, hourly, blacklist`entries
      ensures Valid() && (Value(), r) == M.OnTick(old(Value()), io, now)
    {
      var changed := Advance(now);
      if io.stale.None? {
        return M.Error;
      }
      if io.stale.value > 0 {
        HaltInternal(M.STALE_LOSSES, now);
        lastEmergency := Some((now, M.STALE_LOSSES));
        return if io.emergencyOk then M.Done else M.Error;
      }
      if changed {
        PublishSnapshot(now);
        if !io.upsertOk {
          HaltInternal(M.TICK_PERSIST, now);
          return M.Error;
        }
      }
      return M.Done;
    }

    // ── Reconciliation and operator calls ────────────────────────────────────

    method OnReconciliation(critical: bool, io: M.ReconcileIo, now: int) returns (r: M.Reply)
      requires Valid()
      modifies this, breaker
      ensures Valid() && (Value(), r) == M.OnReconciliation(old(Value()), critical, io, now)
    {
      if !io.createOk {
        HaltInternal(M.REPORT_PERSIST, now);
        return M.Error;
      }
      if !io.auditOk {
        HaltInternal(M.RECONCILE_AUDIT, now);
        return M.Error;
      }
      if critical {
        breaker.HaltAt(CB.System, M.CRITICAL_DRIFT, now);
        BumpVersion();
        PublishSnapshot(now);
        if !io.upsertOk {
          HaltInternal(M.RECONCILE_PERSIST, now);
          return M.Error;
        }
        lastEmergency := Some((now, M.CRITICAL_DRIFT));
      }
      return M.Done;
    }

    method AcknowledgeAndResume(auditOk: bool, now: int) returns (r: M.Reply)
      requires Valid()
      modifies this, breaker
      ensures Valid() && (Value(), r) == M.Acknowledge(old(Value()), auditOk, now)
    {
      var _ := breaker.Acknowledge(now);
      BumpVersion();
      PublishSnapshot(now);
      if !auditOk {
        HaltInternal(M.RESUME_AUDIT, now);
        return M.Error;
      }
      return M.Done;
    }

    method ResetCircuitBreaker(upsertOk: bool, auditOk: bool, now: int) returns (r: M.Reply)
      requires Valid()
      modifies this, breaker
      ensures Valid() && (Value(), r) == M.ResetBreaker(old(Value()), upsertOk, auditOk, now)
    {
      breaker.ResetTo(now);
      BumpVersion();
      PublishSnapshot(now);
      r := PersistAndAudit(upsertOk, auditOk, now);
    }

    method AddBlacklist(market: BL.Id, reason: BL.Reason, io: M.BlacklistIo, now: int) returns (r: M.Reply)
      requires Valid()
      modifies this, breaker, blacklist`entries
      ensures Valid() && (Value(), r) == M.AddBlacklist(old(Value()), market, reason, io, now)
    {
      blacklist.Permanent(market, reason, now);
      if !io.storeOk {
        HaltInternal(M.BLACKLIST_STORE, now);
        return M.Error;
      }
      BumpVersion();
      PublishSnapshot(now);
      r := PersistAndAudit(io.upsertOk, io.auditOk, now);
    }

    method RemoveBlacklist(market: BL.Id, io: M.BlacklistIo, now: int) returns (r: M.Reply)
      requires Valid()
      modifies this, breaker, blacklist`entries
      ensures Valid() && (Value(), r) == M.RemoveBlacklist(old(Value()), market, io, now)
    {
      var _ := blacklist.Delete(market);
      if !io.storeOk {
        HaltInternal(M.BLACKLIST_REMOVE, now);
        return M.Error;
      }
      BumpVersion();
      PublishSnapshot(now);
      r := PersistAndAudit(io.upsertOk, io.auditOk, now);
    }

    method ResolvePotentialLoss(id: TradeId, upsertOk: bool, now: int) returns (r: M.Reply)
      requires Valid()
      modifies this, breaker, ledger
      ensures Valid() && (Value(), r) == M.ResolveLoss(old(Value()), id, upsertOk, now)
    {
      ledger.Settle(id, now);
      BumpVersion();
      PublishSnapshot(now);
      if !upsertOk {
        HaltInternal(M.RESOLVE_PERSIST, now);
        return M.Error;
      }
      return M.Done;
    }

    method Reload(c: M.RiskConfig, now: int)
      requires Valid()
      modifies this, breaker, daily, drawdown, blacklist
      ensures Valid() && Value() == M.Reload(old(Value()), c, now)
    {
      breaker.SetConfig(c.breaker);
      drawdown.SetParams(c.maxDrawdownPct, c.drawdownReduction);
      daily.ChangeBudget(c.dailyBudget);
      blacklist.policy := c.autoBlacklist;
      blacklist.MergePermanentEntries(c.permanentKeys, now);
      config := c;
      BumpVersion();
      PublishSnapshot(now);
    }

    // ── Execution events ─────────────────────────────────────────────────────

    method OnHeartbeatFailure(now: int)
      requires Valid()
      modifies this, breaker
      ensures Valid() && Value() == M.HeartbeatFailed(old(Value()), now)
    {
      var tripped := breaker.OnHeartbeatFailure(config.heartbeatMaxFailures, now);
      if tripped {
        BumpVersion();
        PublishSnapshot(now);
      }
    }

    method OnHeartbeatSuccess()
      requires Valid()
      modifies breaker
      ensures Valid() && Value() == M.HeartbeatOk(old(Value()))
    {
      breaker.OnHeartbeatSuccess();
    }

    method OnFokFailure(consecutive: u32, now: int)
      requires Valid()
      modifies this, breaker
      ensures Valid() && Value() == M.FokFailed(old(Value()), consecutive, now)
    {
      if consecutive >= config.maxConsecutiveMisses {
        breaker.TripTo(CB.Session, M.FOK_FAILURES, now);
        BumpVersion();
        PublishSnapshot(now);
      }
    }
  }
}
