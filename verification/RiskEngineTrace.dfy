/** What the engine does to its circuit breaker: every engine step is a short run of breaker events, decided
    by the event and the persistence results.  A rolled-back fill leaves only its halt in the trace. */
module RiskEngineTrace {
  import opened MachineInts
  import opened RiskEngineModel
  import CB = CircuitBreakers
  import BL = Blacklists
  import BR = BreakerRuns

  function HaltAs(c: bool, level: CB.Level, reason: string, now: int): seq<BR.Event> {
    if c then [BR.HaltEvent(level, reason, now)] else []
  }

  function TripAs(c: bool, reason: string, now: int): seq<BR.Event> {
    if c then [BR.TripEvent(CB.Session, reason, now)] else []
  }

  function CapTrace(c: RiskConfig, books: Books, now: int): seq<BR.Event> {
    HaltAs(DailyLossBreached(c, books), CB.Daily, DAILY_CAP, now)
    + HaltAs(WeeklyLossBreached(c, books), CB.System, WEEKLY_CAP, now)
    + HaltAs(SingleLossBreached(c, books), CB.Daily, SINGLE_CAP, now)
    + HaltAs(DailyFeesBreached(c, books), CB.Daily, DAILY_FEE_CAP, now)
    + TripAs(HourlyLossBreached(c, books), HOURLY_CAP, now)
  }

  function CommonTrace(c: RiskConfig, books: Books, t: Trade, m: Metrics, now: int): seq<BR.Event> {
    [BR.TradeEvent(t.outcome.Success?, now)]
    + TripAs(TooManyMisses(c, m), MISSES, now)
    + HaltAs(DailyFeesBreached(c, books), CB.Daily, DAILY_FEE_CAP, now)
    + TripAs(HourlyFeesBreached(c, books), HOURLY_FEE_CAP, now)
    + TripAs(TooManyApiErrors(c, m), API_ERRORS, now)
  }

  function TradeTrace(e: Engine, phase: Phase, t: Trade, m: Metrics, now: int): seq<BR.Event> {
    var books := if phase.Fill? then BookFill(e.books, t, now) else BookSettlement(e.books, t, now);
    (if phase.Fill? then [] else CapTrace(e.config, books, now)) + CommonTrace(e.config, books, t, m, now)
  }

  function HaltOne(reason: string, now: int): seq<BR.Event> { HaltAs(true, CB.System, reason, now) }

  function FillTrace(e: Engine, t: Trade, m: Metrics, io: FillIo, now: int): seq<BR.Event> {
    if !io.claimOk then HaltOne(CLAIM_FAILED, now)
    else if t.id in e.applied then []
    else if !io.commitOk then HaltOne(COMMIT_FAILED, now)
    else
      TradeTrace(e, Fill, t, m, now)
      + HaltAs(AutoBlacklists(e, t, m) && !io.blacklistOk, CB.System, BLACKLIST_PERSIST, now)
  }

  function PersistTrace(upsertOk: bool, auditOk: bool, now: int): seq<BR.Event> {
    if !upsertOk then HaltOne(PERSIST_FAILED, now)
    else HaltAs(!auditOk, CB.System, AUDIT_FAILED, now)
  }

  function SettlementTrace(e: Engine, t: Trade, m: Metrics, io: SettleIo, now: int): seq<BR.Event> {
    if t.outcome.Success? && !io.resolveOk then HaltOne(RESOLVE_FAILED, now)
    else
      TradeTrace(e, Settlement, t, m, now)
      + if !io.upsertOk || !io.auditOk then PersistTrace(io.upsertOk, io.auditOk, now)
        else HaltAs(AutoBlacklists(e, t, m) && !io.blacklistOk, CB.System, BLACKLIST_PERSIST, now)
  }

  function TickTrace(e: Engine, io: TickIo, now: int): seq<BR.Event> {
    [BR.TickEvent(now)]
    + if io.stale.None? then []
      else if io.stale.value > 0 then HaltOne(STALE_LOSSES, now)
      else HaltAs(TickChanges(e, now) && !io.upsertOk, CB.System, TICK_PERSIST, now)
  }

  function ReconciliationTrace(critical: bool, io: ReconcileIo, now: int): seq<BR.Event> {
    if !io.createOk then HaltOne(REPORT_PERSIST, now)
    else if !io.auditOk then HaltOne(RECONCILE_AUDIT, now)
    else if !critical then []
    else HaltOne(CRITICAL_DRIFT, now) + HaltAs(!io.upsertOk, CB.System, RECONCILE_PERSIST, now)
  }

  function BlacklistTrace(failure: string, io: BlacklistIo, now: int): seq<BR.Event> {
    if !io.storeOk then HaltOne(failure, now) else PersistTrace(io.upsertOk, io.auditOk, now)
  }

  /** The breaker events of one engine event. */
  function Trace(e: Engine, ev: Event): seq<BR.Event> {
    match ev
    case FillEvent(t, m, io, at) => FillTrace(e, t, m, io, at)
    case SettleEvent(t, m, io, at) => SettlementTrace(e, t, m, io, at)
    case TickEvent(io, at) => TickTrace(e, io, at)
    case ReconcileEvent(critical, io, at) => ReconciliationTrace(critical, io, at)
    case HaltEvent(reason, at) => HaltOne(reason, at)
    case AckEvent(auditOk, at) => [BR.AckEvent(at)] + HaltAs(!auditOk, CB.System, RESUME_AUDIT, at)
    case ResetEvent(upsertOk, auditOk, at) => [BR.ResetEvent(at)] + PersistTrace(upsertOk, auditOk, at)
    case AddBlacklistEvent(_, _, io, at) => BlacklistTrace(BLACKLIST_STORE, io, at)
    case RemoveBlacklistEvent(_, io, at) => BlacklistTrace(BLACKLIST_REMOVE, io, at)
    case ResolveEvent(_, upsertOk, at) => HaltAs(!upsertOk, CB.System, RESOLVE_PERSIST, at)
    case ReloadEvent(c, _) => [BR.ReloadEvent(c.breaker)]
    case HeartbeatFailedEvent(at) => [BR.HeartbeatEvent(e.config.heartbeatMaxFailures, at)]
    case HeartbeatOkEvent => [BR.HeartbeatOkEvent]
    case FokFailedEvent(n, at) => TripAs(n >= e.config.maxConsecutiveMisses, FOK_FAILURES, at)
  }

  function FullTrace(e: Engine, evs: seq<Event>): seq<BR.Event> {
    if evs == [] then []
    else
      var before := evs[..|evs| - 1];
      FullTrace(e, before) + Trace(Run(e, before), evs[|evs| - 1])
  }

  // ── The trace is what happens ──────────────────────────────────────────────

  lemma ThenHalt(b: CB.Breaker, es: seq<BR.Event>, c: bool, level: CB.Level, reason: string, now: int)
    ensures BR.Run(b, es + HaltAs(c, level, reason, now)) == HaltIf(c, BR.Run(b, es), level, reason, now)
  {
    BR.RunAppend(b, es, HaltAs(c, level, reason, now));
    if c { BR.RunOne(BR.Run(b, es), BR.HaltEvent(level, reason, now)); }
  }

  lemma ThenTrip(b: CB.Breaker, es: seq<BR.Event>, c: bool, reason: string, now: int)
    ensures BR.Run(b, es + TripAs(c, reason, now)) == TripIf(c, BR.Run(b, es), reason, now)
  {
    BR.RunAppend(b, es, TripAs(c, reason, now));
    if c { BR.RunOne(BR.Run(b, es), BR.TripEvent(CB.Session, reason, now)); }
  }

  lemma CapTraceRuns(c: RiskConfig, books: Books, b: CB.Breaker, now: int)
    ensures BR.Run(b, CapTrace(c, books, now)) == CheckLossCaps(c, books, b, now)
  {
    LossHaltsRun(b, DailyLossBreached(c, books), WeeklyLossBreached(c, books), SingleLossBreached(c, books), now);
    var e3 := LossHalts(DailyLossBreached(c, books), WeeklyLossBreached(c, books), SingleLossBreached(c, books), now);
    var e4 := e3 + HaltAs(DailyFeesBreached(c, books), CB.Daily, DAILY_FEE_CAP, now);
    ThenHalt(b, e3, DailyFeesBreached(c, books), CB.Daily, DAILY_FEE_CAP, now);
    ThenTrip(b, e4, HourlyLossBreached(c, books), HOURLY_CAP, now);
  }

  /** The first three caps. */
  function LossHalts(daily: bool, weekly: bool, single: bool, now: int): seq<BR.Event> {
    HaltAs(daily, CB.Daily, DAILY_CAP, now) + HaltAs(weekly, CB.System, WEEKLY_CAP, now)
    + HaltAs(single, CB.Daily, SINGLE_CAP, now)
  }

  lemma LossHaltsRun(b: CB.Breaker, daily: bool, weekly: bool, single: bool, now: int)
    ensures BR.Run(b, LossHalts(daily, weekly, single, now)) ==
      HaltIf(single, HaltIf(weekly, HaltIf(daily, b, CB.Daily, DAILY_CAP, now), CB.System, WEEKLY_CAP, now),
             CB.Daily, SINGLE_CAP, now)
  {
    var e1 := HaltAs(daily, CB.Daily, DAILY_CAP, now);
    var e2 := e1 + HaltAs(weekly, CB.System, WEEKLY_CAP, now);
    ThenHalt(b, [], daily, CB.Daily, DAILY_CAP, now);
    assert [] + e1 == e1;
    ThenHalt(b, e1, weekly, CB.System, WEEKLY_CAP, now);
    ThenHalt(b, e2, single, CB.Daily, SINGLE_CAP, now);
  }

  lemma CommonTraceRuns(c: RiskConfig, books: Books, b: CB.Breaker, t: Trade, m: Metrics, now: int)
    ensures BR.Run(b, CommonTrace(c, books, t, m, now)) == CommonChecks(c, books, b, t, m, now)
  {
    var e1 := [BR.TradeEvent(t.outcome.Success?, now)];
    var e2 := e1 + TripAs(TooManyMisses(c, m), MISSES, now);
    var e3 := e2 + HaltAs(DailyFeesBreached(c, books), CB.Daily, DAILY_FEE_CAP, now);
    var e4 := e3 + TripAs(HourlyFeesBreached(c, books), HOURLY_FEE_CAP, now);
    BR.RunOne(b, BR.TradeEvent(t.outcome.Success?, now));
    ThenTrip(b, e1, TooManyMisses(c, m), MISSES, now);
    ThenHalt(b, e2, DailyFeesBreached(c, books), CB.Daily, DAILY_FEE_CAP, now);
    ThenTrip(b, e3, HourlyFeesBreached(c, books), HOURLY_FEE_CAP, now);
    ThenTrip(b, e4, TooManyApiErrors(c, m), API_ERRORS, now);
  }

  lemma TradeTraceRuns(e: Engine, phase: Phase, t: Trade, m: Metrics, now: int)
    ensures BR.Run(e.breaker, TradeTrace(e, phase, t, m, now)) == ApplyTrade(e, phase, t, m, now).breaker
  {
    var books := if phase.Fill? then BookFill(e.books, t, now) else BookSettlement(e.books, t, now);
    var caps := if phase.Fill? then [] else CapTrace(e.config, books, now);
    CapTraceRuns(e.config, books, e.breaker, now);
    CommonTraceRuns(e.config, books, BR.Run(e.breaker, caps), t, m, now);
    BR.RunAppend(e.breaker, caps, CommonTrace(e.config, books, t, m, now));
  }

  lemma HaltRuns(b: CB.Breaker, c: bool, level: CB.Level, reason: string, now: int)
    ensures BR.Run(b, HaltAs(c, level, reason, now)) == HaltIf(c, b, level, reason, now)
  {
    if c { BR.RunOne(b, BR.HaltEvent(level, reason, now)); }
  }

  lemma FillTraceRuns(e: Engine, t: Trade, m: Metrics, io: FillIo, now: int)
    ensures BR.Run(e.breaker, FillTrace(e, t, m, io, now)) == OnFill(e, t, m, io, now).0.breaker
  {
    HaltRuns(e.breaker, true, CB.System, CLAIM_FAILED, now);
    HaltRuns(e.breaker, true, CB.System, COMMIT_FAILED, now);
    TradeTraceRuns(e, Fill, t, m, now);
    ThenHalt(e.breaker, TradeTrace(e, Fill, t, m, now), AutoBlacklists(e, t, m) && !io.blacklistOk, CB.System,
             BLACKLIST_PERSIST, now);
  }

  lemma ThenPersist(b: CB.Breaker, es: seq<BR.Event>, upsertOk: bool, auditOk: bool, now: int)
    ensures BR.Run(b, es + PersistTrace(upsertOk, auditOk, now)) ==
      if !upsertOk then CB.Halt(BR.Run(b, es), CB.System, PERSIST_FAILED, now)
      else HaltIf(!auditOk, BR.Run(b, es), CB.System, AUDIT_FAILED, now)
  {
    ThenHalt(b, es, true, CB.System, PERSIST_FAILED, now);
    ThenHalt(b, es, !auditOk, CB.System, AUDIT_FAILED, now);
  }

  lemma SettlementTraceRuns(e: Engine, t: Trade, m: Metrics, io: SettleIo, now: int)
    ensures BR.Run(e.breaker, SettlementTrace(e, t, m, io, now)) == OnSettlement(e, t, m, io, now).0.breaker
  {
    var trace := TradeTrace(e, Settlement, t, m, now);
    HaltRuns(e.breaker, true, CB.System, RESOLVE_FAILED, now);
    TradeTraceRuns(e, Settlement, t, m, now);
    ThenPersist(e.breaker, trace, io.upsertOk, io.auditOk, now);
    ThenHalt(e.breaker, trace, AutoBlacklists(e, t, m) && !io.blacklistOk, CB.System, BLACKLIST_PERSIST, now);
  }

  lemma TickTraceRuns(e: Engine, io: TickIo, now: int)
    ensures BR.Run(e.breaker, TickTrace(e, io, now)) == OnTick(e, io, now).0.breaker
  {
    var tick := [BR.TickEvent(now)];
    BR.RunOne(e.breaker, BR.TickEvent(now));
    assert tick + [] == tick;
    ThenHalt(e.breaker, tick, true, CB.System, STALE_LOSSES, now);
    ThenHalt(e.breaker, tick, TickChanges(e, now) && !io.upsertOk, CB.System, TICK_PERSIST, now);
  }

  lemma ReconciliationTraceRuns(e: Engine, critical: bool, io: ReconcileIo, now: int)
    ensures BR.Run(e.breaker, ReconciliationTrace(critical, io, now)) == OnReconciliation(e, critical, io, now).0.breaker
  {
    HaltRuns(e.breaker, true, CB.System, REPORT_PERSIST, now);
    HaltRuns(e.breaker, true, CB.System, RECONCILE_AUDIT, now);
    HaltRuns(e.breaker, true, CB.System, CRITICAL_DRIFT, now);
    ThenHalt(e.breaker, HaltOne(CRITICAL_DRIFT, now), !io.upsertOk, CB.System, RECONCILE_PERSIST, now);
  }

  lemma PersistTraceRuns(b: CB.Breaker, upsertOk: bool, auditOk: bool, now: int)
    ensures BR.Run(b, PersistTrace(upsertOk, auditOk, now)) ==
      if !upsertOk then CB.Halt(b, CB.System, PERSIST_FAILED, now)
      else HaltIf(!auditOk, b, CB.System, AUDIT_FAILED, now)
  {
    HaltRuns(b, true, CB.System, PERSIST_FAILED, now);
    HaltRuns(b, !auditOk, CB.System, AUDIT_FAILED, now);
  }

  lemma AckTraceRuns(e: Engine, auditOk: bool, now: int)
    ensures BR.Run(e.breaker, [BR.AckEvent(now)] + HaltAs(!auditOk, CB.System, RESUME_AUDIT, now))
      == Acknowledge(e, auditOk, now).0.breaker
  {
    BR.RunOne(e.breaker, BR.AckEvent(now));
    ThenHalt(e.breaker, [BR.AckEvent(now)], !auditOk, CB.System, RESUME_AUDIT, now);
  }

  lemma ResetTraceRuns(e: Engine, upsertOk: bool, auditOk: bool, now: int)
    ensures BR.Run(e.breaker, [BR.ResetEvent(now)] + PersistTrace(upsertOk, auditOk, now))
      == ResetBreaker(e, upsertOk, auditOk, now).0.breaker
  {
    BR.RunOne(e.breaker, BR.ResetEvent(now));
    ThenPersist(e.breaker, [BR.ResetEvent(now)], upsertOk, auditOk, now);
  }

  lemma BlacklistTraceRuns(e: Engine, es: BL.Entries, failure: string, io: BlacklistIo, now: int)
    ensures BR.Run(e.breaker, BlacklistTrace(failure, io, now)) == CommitBlacklist(e, es, failure, io, now).0.breaker
  {
    HaltRuns(e.breaker, true, CB.System, failure, now);
    PersistTraceRuns(e.breaker, io.upsertOk, io.auditOk, now);
  }

  /** One engine step moves the breaker along the trace of the step. */
  lemma StepTrace(e: Engine, ev: Event)
    ensures Step(e, ev).0.breaker == BR.Run(e.breaker, Trace(e, ev))
  {
    if TradingCall(ev) {
      TradingStepTrace(e, ev);
    } else if OperatorCall(ev) {
      OperatorStepTrace(e, ev);
    } else {
      UpkeepStepTrace(e, ev);
    }
  }

  lemma TradingStepTrace(e: Engine, ev: Event)
    requires TradingCall(ev)
    ensures Step(e, ev).0.breaker == BR.Run(e.breaker, Trace(e, ev))
  {
    match ev {
      case FillEvent(t, m, io, at) => FillTraceRuns(e, t, m, io, at);
      case SettleEvent(t, m, io, at) => SettlementTraceRuns(e, t, m, io, at);
      case TickEvent(io, at) => TickTraceRuns(e, io, at);
      case ReconcileEvent(critical, io, at) => ReconciliationTraceRuns(e, critical, io, at);
    }
  }

  lemma OperatorStepTrace(e: Engine, ev: Event)
    requires OperatorCall(ev)
    ensures Step(e, ev).0.breaker == BR.Run(e.breaker, Trace(e, ev))
  {
    match ev {
      case HaltEvent(reason, at) => HaltRuns(e.breaker, true, CB.System, reason, at);
      case AckEvent(auditOk, at) => AckTraceRuns(e, auditOk, at);
      case ResetEvent(upsertOk, auditOk, at) => ResetTraceRuns(e, upsertOk, auditOk, at);
      case AddBlacklistEvent(market, why, io, at) =>
        BlacklistTraceRuns(e, BL.AddPermanent(e.blacklist, market, why, at), BLACKLIST_STORE, io, at);
      case RemoveBlacklistEvent(market, io, at) =>
        BlacklistTraceRuns(e, BL.Remove(e.blacklist, market), BLACKLIST_REMOVE, io, at);
    }
  }

  lemma UpkeepStepTrace(e: Engine, ev: Event)
    requires !TradingCall(ev) && !OperatorCall(ev)
    ensures Step(e, ev).0.breaker == BR.Run(e.breaker, Trace(e, ev))
  {
    match ev {
      case ResolveEvent(_, upsertOk, at) => HaltRuns(e.breaker, !upsertOk, CB.System, RESOLVE_PERSIST, at);
      case ReloadEvent(c, _) => BR.RunOne(e.breaker, BR.ReloadEvent(c.breaker));
      case HeartbeatFailedEvent(at) => BR.RunOne(e.breaker, BR.HeartbeatEvent(e.config.heartbeatMaxFailures, at));
      case HeartbeatOkEvent => BR.RunOne(e.breaker, BR.HeartbeatOkEvent);
      case FokFailedEvent(n, at) => BR.RunOne(e.breaker, BR.TripEvent(CB.Session, FOK_FAILURES, at));
    }
  }

  /** Over every run the engine's breaker is the breaker after the run's trace. */
  lemma {:induction false} EngineRefinesBreaker(e: Engine, evs: seq<Event>)
    ensures Run(e, evs).breaker == BR.Run(e.breaker, FullTrace(e, evs))
  {
    if evs != [] {
      var before, ev := evs[..|evs| - 1], evs[|evs| - 1];
      EngineRefinesBreaker(e, before);
      StepTrace(Run(e, before), ev);
      BR.RunAppend(e.breaker, FullTrace(e, before), Trace(Run(e, before), ev));
    }
  }

  // ── What the engine asks of the breaker ────────────────────────────────────

  predicate OperatorRelease(ev: Event) { ev.AckEvent? || ev.ResetEvent? }

  /** No operator release, and no fault but Session faults. */
  ghost predicate Plain(es: seq<BR.Event>) { BR.SessionFaults(es) && BR.NoRelease(es) }

  lemma PlainChecks(c: RiskConfig, books: Books, t: Trade, m: Metrics, now: int)
    ensures Plain(CapTrace(c, books, now)) && Plain(CommonTrace(c, books, t, m, now))
  {
    var h1 := HaltAs(DailyLossBreached(c, books), CB.Daily, DAILY_CAP, now);
    var h2 := HaltAs(WeeklyLossBreached(c, books), CB.System, WEEKLY_CAP, now);
    var h3 := HaltAs(SingleLossBreached(c, books), CB.Daily, SINGLE_CAP, now);
    var h4 := HaltAs(DailyFeesBreached(c, books), CB.Daily, DAILY_FEE_CAP, now);
    PlainAppend(h1, h2);
    PlainAppend(h1 + h2, h3);
    PlainAppend(h1 + h2 + h3, h4);
    PlainAppend(h1 + h2 + h3 + h4, TripAs(HourlyLossBreached(c, books), HOURLY_CAP, now));
    var t0 := [BR.TradeEvent(t.outcome.Success?, now)];
    var t1 := TripAs(TooManyMisses(c, m), MISSES, now);
    var t2 := TripAs(HourlyFeesBreached(c, books), HOURLY_FEE_CAP, now);
    PlainAppend(t0, t1);
    PlainAppend(t0 + t1, h4);
    PlainAppend(t0 + t1 + h4, t2);
    PlainAppend(t0 + t1 + h4 + t2, TripAs(TooManyApiErrors(c, m), API_ERRORS, now));
  }

  lemma PlainAppend(xs: seq<BR.Event>, ys: seq<BR.Event>)
    requires Plain(xs) && Plain(ys)
    ensures Plain(xs + ys)
  {
  }

  lemma PlainTrade(e: Engine, phase: Phase, t: Trade, m: Metrics, now: int)
    ensures Plain(TradeTrace(e, phase, t, m, now))
  {
    var books := if phase.Fill? then BookFill(e.books, t, now) else BookSettlement(e.books, t, now);
    PlainChecks(e.config, books, t, m, now);
  }

  lemma PlainPersist(es: seq<BR.Event>, upsertOk: bool, auditOk: bool, now: int)
    ensures Plain(PersistTrace(upsertOk, auditOk, now))
    ensures BR.SessionFaults(es) ==> BR.SessionFaults(es + PersistTrace(upsertOk, auditOk, now))
  {
  }

  lemma PlainFill(e: Engine, t: Trade, m: Metrics, io: FillIo, now: int)
    ensures Plain(FillTrace(e, t, m, io, now))
  {
    PlainTrade(e, Fill, t, m, now);
  }

  lemma PlainSettlement(e: Engine, t: Trade, m: Metrics, io: SettleIo, now: int)
    ensures Plain(SettlementTrace(e, t, m, io, now))
  {
    PlainTrade(e, Settlement, t, m, now);
    PlainPersist([], io.upsertOk, io.auditOk, now);
  }

  lemma TraceShape(e: Engine, ev: Event)
    ensures BR.SessionFaults(Trace(e, ev))
    ensures !OperatorRelease(ev) ==> BR.NoRelease(Trace(e, ev))
  {
    if OperatorCall(ev) { OperatorShape(e, ev); } else { OtherShape(e, ev); }
  }

  lemma OperatorShape(e: Engine, ev: Event)
    requires OperatorCall(ev)
    ensures BR.SessionFaults(Trace(e, ev))
    ensures !OperatorRelease(ev) ==> BR.NoRelease(Trace(e, ev))
  {
    match ev {
      case ResetEvent(upsertOk, auditOk, at) => PlainPersist([BR.ResetEvent(at)], upsertOk, auditOk, at);
      case AddBlacklistEvent(_, _, io, at) => PlainPersist([], io.upsertOk, io.auditOk, at);
      case RemoveBlacklistEvent(_, io, at) => PlainPersist([], io.upsertOk, io.auditOk, at);
      case _ =>
    }
  }

  lemma OtherShape(e: Engine, ev: Event)
    requires !OperatorCall(ev)
    ensures BR.SessionFaults(Trace(e, ev)) && BR.NoRelease(Trace(e, ev))
  {
    match ev {
      case FillEvent(t, m, io, at) => PlainFill(e, t, m, io, at);
      case SettleEvent(t, m, io, at) => PlainSettlement(e, t, m, io, at);
      case _ =>
    }
  }

  lemma {:induction false} FullTraceShape(e: Engine, evs: seq<Event>)
    ensures BR.SessionFaults(FullTrace(e, evs))
    ensures (forall i :: 0 <= i < |evs| ==> !OperatorRelease(evs[i])) ==> BR.NoRelease(FullTrace(e, evs))
  {
    if evs != [] {
      FullTraceShape(e, evs[..|evs| - 1]);
      TraceShape(Run(e, evs[..|evs| - 1]), evs[|evs| - 1]);
    }
  }

  /** Over every engine run, reloads and rollbacks included, the counter counts the Session trips of the
      trace, no wait is longer than the largest configured maximum, and waiting states carry Session
      faults. */
  lemma EngineBounded(e: Engine, evs: seq<Event>)
    requires BR.Bounded(e.breaker, BR.LimitsAfter(e.breaker, []))
    ensures BR.Bounded(Run(e, evs).breaker, BR.LimitsAfter(e.breaker, FullTrace(e, evs)))
    ensures Run(e, evs).breaker.l2TripCount == WrapU32(BR.SessionTrips(e.breaker, FullTrace(e, evs)))
  {
    EngineRefinesBreaker(e, evs);
    FullTraceShape(e, evs);
    BR.RunBounded(e.breaker, FullTrace(e, evs));
    BR.TripCountTracksTrace(e.breaker, FullTrace(e, evs));
  }

  /** The back-off law at every trip inside every engine run: whatever part of a step's trace has gone
      before, the n-th Session trip since the counter was zero waits `min(max, base * 2^max(0, n - 2))`. */
  lemma EngineBackoff(e: Engine, evs: seq<Event>, ev: Event, i: nat, n: nat)
    requires var trace := Trace(Run(e, evs), ev); i < |trace| && trace[i].TripEvent?
    requires var lead := FullTrace(e, evs) + Trace(Run(e, evs), ev)[..i];
             1 <= n == BR.SessionTrips(e.breaker, lead) + 1 && n - 1 <= U32_MAX
             && CB.TripTakesEffect(BR.Run(e.breaker, lead).state, CB.Session)
    ensures var lead, trip := FullTrace(e, evs) + Trace(Run(e, evs), ev)[..i], Trace(Run(e, evs), ev)[i];
            BR.Run(e.breaker, lead + [trip]).state
              == CB.Open(CB.Session, trip.reason, trip.at,
                         CB.Deadline(trip.at, BR.IdealCooldown(BR.Run(e.breaker, lead).config, Max(n - 2, 0))))
  {
    TraceShape(Run(e, evs), ev);
    var lead, trip := FullTrace(e, evs) + Trace(Run(e, evs), ev)[..i], Trace(Run(e, evs), ev)[i];
    assert trip == BR.TripEvent(CB.Session, trip.reason, trip.at);
    BR.BackoffLaw(e.breaker, lead, trip.reason, trip.at, n);
  }
}
