/** The state version, the high-water mark and the recorded emergency over a run. */
module EngineCounters {
  import opened MachineInts
  import opened PotentialLosses
  import opened RiskEngineModel
  import opened RiskEngineBooks
  import CB = CircuitBreakers
  import Caps = RiskEngineCaps
  import Safety = RiskEngineSafety

  // ── The state version ──────────────────────────────────────────────────────

  /** The calls that change the state others see; halts and ticks do not count. */
  predicate Changes(e: Engine, ev: Event) {
    match ev
    case FillEvent(_, _, _, _) => Commits(e.applied, ev)
    case SettleEvent(t, _, io, _) => Caps.Applies(t, io)
    case ReconcileEvent(critical, io, _) => critical && io.createOk && io.auditOk
    case AddBlacklistEvent(_, _, io, _) => io.storeOk
    case RemoveBlacklistEvent(_, io, _) => io.storeOk
    case HeartbeatFailedEvent(_) => SaturateU32(e.breaker.heartbeatFailures + 1) >= e.config.heartbeatMaxFailures
    case FokFailedEvent(n, _) => n >= e.config.maxConsecutiveMisses
    case _ => ev.AckEvent? || ev.ResetEvent? || ev.ResolveEvent? || ev.ReloadEvent?
  }

  ghost function ChangesIn(e: Engine, evs: seq<Event>): nat {
    if evs == [] then 0
    else
      var before := evs[..|evs| - 1];
      ChangesIn(e, before) + if Changes(Run(e, before), evs[|evs| - 1]) then 1 else 0
  }

  predicate VersionMoves(e: Engine, ev: Event) {
    Step(e, ev).0.version == NextVersion(e.version, Changes(e, ev))
  }

  lemma FillVersion(e: Engine, ev: Event)
    requires ev.FillEvent?
    ensures VersionMoves(e, ev)
  {
  }

  lemma SettlementVersion(e: Engine, ev: Event)
    requires ev.SettleEvent?
    ensures VersionMoves(e, ev)
  {
  }

  lemma ClockVersion(e: Engine, ev: Event)
    requires ev.TickEvent? || ev.ReconcileEvent?
    ensures VersionMoves(e, ev)
  {
  }

  lemma OperatorVersion(e: Engine, ev: Event)
    requires OperatorCall(ev)
    ensures VersionMoves(e, ev)
  {
  }

  lemma UpkeepVersion(e: Engine, ev: Event)
    requires !TradingCall(ev) && !OperatorCall(ev)
    ensures VersionMoves(e, ev)
  {
  }

  lemma StepVersion(e: Engine, ev: Event)
    ensures VersionMoves(e, ev)
  {
    if ev.FillEvent? { FillVersion(e, ev); }
    else if ev.SettleEvent? { SettlementVersion(e, ev); }
    else if TradingCall(ev) { ClockVersion(e, ev); }
    else if OperatorCall(ev) { OperatorVersion(e, ev); }
    else { UpkeepVersion(e, ev); }
  }

  /** The version that has counted `n`, modulo 2^64. */
  predicate Counted(v: u64, n: nat) { v == WrapU64(n) }

  /** The next version after `v`, if anything changed. */
  function NextVersion(v: u64, changed: bool): u64 { if changed then WrapU64(v + 1) else v }

  lemma CountedNext(v: u64, n: nat, changed: bool)
    requires Counted(v, n)
    ensures Counted(NextVersion(v, changed), n + if changed then 1 else 0)
  {
  }

  lemma CountedFrom(v: u64)
    ensures Counted(v, v)
  {
  }

  /** Over every run the version counts exactly the changes, modulo 2^64; a failed fill gives its number back. */
  lemma {:induction false} VersionCountsChanges(e: Engine, evs: seq<Event>)
    ensures Counted(Run(e, evs).version, e.version + ChangesIn(e, evs))
  {
    if evs == [] {
      CountedFrom(e.version);
    } else {
      var before := evs[..|evs| - 1];
      VersionCountsChanges(e, before);
      StepVersion(Run(e, before), evs[|evs| - 1]);
      CountedNext(Run(e, before).version, e.version + ChangesIn(e, before), Changes(Run(e, before), evs[|evs| - 1]));
    }
  }

  // ── The high-water mark ────────────────────────────────────────────────────

  /** A trade that takes effect: a committed fill, or an applied settlement. */
  predicate TakesEffect(applied: set<TradeId>, ev: Event) {
    Commits(applied, ev) || (ev.SettleEvent? && Caps.Applies(ev.trade, ev.settleIo))
  }

  /** The largest of the mark and the equities that effective trades reported. */
  function HighestEquity(mark: real, applied: set<TradeId>, evs: seq<Event>): real {
    if evs == [] then mark
    else
      var before, ev := evs[..|evs| - 1], evs[|evs| - 1];
      var highest := HighestEquity(mark, applied, before);
      if TakesEffect(Markers(applied, before), ev) then MaxR(highest, ev.metrics.equity) else highest
  }

  lemma TradeMark(e: Engine, ev: Event)
    requires ev.FillEvent? || ev.SettleEvent?
    ensures Step(e, ev).0.drawdown.hwm == if TakesEffect(e.applied, ev) then MaxR(e.drawdown.hwm, ev.metrics.equity) else e.drawdown.hwm
  {
  }

  lemma OtherMark(e: Engine, ev: Event)
    requires !ev.FillEvent? && !ev.SettleEvent?
    ensures Step(e, ev).0.drawdown.hwm == e.drawdown.hwm
  {
  }

  /** Over every run the mark is the highest equity of the trades that took effect; a rolled-back fill leaves none. */
  lemma {:induction false} MarkIsHighestEquity(e: Engine, evs: seq<Event>)
    ensures Run(e, evs).drawdown.hwm == HighestEquity(e.drawdown.hwm, e.applied, evs)
  {
    if evs != [] {
      var before, ev := evs[..|evs| - 1], evs[|evs| - 1];
      MarkIsHighestEquity(e, before);
      BooksFollowJournal(e, before);
      if ev.FillEvent? || ev.SettleEvent? { TradeMark(Run(e, before), ev); } else { OtherMark(Run(e, before), ev); }
    }
  }

  // ── The recorded emergency ─────────────────────────────────────────────────

  predicate CapReached(c: RiskConfig, b: Books, m: Metrics, settled: bool) {
    !Caps.FeesAndErrorsBelow(c, b, m) || (settled && !Caps.LossesBelow(c, b))
  }

  lemma TrippedIff(e: Engine, phase: Phase, t: Trade, m: Metrics, now: int)
    ensures TrippedLevel(e, phase, t, m, now).Some? <==>
      CapReached(e.config, ApplyTrade(e, phase, t, m, now).books, m, phase.Settlement?)
  {
    Caps.ApiErrorsIff(e.config, m);
    Safety.ReportedLevelIsHighest(e, phase, t, m, now);
  }

  /** The reason a stopped breaker carries, or a general one. */
  function ReasonOf(b: CB.Breaker): string {
    match b.state
    case Open(_, reason, _, _) => reason
    case Halted(_, reason, _) => reason
    case _ => CAP_BREACHED
  }

  /** A committed fill records an emergency exactly when a cap it checks is reached, with the reason the breaker
      then carries. */
  lemma FillEmergencyIff(e: Engine, t: Trade, m: Metrics, io: FillIo, now: int)
    requires Commits(e.applied, FillEvent(t, m, io, now))
    ensures var a := ApplyTrade(e, Fill, t, m, now);
            OnFill(e, t, m, io, now).0.lastEmergency ==
              if CapReached(e.config, a.books, m, false) then Some((now, ReasonOf(a.breaker))) else e.lastEmergency
  {
    TrippedIff(e, Fill, t, m, now);
  }

  /** So does a settlement whose state and audit were stored. */
  lemma SettlementEmergencyIff(e: Engine, t: Trade, m: Metrics, io: SettleIo, now: int)
    requires Caps.Applies(t, io) && io.upsertOk && io.auditOk
    ensures var a := ApplyTrade(e, Settlement, t, m, now);
            OnSettlement(e, t, m, io, now).0.lastEmergency ==
              if CapReached(e.config, a.books, m, true) then Some((now, ReasonOf(a.breaker))) else e.lastEmergency
  {
    TrippedIff(e, Settlement, t, m, now);
  }

  lemma TickEmergencyIff(e: Engine, io: TickIo, now: int)
    ensures OnTick(e, io, now).0.lastEmergency ==
      if io.stale.Some? && io.stale.value > 0 then Some((now, STALE_LOSSES)) else e.lastEmergency
  {
  }

  lemma ReconciliationEmergencyIff(e: Engine, critical: bool, io: ReconcileIo, now: int)
    ensures OnReconciliation(e, critical, io, now).0.lastEmergency ==
      if critical && io.createOk && io.auditOk && io.upsertOk then Some((now, CRITICAL_DRIFT)) else e.lastEmergency
  {
  }

  lemma QuietFill(e: Engine, t: Trade, m: Metrics, io: FillIo, now: int)
    requires !Commits(e.applied, FillEvent(t, m, io, now))
    ensures OnFill(e, t, m, io, now).0.lastEmergency == e.lastEmergency
  {
  }

  lemma QuietSettlement(e: Engine, t: Trade, m: Metrics, io: SettleIo, now: int)
    requires !(Caps.Applies(t, io) && io.upsertOk && io.auditOk)
    ensures OnSettlement(e, t, m, io, now).0.lastEmergency == e.lastEmergency
  {
  }

  lemma QuietCall(e: Engine, ev: Event)
    requires !TradingCall(ev)
    ensures Step(e, ev).0.lastEmergency == e.lastEmergency
  {
  }

  /** The emergency an event raises: a cap that an effective trade reaches, stale losses at a tick, or a stored
      critical drift. */
  function Raised(e: Engine, ev: Event): Option<(int, string)> {
    match ev
    case FillEvent(t, m, _, at) =>
      var a := ApplyTrade(e, Fill, t, m, at);
      if Commits(e.applied, ev) && CapReached(e.config, a.books, m, false) then Some((at, ReasonOf(a.breaker))) else None
    case SettleEvent(t, m, io, at) =>
      var a := ApplyTrade(e, Settlement, t, m, at);
      if Caps.Applies(t, io) && io.upsertOk && io.auditOk && CapReached(e.config, a.books, m, true)
      then Some((at, ReasonOf(a.breaker)))
      else None
    case TickEvent(io, at) => if io.stale.Some? && io.stale.value > 0 then Some((at, STALE_LOSSES)) else None
    case ReconcileEvent(critical, io, at) =>
      if critical && io.createOk && io.auditOk && io.upsertOk then Some((at, CRITICAL_DRIFT)) else None
    case _ => None
  }

  lemma StepEmergency(e: Engine, ev: Event)
    ensures Step(e, ev).0.lastEmergency == if Raised(e, ev).Some? then Raised(e, ev) else e.lastEmergency
  {
    match ev {
      case FillEvent(t, m, io, at) =>
        if Commits(e.applied, ev) { FillEmergencyIff(e, t, m, io, at); } else { QuietFill(e, t, m, io, at); }
      case SettleEvent(t, m, io, at) =>
        if Caps.Applies(t, io) && io.upsertOk && io.auditOk { SettlementEmergencyIff(e, t, m, io, at); }
        else { QuietSettlement(e, t, m, io, at); }
      case TickEvent(io, at) => TickEmergencyIff(e, io, at);
      case ReconcileEvent(critical, io, at) => ReconciliationEmergencyIff(e, critical, io, at);
      case _ => QuietCall(e, ev);
    }
  }

  /** The latest emergency that the run raised, or the one before it. */
  ghost function Latest(e: Engine, evs: seq<Event>): Option<(int, string)> {
    if evs == [] then e.lastEmergency
    else
      var before := evs[..|evs| - 1];
      var raised := Raised(Run(e, before), evs[|evs| - 1]);
      if raised.Some? then raised else Latest(e, before)
  }

  /** Over every run the recorded emergency is the latest one raised. */
  lemma {:induction false} LastEmergencyIsLatest(e: Engine, evs: seq<Event>)
    ensures Run(e, evs).lastEmergency == Latest(e, evs)
  {
    if evs != [] {
      LastEmergencyIsLatest(e, evs[..|evs| - 1]);
      StepEmergency(Run(e, evs[..|evs| - 1]), evs[|evs| - 1]);
    }
  }
}
