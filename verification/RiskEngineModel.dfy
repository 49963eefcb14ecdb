/** The risk engine as a transition system: its in-memory subsystems, the published snapshot that the
    hot path reads, and the durable fill markers.  Each operation takes the results of the persistence
    calls it makes as parameters, and one instant that all its clock reads return. */
module RiskEngineModel {
  import opened MachineInts
  import opened PotentialLosses
  import opened Accounting
  import opened Drawdowns
  import CB = CircuitBreakers
  import BL = Blacklists

  datatype Trade = Trade(
    id: TradeId,
    market: BL.Id,
    outcome: Outcome,
    cost: real,
    fee: real,
    netProfit: Option<real>)

  /** The live metrics an operation reads. */
  datatype Metrics = Metrics(equity: real, misses: u32, apiErrors: u64, apiRequests: u64)

  datatype RiskConfig = RiskConfig(
    breaker: CB.BreakerConfig,
    maxDailyLoss: real,
    maxWeeklyLoss: real,
    maxSingleLoss: real,
    maxHourlyLoss: real,
    maxDailyFees: real,
    maxHourlyFees: real,
    maxConsecutiveMisses: u32,
    apiErrorRateThreshold: real,
    heartbeatMaxFailures: u32,
    dailyBudget: real,
    maxDrawdownPct: real,
    drawdownReduction: real,
    escalationSecs: u64,
    autoBlacklist: BL.AutoPolicy,
    permanentKeys: seq<BL.Key>)

  /** The immutable snapshot behind pre-trade checks.  Its blacklist part is described by the entries
      and the instant its Bloom projection was built from. */
  datatype RiskSnapshot = RiskSnapshot(
    breakerAllows: bool,
    isProbe: bool,
    manualHalt: Option<string>,
    dailyLoss: real,
    dailyFees: real,
    dailyPnl: real,
    budgetRemaining: real,
    weeklyLoss: real,
    hourlyLoss: real,
    hourlyFees: real,
    drawdown: Drawdown,
    totalPotentialLoss: real,
    blacklist: BL.Entries,
    at: int)
  {
    predicate AllowsTrading() { breakerAllows && manualHalt.None? }
  }

  /** Everything a trade books into. */
  datatype Books = Books(daily: Daily, weekly: Weekly, hourly: Hourly, ledger: Ledger, lifetime: real)

  datatype Engine = Engine(
    config: RiskConfig,
    breaker: CB.Breaker,
    books: Books,
    drawdown: Drawdown,
    blacklist: BL.Entries,
    version: u64,
    lastEmergency: Option<(int, string)>,
    published: RiskSnapshot,
    applied: set<TradeId>)

  datatype Reply = Done | AlreadyApplied | Error

  // ── Publication and halting ────────────────────────────────────────────────

  function Compile(e: Engine, now: int): RiskSnapshot {
    RiskSnapshot(
      e.breaker.state.AllowsTrading(),
      e.breaker.state.IsProbeMode(),
      if e.breaker.state.Halted? then Some(e.breaker.state.reason) else None,
      e.books.daily.stats.loss,
      e.books.daily.stats.fees,
      e.books.daily.stats.pnl,
      e.books.daily.budgetRemaining,
      e.books.weekly.stats.loss,
      e.books.hourly.stats.loss,
      e.books.hourly.stats.fees,
      Drawdown(e.drawdown.hwm, e.config.maxDrawdownPct, e.config.drawdownReduction),
      e.books.ledger.runningTotal,
      e.blacklist,
      now)
  }

  function Publish(e: Engine, now: int): Engine { e.(published := Compile(e, now)) }

  function Bump(e: Engine): Engine { e.(version := WrapU64(e.version + 1)) }

  function HaltSystem(e: Engine, reason: string, now: int): Engine {
    e.(breaker := CB.Halt(e.breaker, CB.System, reason, now))
  }

  function HaltInternal(e: Engine, reason: string, now: int): Engine { Publish(HaltSystem(e, reason, now), now) }

  // ── Booking a trade ────────────────────────────────────────────────────────

  function BookFill(b: Books, t: Trade, now: int): Books {
    b.(daily := RecordDaily(b.daily, 0.0, t.fee, t.cost, t.outcome, now),
       weekly := RecordWeekly(b.weekly, 0.0, t.fee, t.outcome, now),
       hourly := RecordHourly(b.hourly, 0.0, t.fee, t.outcome, now),
       ledger := if t.outcome.Success? then RecordEntry(b.ledger, Entry(t.id, t.cost + t.fee, true, now, None)) else b.ledger)
  }

  function BookSettlement(b: Books, t: Trade, now: int): Books {
    var profit := if t.netProfit.Some? then t.netProfit.value else 0.0;
    Books(
      RecordDaily(b.daily, profit, 0.0, 0.0, t.outcome, now),
      RecordWeekly(b.weekly, profit, 0.0, t.outcome, now),
      RecordHourly(b.hourly, profit, 0.0, t.outcome, now),
      Resolve(b.ledger, t.id, now),
      b.lifetime + profit)
  }

  function RollBooks(b: Books, now: int): Books {
    b.(daily := RollDaily(b.daily, now), weekly := RollWeekly(b.weekly, now), hourly := RollHourly(b.hourly, now))
  }

  const DAILY_CAP: string := "daily loss cap breached"
  const WEEKLY_CAP: string := "weekly loss cap breached"
  const SINGLE_CAP: string := "single loss cap breached"
  const DAILY_FEE_CAP: string := "daily fee spend cap breached"
  const HOURLY_CAP: string := "hourly loss cap breached"
  const HOURLY_FEE_CAP: string := "hourly fee spend cap breached"
  const MISSES: string := "consecutive misses"
  const API_ERRORS: string := "API error rate"

  function HaltIf(c: bool, b: CB.Breaker, level: CB.Level, reason: string, now: int): CB.Breaker {
    if c then CB.Halt(b, level, reason, now) else b
  }

  function TripIf(c: bool, b: CB.Breaker, reason: string, now: int): CB.Breaker {
    if c then CB.Trip(b, CB.Session, reason, now) else b
  }

  function Escalate(current: Option<CB.Level>, c: bool, level: CB.Level): Option<CB.Level> {
    if !c then current
    else if current.Some? && current.value.AtLeast(level) then current
    else Some(level)
  }

  predicate DailyLossBreached(c: RiskConfig, b: Books) { b.daily.stats.loss >= c.maxDailyLoss }

  predicate WeeklyLossBreached(c: RiskConfig, b: Books) { b.weekly.stats.loss >= c.maxWeeklyLoss }

  predicate SingleLossBreached(c: RiskConfig, b: Books) { b.daily.stats.maxSingleLoss >= c.maxSingleLoss }

  predicate DailyFeesBreached(c: RiskConfig, b: Books) { b.daily.stats.fees >= c.maxDailyFees }

  predicate HourlyLossBreached(c: RiskConfig, b: Books) { b.hourly.stats.loss >= c.maxHourlyLoss }

  predicate HourlyFeesBreached(c: RiskConfig, b: Books) { b.hourly.stats.fees >= c.maxHourlyFees }

  predicate TooManyMisses(c: RiskConfig, m: Metrics) { m.misses >= c.maxConsecutiveMisses }

  predicate TooManyApiErrors(c: RiskConfig, m: Metrics) {
    m.apiRequests > 0 && (m.apiErrors as real) / (m.apiRequests as real) >= c.apiErrorRateThreshold
  }

  /** Loss caps, in the order they are checked. */
  function CheckLossCaps(c: RiskConfig, books: Books, b: CB.Breaker, now: int): CB.Breaker {
    var b1 := HaltIf(DailyLossBreached(c, books), b, CB.Daily, DAILY_CAP, now);
    var b2 := HaltIf(WeeklyLossBreached(c, books), b1, CB.System, WEEKLY_CAP, now);
    var b3 := HaltIf(SingleLossBreached(c, books), b2, CB.Daily, SINGLE_CAP, now);
    var b4 := HaltIf(DailyFeesBreached(c, books), b3, CB.Daily, DAILY_FEE_CAP, now);
    TripIf(HourlyLossBreached(c, books), b4, HOURLY_CAP, now)
  }

  function LossCapLevel(c: RiskConfig, books: Books): Option<CB.Level> {
    var h1 := Escalate(None, DailyLossBreached(c, books), CB.Daily);
    var h2 := Escalate(h1, WeeklyLossBreached(c, books), CB.System);
    var h3 := Escalate(h2, SingleLossBreached(c, books), CB.Daily);
    var h4 := Escalate(h3, DailyFeesBreached(c, books), CB.Daily);
    Escalate(h4, HourlyLossBreached(c, books), CB.Session)
  }

  /** Checks of both phases: the probe result first, then misses, fees and API errors. */
  function CommonChecks(c: RiskConfig, books: Books, b: CB.Breaker, t: Trade, m: Metrics, now: int): CB.Breaker {
    CommonCaps(c, books, if b.state.IsProbeMode() then CB.OnTradeResult(b, t.outcome.Success?, now) else b, m, now)
  }

  function CommonCaps(c: RiskConfig, books: Books, b: CB.Breaker, m: Metrics, now: int): CB.Breaker {
    var b2 := TripIf(TooManyMisses(c, m), b, MISSES, now);
    var b3 := HaltIf(DailyFeesBreached(c, books), b2, CB.Daily, DAILY_FEE_CAP, now);
    var b4 := TripIf(HourlyFeesBreached(c, books), b3, HOURLY_FEE_CAP, now);
    TripIf(TooManyApiErrors(c, m), b4, API_ERRORS, now)
  }

  function CommonCheckLevel(c: RiskConfig, books: Books, m: Metrics): Option<CB.Level> {
    var h1 := if TooManyMisses(c, m) then Some(CB.Session) else None;
    var h2 := if DailyFeesBreached(c, books) then Some(CB.Daily) else h1;
    var h3 := Escalate(h2, HourlyFeesBreached(c, books), CB.Session);
    Escalate(h3, TooManyApiErrors(c, m), CB.Session)
  }

  function MergeLevels(a: Option<CB.Level>, b: Option<CB.Level>): Option<CB.Level> {
    if b.None? then a else Escalate(a, true, b.value)
  }

  datatype Phase = Fill | Settlement

  predicate AutoBlacklists(e: Engine, t: Trade, m: Metrics) {
    t.outcome.Miss? && BL.AutoApplies(e.blacklist, e.config.autoBlacklist, t.market, m.misses)
  }

  /** The in-memory effect of a trade result, up to and including publication. */
  function ApplyTrade(e: Engine, phase: Phase, t: Trade, m: Metrics, now: int): Engine {
    var books := if phase.Fill? then BookFill(e.books, t, now) else BookSettlement(e.books, t, now);
    var capped := if phase.Fill? then e.breaker else CheckLossCaps(e.config, books, e.breaker, now);
    var blacklist :=
      if t.outcome.Miss?
      then BL.MaybeAutoBlacklist(e.blacklist, e.config.autoBlacklist, t.market, m.misses, now)
      else e.blacklist;
    var breaker := CommonChecks(e.config, books, capped, t, m, now);
    Publish(
      Bump(e.(books := books, blacklist := blacklist, breaker := breaker, drawdown := e.drawdown.Raised(m.equity))),
      now)
  }

  /** The `breaker_tripped` field of the post-trade report. */
  function TrippedLevel(e: Engine, phase: Phase, t: Trade, m: Metrics, now: int): Option<CB.Level> {
    var books := if phase.Fill? then BookFill(e.books, t, now) else BookSettlement(e.books, t, now);
    var caps := if phase.Fill? then None else LossCapLevel(e.config, books);
    MergeLevels(caps, CommonCheckLevel(e.config, books, m))
  }

  const CAP_BREACHED: string := "loss cap breached"
  const BLACKLIST_PERSIST: string := "auto-blacklist persist failed"

  function EmergencyReason(b: CB.Breaker): string {
    if b.state.Open? || b.state.Halted? then b.state.reason else CAP_BREACHED
  }

  function FollowUp(e: Engine, tripped: Option<CB.Level>, autoAdded: bool, blacklistOk: bool, now: int): (Engine, Reply) {
    var e1 := if tripped.Some? then e.(lastEmergency := Some((now, EmergencyReason(e.breaker)))) else e;
    if autoAdded && !blacklistOk then (HaltInternal(e1, BLACKLIST_PERSIST, now), Error) else (e1, Done)
  }

  // ── Trade results ──────────────────────────────────────────────────────────

  /** Results of claiming the fill marker, committing the write-set, and storing an automatic
      blacklist entry. */
  datatype FillIo = FillIo(claimOk: bool, commitOk: bool, blacklistOk: bool)

  const CLAIM_FAILED: string := "risk fill marker claim failed"
  const COMMIT_FAILED: string := "risk fill commit failed"

  /** Put back what was captured before the trade was applied.  Captured are the breaker, the three
      windows, the ledger, the drawdown guard and the version; the blacklist is not among them. */
  function Restore(e: Engine, captured: Engine, now: int): Engine {
    var books := captured.books.(lifetime := e.books.lifetime);
    Publish(
      e.(breaker := captured.breaker, books := books, drawdown := captured.drawdown, version := captured.version),
      now)
  }

  function OnFill(e: Engine, t: Trade, m: Metrics, io: FillIo, now: int): (Engine, Reply) {
    if !io.claimOk then (HaltInternal(e, CLAIM_FAILED, now), Error)
    else if t.id in e.applied then (e, AlreadyApplied)
    else
      var a := ApplyTrade(e, Fill, t, m, now);
      if !io.commitOk then (HaltInternal(Restore(a, e, now), COMMIT_FAILED, now), Error)
      else
        FollowUp(a.(applied := a.applied + {t.id}), TrippedLevel(e, Fill, t, m, now), AutoBlacklists(e, t, m),
                 io.blacklistOk, now)
  }

  datatype SettleIo = SettleIo(resolveOk: bool, upsertOk: bool, auditOk: bool, blacklistOk: bool)

  const RESOLVE_FAILED: string := "potential loss resolve failed"
  const PERSIST_FAILED: string := "persist failed"
  const AUDIT_FAILED: string := "audit failed"

  /** Store the state, then the audit event; either failure halts. */
  function PersistAndAudit(e: Engine, upsertOk: bool, auditOk: bool, now: int): (Engine, Reply) {
    if !upsertOk then (HaltInternal(e, PERSIST_FAILED, now), Error)
    else if !auditOk then (HaltInternal(e, AUDIT_FAILED, now), Error)
    else (e, Done)
  }

  function OnSettlement(e: Engine, t: Trade, m: Metrics, io: SettleIo, now: int): (Engine, Reply) {
    if t.outcome.Success? && !io.resolveOk then (HaltInternal(e, RESOLVE_FAILED, now), Error)
    else
      var a := ApplyTrade(e, Settlement, t, m, now);
      var (p, reply) := PersistAndAudit(a, io.upsertOk, io.auditOk, now);
      if reply.Error? then (p, reply)
      else FollowUp(p, TrippedLevel(e, Settlement, t, m, now), AutoBlacklists(e, t, m), io.blacklistOk, now)
  }

  // ── Tick ───────────────────────────────────────────────────────────────────

  /** `stale` is the number of stale potential-loss entries the store reports, if it answers. */
  datatype TickIo = TickIo(stale: Option<nat>, emergencyOk: bool, upsertOk: bool)

  const STALE_LOSSES: string := "stale potential-loss entries"
  const TICK_PERSIST: string := "tick persist failed"

  function Advance(e: Engine, now: int): Engine {
    e.(breaker := CB.Tick(e.breaker, now), books := RollBooks(e.books, now), blacklist := BL.CollectGarbage(e.blacklist, now))
  }

  predicate TickChanges(e: Engine, now: int) {
    || CB.TickTransitions(e.breaker.state, now)
    || Day(now) > e.books.daily.windowStart
    || Monday(Day(now)) > e.books.weekly.weekStart
    || Hour(now) != e.books.hourly.windowStart
  }

  function OnTick(e: Engine, io: TickIo, now: int): (Engine, Reply) {
    var e1 := Advance(e, now);
    if io.stale.None? then (e1, Error)
    else if io.stale.value > 0 then
      var e2 := HaltInternal(e1, STALE_LOSSES, now);
      (e2.(lastEmergency := Some((now, STALE_LOSSES))), if io.emergencyOk then Done else Error)
    else if TickChanges(e, now) then
      var e2 := Publish(e1, now);
      if io.upsertOk then (e2, Done) else (HaltInternal(e2, TICK_PERSIST, now), Error)
    else (e1, Done)
  }

  // ── Reconciliation and operator calls ──────────────────────────────────────

  datatype ReconcileIo = ReconcileIo(createOk: bool, auditOk: bool, upsertOk: bool)

  const REPORT_PERSIST: string := "reconciliation report persist failed"
  const RECONCILE_AUDIT: string := "audit persist failed"
  const CRITICAL_DRIFT: string := "reconciliation critical drift"
  const RECONCILE_PERSIST: string := "reconciliation breaker persist failed"

  function OnReconciliation(e: Engine, critical: bool, io: ReconcileIo, now: int): (Engine, Reply) {
    if !io.createOk then (HaltInternal(e, REPORT_PERSIST, now), Error)
    else if !io.auditOk then (HaltInternal(e, RECONCILE_AUDIT, now), Error)
    else if !critical then (e, Done)
    else
      var e1 := Publish(Bump(HaltSystem(e, CRITICAL_DRIFT, now)), now);
      if !io.upsertOk then (HaltInternal(e1, RECONCILE_PERSIST, now), Error)
      else (e1.(lastEmergency := Some((now, CRITICAL_DRIFT))), Done)
  }

  const RESUME_AUDIT: string := "resume audit failed"

  function Acknowledge(e: Engine, auditOk: bool, now: int): (Engine, Reply) {
    var e1 := Publish(Bump(e.(breaker := CB.AcknowledgeAndResume(e.breaker, now))), now);
    if auditOk then (e1, Done) else (HaltInternal(e1, RESUME_AUDIT, now), Error)
  }

  function ResetBreaker(e: Engine, upsertOk: bool, auditOk: bool, now: int): (Engine, Reply) {
    PersistAndAudit(Publish(Bump(e.(breaker := CB.Reset(e.breaker, now))), now), upsertOk, auditOk, now)
  }

  datatype BlacklistIo = BlacklistIo(storeOk: bool, upsertOk: bool, auditOk: bool)

  const BLACKLIST_STORE: string := "blacklist persist failed"
  const BLACKLIST_REMOVE: string := "blacklist remove persist failed"

  /** Shared tail of adding and removing an entry once the live map holds `es`. */
  function CommitBlacklist(e: Engine, es: BL.Entries, failure: string, io: BlacklistIo, now: int): (Engine, Reply) {
    var e1 := e.(blacklist := es);
    if !io.storeOk then (HaltInternal(e1, failure, now), Error)
    else PersistAndAudit(Publish(Bump(e1), now), io.upsertOk, io.auditOk, now)
  }

  function AddBlacklist(e: Engine, market: BL.Id, reason: BL.Reason, io: BlacklistIo, now: int): (Engine, Reply) {
    CommitBlacklist(e, BL.AddPermanent(e.blacklist, market, reason, now), BLACKLIST_STORE, io, now)
  }

  function RemoveBlacklist(e: Engine, market: BL.Id, io: BlacklistIo, now: int): (Engine, Reply) {
    CommitBlacklist(e, BL.Remove(e.blacklist, market), BLACKLIST_REMOVE, io, now)
  }

  const RESOLVE_PERSIST: string := "potential loss resolve persist failed"

  function ResolveLoss(e: Engine, id: TradeId, upsertOk: bool, now: int): (Engine, Reply) {
    var e1 := Publish(Bump(e.(books := e.books.(ledger := Resolve(e.books.ledger, id, now)))), now);
    if upsertOk then (e1, Done) else (HaltInternal(e1, RESOLVE_PERSIST, now), Error)
  }

  function Reload(e: Engine, c: RiskConfig, now: int): Engine {
    Publish(
      Bump(e.(breaker := e.breaker.(config := c.breaker),
              drawdown := e.drawdown.(maxPct := c.maxDrawdownPct, reduction := c.drawdownReduction),
              books := e.books.(daily := SetBudget(e.books.daily, c.dailyBudget)),
              blacklist := BL.MergePermanent(e.blacklist, c.permanentKeys, now),
              config := c)),
      now)
  }

  // ── Execution events ───────────────────────────────────────────────────────

  const FOK_FAILURES: string := "consecutive FOK failures"

  function HeartbeatFailed(e: Engine, now: int): Engine {
    var e1 := e.(breaker := CB.HeartbeatFailure(e.breaker, e.config.heartbeatMaxFailures, now));
    if e1.breaker.heartbeatFailures >= e.config.heartbeatMaxFailures then Publish(Bump(e1), now) else e1
  }

  function HeartbeatOk(e: Engine): Engine { e.(breaker := e.breaker.(heartbeatFailures := 0)) }

  function FokFailed(e: Engine, consecutive: u32, now: int): Engine {
    if consecutive >= e.config.maxConsecutiveMisses
    then Publish(Bump(e.(breaker := CB.Trip(e.breaker, CB.Session, FOK_FAILURES, now))), now)
    else e
  }

  // ── Runs ───────────────────────────────────────────────────────────────────

  datatype Event =
    | FillEvent(trade: Trade, metrics: Metrics, fillIo: FillIo, at: int)
    | SettleEvent(trade: Trade, metrics: Metrics, settleIo: SettleIo, at: int)
    | TickEvent(tickIo: TickIo, at: int)
    | ReconcileEvent(critical: bool, reconcileIo: ReconcileIo, at: int)
    | HaltEvent(reason: string, at: int)
    | AckEvent(auditOk: bool, at: int)
    | ResetEvent(upsertOk: bool, auditOk: bool, at: int)
    | AddBlacklistEvent(market: BL.Id, why: BL.Reason, blacklistIo: BlacklistIo, at: int)
    | RemoveBlacklistEvent(market: BL.Id, blacklistIo: BlacklistIo, at: int)
    | ResolveEvent(id: TradeId, upsertOk: bool, at: int)
    | ReloadEvent(config: RiskConfig, at: int)
    | HeartbeatFailedEvent(at: int)
    | HeartbeatOkEvent
    | FokFailedEvent(consecutive: u32, at: int)

  /** The calls that report trades, the clock and reconciliation; those of the operator; the others keep
      the engine up to date. */
  predicate TradingCall(ev: Event) { ev.FillEvent? || ev.SettleEvent? || ev.TickEvent? || ev.ReconcileEvent? }

  predicate OperatorCall(ev: Event) {
    ev.HaltEvent? || ev.AckEvent? || ev.ResetEvent? || ev.AddBlacklistEvent? || ev.RemoveBlacklistEvent?
  }

  function Step(e: Engine, ev: Event): (Engine, Reply) {
    match ev
    case FillEvent(t, m, io, at) => OnFill(e, t, m, io, at)
    case SettleEvent(t, m, io, at) => OnSettlement(e, t, m, io, at)
    case TickEvent(io, at) => OnTick(e, io, at)
    case ReconcileEvent(critical, io, at) => OnReconciliation(e, critical, io, at)
    case HaltEvent(reason, at) => (HaltInternal(e, reason, at), Done)
    case AckEvent(auditOk, at) => Acknowledge(e, auditOk, at)
    case ResetEvent(upsertOk, auditOk, at) => ResetBreaker(e, upsertOk, auditOk, at)
    case AddBlacklistEvent(market, why, io, at) => AddBlacklist(e, market, why, io, at)
    case RemoveBlacklistEvent(market, io, at) => RemoveBlacklist(e, market, io, at)
    case ResolveEvent(id, upsertOk, at) => ResolveLoss(e, id, upsertOk, at)
    case ReloadEvent(c, at) => (Reload(e, c, at), Done)
    case HeartbeatFailedEvent(at) => (HeartbeatFailed(e, at), Done)
    case HeartbeatOkEvent => (HeartbeatOk(e), Done)
    case FokFailedEvent(n, at) => (FokFailed(e, n, at), Done)
  }

  function Run(e: Engine, evs: seq<Event>): Engine {
    if evs == [] then e else Step(Run(e, evs[..|evs| - 1]), evs[|evs| - 1]).0
  }
}
