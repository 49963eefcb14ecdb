/** Crash recovery: the state snapshot that is persisted, its validation at boot, and the conditional
    safe start. */
module RiskRecovery {
  import opened MachineInts
  import opened RiskEngineModel
  import opened PotentialLosses
  import opened Accounting
  import opened Drawdowns
  import CB = CircuitBreakers
  import BL = Blacklists
  import BR = BreakerRuns
  import Safety = RiskEngineSafety
  import RiskEngineBooks

  datatype StateName = ClosedName | OpenName | HalfOpenName | RecoveredName | HaltedName

  /** The persisted engine state, with trade counts clamped to `i32`. */
  datatype Persisted = Persisted(
    breakerState: StateName,
    breakerLevel: Option<CB.Level>,
    haltReason: Option<string>,
    cooldownUntil: Option<int>,
    tripCount: int,
    hourlyLoss: real,
    hourlyFees: real,
    hourlyTrades: int,
    hourlySuccesses: int,
    hourlyMisses: int,
    dailyPnl: real,
    dailyLoss: real,
    dailyFees: real,
    dailySpent: real,
    dailyTrades: int,
    dailySuccesses: int,
    dailyMisses: int,
    weeklyLoss: real,
    weeklyTrades: int,
    hwm: real,
    totalRealized: real,
    lastEmergency: Option<(int, string)>,
    snapshotAt: int)

  function Name(s: CB.BreakerState): StateName {
    match s
    case Closed => ClosedName
    case Open(_, _, _, _) => OpenName
    case HalfOpen(_, _, _, _) => HalfOpenName
    case Recovered(_, _) => RecoveredName
    case Halted(_, _, _) => HaltedName
  }

  function TakeSnapshot(e: Engine, now: int): Persisted {
    var s := e.breaker.state;
    Persisted(
      Name(s),
      if s.Open? || s.HalfOpen? || s.Halted? then Some(s.level) else None,
      if s.Open? || s.Halted? then Some(s.reason) else None,
      if s.Open? then Some(s.cooldownUntil) else None,
      Min(e.breaker.l2TripCount, I32_MAX),
      e.books.hourly.stats.loss,
      e.books.hourly.stats.fees,
      Min(e.books.hourly.stats.tradeCount, I32_MAX),
      Min(e.books.hourly.stats.successCount, I32_MAX),
      Min(e.books.hourly.stats.missCount, I32_MAX),
      e.books.daily.stats.pnl,
      e.books.daily.stats.loss,
      e.books.daily.stats.fees,
      e.books.daily.Spent(),
      Min(e.books.daily.stats.tradeCount, I32_MAX),
      Min(e.books.daily.stats.successCount, I32_MAX),
      Min(e.books.daily.stats.missCount, I32_MAX),
      e.books.weekly.stats.loss,
      Min(e.books.weekly.stats.tradeCount, I32_MAX),
      e.drawdown.hwm,
      e.books.lifetime,
      e.lastEmergency,
      now)
  }

  /** `to_u32(..).unwrap_or(0)` of a stored count. */
  function Count(x: int): u32 { if 0 <= x <= U32_MAX then x else 0 }

  function RestoreState(c: CB.BreakerConfig, s: Persisted): Option<CB.BreakerState> {
    match s.breakerState
    case ClosedName => Some(CB.Closed)
    case OpenName =>
      if s.breakerLevel.Some? && s.haltReason.Some? && s.cooldownUntil.Some?
      then Some(CB.Open(s.breakerLevel.value, s.haltReason.value, s.snapshotAt, s.cooldownUntil.value))
      else None
    case HalfOpenName =>
      if s.breakerLevel.Some? then Some(CB.HalfOpen(s.breakerLevel.value, s.snapshotAt, 0, c.halfOpenProbes)) else None
    case RecoveredName => Some(CB.Recovered(s.snapshotAt, CB.Deadline(s.snapshotAt, c.recoveryObservationSecs)))
    case HaltedName =>
      if s.breakerLevel.Some? && s.haltReason.Some?
      then Some(CB.Halted(s.breakerLevel.value, s.haltReason.value, s.snapshotAt))
      else None
  }

  function RestoreBreaker(c: CB.BreakerConfig, s: Persisted): Option<CB.Breaker> {
    match RestoreState(c, s)
    case None => None
    case Some(state) => Some(CB.Breaker(c, state, Count(s.tripCount), 0, s.snapshotAt))
  }

  function RestoreBooks(c: RiskConfig, s: Persisted, entries: seq<Entry>, now: int): Books {
    RollBooks(
      Books(
        Daily(Day(s.snapshotAt),
              ZERO_STATS.(loss := s.dailyLoss, pnl := s.dailyPnl, fees := s.dailyFees, tradeCount := Count(s.dailyTrades),
                          successCount := Count(s.dailySuccesses), missCount := Count(s.dailyMisses)),
              c.dailyBudget - s.dailySpent, c.dailyBudget),
        Weekly(Day(s.snapshotAt), ZERO_STATS.(loss := s.weeklyLoss, tradeCount := Count(s.weeklyTrades))),
        Hourly(Hour(s.snapshotAt),
               ZERO_STATS.(loss := s.hourlyLoss, fees := s.hourlyFees, tradeCount := Count(s.hourlyTrades),
                           successCount := Count(s.hourlySuccesses), missCount := Count(s.hourlyMisses))),
        FromEntries(entries),
        s.totalRealized),
      now)
  }

  ghost function ActiveCount(l: Ledger): nat { |ActiveLosses(l.entries)| }

  /** The validation that gates recovery. */
  ghost predicate Acceptable(c: RiskConfig, s: Persisted, entries: seq<Entry>, openPositions: nat, now: int) {
    && RestoreBreaker(c.breaker, s).Some?
    && Day(s.snapshotAt) <= Day(now)
    && s.dailyLoss >= 0.0 && s.weeklyLoss >= 0.0 && s.hourlyLoss >= 0.0
    && ActiveCount(FromEntries(entries)) <= openPositions
  }

  /** Whole seconds of a difference, truncated toward zero. */
  function WholeSeconds(nanos: int): int {
    if nanos >= 0 then nanos / NANOS_PER_SEC else -(-nanos / NANOS_PER_SEC)
  }

  predicate StaleEntry(c: RiskConfig, e: Entry, now: int) {
    e.active && WholeSeconds(now - e.createdAt) >= Min(c.escalationSecs, I64_MAX)
  }

  /** An entry is stale exactly when it is active and the escalation time has passed since it was made. */
  lemma StaleIff(c: RiskConfig, e: Entry, now: int)
    requires 0 < c.escalationSecs <= I64_MAX
    ensures StaleEntry(c, e, now) <==> e.active && now - e.createdAt >= c.escalationSecs * 1_000_000_000
  {
  }

  ghost predicate HasStale(c: RiskConfig, es: map<TradeId, Entry>, now: int) {
    exists id :: id in es && StaleEntry(c, es[id], now)
  }

  ghost predicate MustHalt(c: RiskConfig, b: CB.Breaker, l: Ledger, now: int) {
    || b.state.Halted?
    || (b.state.Open? && b.state.cooldownUntil > now)
    || HasStale(c, l.entries, now)
  }

  const SAFE_START: string := "safe-start"

  /** The engine built from a persisted state, or nothing when validation fails. */
  ghost function Build(c: RiskConfig, s: Persisted, entries: seq<Entry>, loaded: BL.Entries, openPositions: nat,
                       equity: real, markers: set<TradeId>, now: int): Option<Engine>
  {
    if !Acceptable(c, s, entries, openPositions, now) then None
    else
      var b := RestoreBreaker(c.breaker, s).value;
      var books := RestoreBooks(c, s, entries, now);
      var started :=
        if MustHalt(c, b, books.ledger, now) && !b.state.Halted? then CB.Halt(b, CB.System, SAFE_START, now) else b;
      var e := Engine(
        c, started, books,
        Drawdown(if s.hwm > 0.0 then s.hwm else equity, c.maxDrawdownPct, c.drawdownReduction),
        BL.MergePermanent(map[], c.permanentKeys, now) + loaded,
        0, s.lastEmergency, RiskSnapshot(true, false, None, 0.0, 0.0, 0.0, 0.0, 0.0, 0.0, 0.0, Drawdown(0.0, 0.0, 1.0), 0.0, map[], now),
        markers);
      Some(Publish(e, now))
  }

  // ── The breaker ────────────────────────────────────────────────────────────

  /** Restoring fails exactly on a state that lacks a field it needs. */
  lemma RestoreFailsIff(c: CB.BreakerConfig, s: Persisted)
    ensures RestoreBreaker(c, s).None? <==>
      || (s.breakerLevel.None? && s.breakerState in {OpenName, HalfOpenName, HaltedName})
      || (s.haltReason.None? && s.breakerState in {OpenName, HaltedName})
      || (s.cooldownUntil.None? && s.breakerState == OpenName)
  {
  }

  /** Restoring what was persisted succeeds for every breaker and keeps its state name, level, reason
      and cooldown deadline.  The trip count survives exactly when it fits `i32`. */
  lemma BreakerRoundTrip(e: Engine, now: int)
    ensures var r := RestoreBreaker(e.breaker.config, TakeSnapshot(e, now));
            var s := e.breaker.state;
      && r.Some?
      && Name(r.value.state) == Name(s)
      && (s.Open? ==> r.value.state == s.(trippedAt := now))
      && (s.Halted? ==> r.value.state == s.(haltedAt := now))
      && (s.HalfOpen? ==> r.value.state == CB.HalfOpen(s.level, now, 0, e.breaker.config.halfOpenProbes))
      && (r.value.l2TripCount == e.breaker.l2TripCount <==> e.breaker.l2TripCount <= I32_MAX)
  {
  }

  /** A clamped trip count is invisible: the next Session cooldown is the one the breaker would have
      taken without the crash. */
  lemma CooldownSurvives(e: Engine, now: int)
    ensures CB.CooldownForLevel(RestoreBreaker(e.breaker.config, TakeSnapshot(e, now)).value, CB.Session)
      == CB.CooldownForLevel(e.breaker, CB.Session)
  {
    var b, r := e.breaker, RestoreBreaker(e.breaker.config, TakeSnapshot(e, now)).value;
    BR.CooldownIsExact(b);
    BR.CooldownIsExact(r);
    if b.l2TripCount > I32_MAX {
      CappedEqually(b.config, b.l2TripCount - 1, I32_MAX - 1);
    }
  }

  lemma CappedEqually(c: CB.BreakerConfig, j: nat, k: nat)
    requires j >= 64 && k >= 64
    ensures BR.IdealCooldown(c, j) == BR.IdealCooldown(c, k)
  {
    HugePowers(j);
    HugePowers(k);
    ScaledAbove(c.l2CooldownSecs, Pow2(j));
    ScaledAbove(c.l2CooldownSecs, Pow2(k));
  }

  lemma ScaledAbove(base: u64, p: nat)
    ensures base == 0 || base * p >= p
  {
  }

  /** Under an unchanged configuration the observation window is never shortened. */
  lemma ObservationNotShortened(e: Engine, now: int)
    requires e.breaker.state.Recovered? && e.breaker.state.enteredAt <= now
    requires e.breaker.state.observationUntil
      == CB.Deadline(e.breaker.state.enteredAt, e.breaker.config.recoveryObservationSecs)
    ensures var r := RestoreBreaker(e.breaker.config, TakeSnapshot(e, now)).value.state;
            r.Recovered? && r.observationUntil >= e.breaker.state.observationUntil
  {
  }

  /** What a reachable engine persists is refused exactly when its date lies in the future or more losses are
      pending than positions are open; nothing else in it can be at fault. */
  lemma RefusedIff(start: Engine, evs: seq<Event>, at: int, c: RiskConfig, entries: seq<Entry>, loaded: BL.Entries,
                   openPositions: nat, equity: real, markers: set<TradeId>, now: int)
    requires RiskEngineBooks.LossesNonNegative(start.books)
    ensures Build(c, TakeSnapshot(Run(start, evs), at), entries, loaded, openPositions, equity, markers, now).None?
      <==> Day(at) > Day(now) || ActiveCount(FromEntries(entries)) > openPositions
  {
    RiskEngineBooks.LossesStayNonNegative(start, evs);
    RestoreFailsIff(c.breaker, TakeSnapshot(Run(start, evs), at));
  }

  /** A rebuilt engine trades only if the persisted one did; it is halted exactly when the persisted
      breaker was halted, was cooling down past the boot instant, or a stale active loss exists; and
      its published gate is in step with its breaker. */
  lemma RebuiltIsNotMorePermissive(e: Engine, at: int, c: RiskConfig, entries: seq<Entry>, loaded: BL.Entries,
                                   openPositions: nat, equity: real, markers: set<TradeId>, now: int)
    requires Build(c, TakeSnapshot(e, at), entries, loaded, openPositions, equity, markers, now).Some?
    ensures var r := Build(c, TakeSnapshot(e, at), entries, loaded, openPositions, equity, markers, now).value;
      && (r.breaker.state.AllowsTrading() ==> e.breaker.state.AllowsTrading())
      && (r.breaker.state.Halted? <==>
           || e.breaker.state.Halted?
           || (e.breaker.state.Open? && e.breaker.state.cooldownUntil > now)
           || HasStale(c, ById(entries), now))
      && Safety.InSync(r)
      && (BR.SessionOnly(e.breaker) ==> BR.SessionOnly(r.breaker))
  {
    var s := TakeSnapshot(e, at);
    var b := RestoreBreaker(c.breaker, s).value;
    var l := RestoreBooks(c, s, entries, now).ledger;
    assert l.entries == ById(entries);
    var r := Build(c, s, entries, loaded, openPositions, equity, markers, now).value;
    assert r.breaker.state.Halted? <==> MustHalt(c, b, l, now);
  }

  /** What the rebuilt blacklist answers: the stored entry where there is one, else a full permanent block for a
      configured key, else nothing. */
  lemma RebuiltBlacklist(c: RiskConfig, s: Persisted, entries: seq<Entry>, loaded: BL.Entries, openPositions: nat,
                         equity: real, markers: set<TradeId>, now: int, id: BL.Id, required: BL.Scope, later: int)
    requires Build(c, s, entries, loaded, openPositions, equity, markers, now).Some?
    ensures var es := Build(c, s, entries, loaded, openPositions, equity, markers, now).value.blacklist;
      && BL.Check(es, id, required, later) ==
           (if BL.Market(id) in loaded then BL.Check(loaded, id, required, later)
            else if BL.Market(id) in c.permanentKeys then BL.Blocked(BL.Manual, BL.Full, None)
            else BL.Clear)
      && (BL.TokenBlacklisted(es, id, later) <==>
           if BL.Token(id) in loaded then BL.TokenBlacklisted(loaded, id, later) else BL.Token(id) in c.permanentKeys)
  {
    BL.MergeKeepsEntries(map[], c.permanentKeys, now);
  }

  /** What else the rebuilt engine takes over: the stored high-water mark, or the equity when none was stored, under
      the configured limits; the last emergency; the durable markers; and a snapshot that shows its books. */
  lemma RebuiltParts(e: Engine, at: int, c: RiskConfig, entries: seq<Entry>, loaded: BL.Entries, openPositions: nat,
                     equity: real, markers: set<TradeId>, now: int)
    requires Build(c, TakeSnapshot(e, at), entries, loaded, openPositions, equity, markers, now).Some?
    ensures var r := Build(c, TakeSnapshot(e, at), entries, loaded, openPositions, equity, markers, now).value;
      && r.config == c && r.breaker.config == c.breaker && r.applied == markers && r.lastEmergency == e.lastEmergency
      && r.drawdown.hwm == (if e.drawdown.hwm > 0.0 then e.drawdown.hwm else equity)
      && r.drawdown.maxPct == c.maxDrawdownPct && r.drawdown.reduction == c.drawdownReduction
      && r.books.lifetime == e.books.lifetime && r.books.ledger.entries == ById(entries)
      && r.published.dailyLoss == r.books.daily.stats.loss && r.published.weeklyLoss == r.books.weekly.stats.loss
      && r.published.hourlyLoss == r.books.hourly.stats.loss && r.published.totalPotentialLoss == r.books.ledger.runningTotal
      && r.published.blacklist == r.blacklist
  {
  }

  // ── The books ──────────────────────────────────────────────────────────────

  /** A live engine whose windows do not lie ahead of the clock. */
  predicate WindowsNotAhead(b: Books, at: int) {
    b.daily.windowStart <= Day(at) && b.weekly.weekStart <= Monday(Day(at)) && b.hourly.windowStart <= Hour(at)
  }

  predicate WindowsCurrent(b: Books, at: int) {
    b.daily.windowStart == Day(at) && b.weekly.weekStart == Monday(Day(at)) && b.hourly.windowStart == Hour(at)
  }

  lemma MondayIsMonotone(d: int, d': int)
    requires d <= d'
    ensures Monday(d) <= Monday(d')
    ensures Monday(d') > d <==> Monday(d') > Monday(d)
  {
  }

  lemma CalendarIsMonotone(t: int, t': int)
    requires t <= t'
    ensures Day(t) <= Day(t') && Hour(t) <= Hour(t')
  {
  }

  /** Recovered loss and fee totals are never below those the surviving engine would show, so every cap on a
      total that is breached there is breached after the restart. */
  lemma RecoveredLossesNotLower(e: Engine, at: int, c: RiskConfig, entries: seq<Entry>, now: int)
    requires at <= now && WindowsNotAhead(e.books, at)
    requires e.books.daily.stats.loss >= 0.0 && e.books.weekly.stats.loss >= 0.0 && e.books.hourly.stats.loss >= 0.0
    requires e.books.daily.stats.fees >= 0.0 && e.books.hourly.stats.fees >= 0.0
    ensures var r, live := RestoreBooks(c, TakeSnapshot(e, at), entries, now), RollBooks(e.books, now);
      && r.daily.stats.loss >= live.daily.stats.loss
      && r.daily.stats.fees >= live.daily.stats.fees
      && r.weekly.stats.loss >= live.weekly.stats.loss
      && r.hourly.stats.loss >= live.hourly.stats.loss
      && r.hourly.stats.fees >= live.hourly.stats.fees
      && (DailyLossBreached(c, live) ==> DailyLossBreached(c, r))
      && (WeeklyLossBreached(c, live) ==> WeeklyLossBreached(c, r))
      && (DailyFeesBreached(c, live) ==> DailyFeesBreached(c, r))
      && (HourlyLossBreached(c, live) ==> HourlyLossBreached(c, r))
      && (HourlyFeesBreached(c, live) ==> HourlyFeesBreached(c, r))
  {
    CalendarIsMonotone(at, now);
    MondayIsMonotone(Day(at), Day(now));
  }

  // ── The cap that a restart loosens ─────────────────────────────────────────

  /** The day's largest single loss is not persisted, so a restart starts it from zero. */
  lemma SingleLossForgotten(c: RiskConfig, s: Persisted, entries: seq<Entry>, now: int)
    ensures RestoreBooks(c, s, entries, now).daily.stats.maxSingleLoss == 0.0
  {
  }

  /** For a positive cap the rebuilt and the surviving engine agree on the single-loss cap exactly when the
      surviving engine is below it: the restart forgets every breach. */
  lemma SingleLossAgreementIff(e: Engine, at: int, c: RiskConfig, entries: seq<Entry>, now: int)
    requires c.maxSingleLoss > 0.0
    ensures var r, live := RestoreBooks(c, TakeSnapshot(e, at), entries, now), RollBooks(e.books, now);
            (SingleLossBreached(c, r) <==> SingleLossBreached(c, live)) <==> live.daily.stats.maxSingleLoss < c.maxSingleLoss
  {
    SingleLossForgotten(c, TakeSnapshot(e, at), entries, now);
  }

  predicate Settles(t: Trade, io: SettleIo) { !t.outcome.Success? || io.resolveOk }

  /** Every settlement that loses the cap is such an input: for the rest of its day the surviving engine is
      over the cap and the engine rebuilt from its snapshot is not. */
  lemma LosingSettlementForgotten(e: Engine, t: Trade, m: Metrics, io: SettleIo, at: int, c: RiskConfig,
                                  entries: seq<Entry>, now: int)
    requires t.netProfit.Some? && -t.netProfit.value >= c.maxSingleLoss > 0.0 && Settles(t, io) && Day(now) == Day(at)
    ensures var e' := OnSettlement(e, t, m, io, at).0;
            SingleLossBreached(c, RollBooks(e'.books, now)) && !SingleLossBreached(c, RestoreBooks(c, TakeSnapshot(e', at), entries, now))
  {
    var e' := OnSettlement(e, t, m, io, at).0;
    assert e'.books == BookSettlement(e.books, t, at);
    SingleLossForgotten(c, TakeSnapshot(e', at), entries, now);
  }

  /** A settlement without a loss, whose persistence calls all succeed. */
  predicate QuietSettlement(t: Trade, io: SettleIo) {
    (t.netProfit.None? || t.netProfit.value >= 0.0) && io.resolveOk && io.upsertOk && io.auditOk && io.blacklistOk
  }

  /** The books and metrics breach nothing but possibly the single-loss cap. */
  predicate OtherwiseQuiet(c: RiskConfig, b: Books, m: Metrics) {
    && !DailyLossBreached(c, b) && !WeeklyLossBreached(c, b) && !DailyFeesBreached(c, b)
    && !HourlyLossBreached(c, b) && !HourlyFeesBreached(c, b) && !TooManyMisses(c, m) && !TooManyApiErrors(c, m)
  }

  lemma QuietSettlementTrades(e: Engine, t: Trade, m: Metrics, io: SettleIo, now: int)
    requires e.breaker.state == CB.Closed && QuietSettlement(t, io)
    requires var b := BookSettlement(e.books, t, now); OtherwiseQuiet(e.config, b, m) && !SingleLossBreached(e.config, b)
    ensures OnSettlement(e, t, m, io, now).0.breaker.state == CB.Closed
  {
    var b := BookSettlement(e.books, t, now);
    assert CheckLossCaps(e.config, b, e.breaker, now) == e.breaker;
    assert CommonChecks(e.config, b, e.breaker, t, m, now) == e.breaker;
  }

  lemma SettlementRehalts(e: Engine, t: Trade, m: Metrics, io: SettleIo, now: int)
    requires e.breaker.state == CB.Closed && QuietSettlement(t, io)
    requires SingleLossBreached(e.config, BookSettlement(e.books, t, now))
    ensures BR.HaltedAtLeast(OnSettlement(e, t, m, io, now).0.breaker, CB.Daily)
  {
    Safety.BreachedCapsStopTrading(e, Settlement, t, m, now);
    assert ApplyTrade(e, Settlement, t, m, now).books == BookSettlement(e.books, t, now);
  }

  /** The consequence for trading.  After an operator acknowledgement the next settlement of the day halts
      the surviving engine again; the rebuilt engine goes on trading, unless something else is breached. */
  lemma RestartLiftsSingleLossHalt(e: Engine, at: int, entries: seq<Entry>, loaded: BL.Entries, openPositions: nat,
                                   equity: real, now: int, t: Trade, m: Metrics, io: SettleIo, later: int)
    requires e.breaker.state.Halted? && e.config.maxSingleLoss > 0.0
    requires e.books.daily.windowStart == Day(at) == Day(now) == Day(later) && SingleLossBreached(e.config, e.books)
    requires Build(e.config, TakeSnapshot(e, at), entries, loaded, openPositions, equity, e.applied, now).Some?
    requires QuietSettlement(t, io)
    requires OtherwiseQuiet(e.config, BookSettlement(RestoreBooks(e.config, TakeSnapshot(e, at), entries, now), t, later), m)
    ensures var r := Build(e.config, TakeSnapshot(e, at), entries, loaded, openPositions, equity, e.applied, now).value;
      && BR.HaltedAtLeast(OnSettlement(Acknowledge(e, true, now).0, t, m, io, later).0.breaker, CB.Daily)
      && OnSettlement(Acknowledge(r, true, now).0, t, m, io, later).0.breaker.state == CB.Closed
  {
    var s := TakeSnapshot(e, at);
    var r := Build(e.config, s, entries, loaded, openPositions, equity, e.applied, now).value;
    BuiltBooks(e.config, s, entries, loaded, openPositions, equity, e.applied, now);
    RebuiltIsNotMorePermissive(e, at, e.config, entries, loaded, openPositions, equity, e.applied, now);
    SettlementRehalts(Acknowledge(e, true, now).0, t, m, io, later);
    SingleLossForgotten(e.config, s, entries, now);
    QuietSettlementTrades(Acknowledge(r, true, now).0, t, m, io, later);
  }

  /** If the windows were current when the snapshot was taken, recovery commutes with rollover: the
      recovered totals, budget and lifetime result are those of the engine that never stopped. */
  lemma RecoveryCommutesWithRollover(e: Engine, at: int, c: RiskConfig, entries: seq<Entry>, now: int)
    requires at <= now && WindowsCurrent(e.books, at) && c.dailyBudget == e.books.daily.initialBudget
    ensures var r, live := RestoreBooks(c, TakeSnapshot(e, at), entries, now), RollBooks(e.books, now);
      && r.daily.windowStart == live.daily.windowStart
      && r.daily.stats.loss == live.daily.stats.loss
      && r.daily.stats.fees == live.daily.stats.fees
      && r.daily.stats.pnl == live.daily.stats.pnl
      && r.daily.budgetRemaining == live.daily.budgetRemaining
      && r.weekly.stats.loss == live.weekly.stats.loss
      && r.hourly.stats.loss == live.hourly.stats.loss
      && r.hourly.stats.fees == live.hourly.stats.fees
      && r.lifetime == live.lifetime
      && r.daily.stats.tradeCount == Min(live.daily.stats.tradeCount, I32_MAX)
      && r.daily.stats.successCount == Min(live.daily.stats.successCount, I32_MAX)
      && r.daily.stats.missCount == Min(live.daily.stats.missCount, I32_MAX)
      && r.weekly.stats.tradeCount == Min(live.weekly.stats.tradeCount, I32_MAX)
      && r.hourly.stats.tradeCount == Min(live.hourly.stats.tradeCount, I32_MAX)
      && r.hourly.stats.successCount == Min(live.hourly.stats.successCount, I32_MAX)
      && r.hourly.stats.missCount == Min(live.hourly.stats.missCount, I32_MAX)
  {
    CalendarIsMonotone(at, now);
    MondayIsMonotone(Day(at), Day(now));
  }

  /** `rows` lists the active entries of `l`, each once, in any order. */
  ghost predicate ListsActive(rows: seq<Entry>, l: Ledger) {
    && DistinctIds(rows)
    && (forall r :: r in rows ==> r.id in l.entries && l.entries[r.id] == r && r.active)
    && (forall id :: id in l.entries && l.entries[id].active ==> l.entries[id] in rows)
  }

  lemma LedgerReboots(l: Ledger, rows: seq<Entry>)
    requires Consistent(l) && ListsActive(rows, l)
    ensures Consistent(FromEntries(rows)) && FromEntries(rows).runningTotal == l.runningTotal
  {
    BootConsistent(rows);
    ByIdCollects(rows);
    assert ActiveLosses(ById(rows)) == ActiveLosses(l.entries);
  }

  /** A committed fill survives a crash and stays applied once: the engine rebuilt from what the
      commit stored shows the totals of the engine that committed it, counts its loss, and treats a
      new delivery of the same trade as already applied. */
  lemma CommittedFillSurvivesCrash(e: Engine, t: Trade, m: Metrics, at: int, rows: seq<Entry>, loaded: BL.Entries,
                                   openPositions: nat, equity: real, now: int, retry: FillIo)
    requires t.id !in e.applied && t.cost + t.fee >= 0.0 && Consistent(e.books.ledger) && at <= now
    requires e.books.daily.initialBudget == e.config.dailyBudget
    requires WindowsCurrent(BookFill(e.books, t, at), at) && retry.claimOk
    requires ListsActive(rows, BookFill(e.books, t, at).ledger)
    requires Build(e.config, TakeSnapshot(ApplyTrade(e, Fill, t, m, at), at), rows, loaded, openPositions, equity,
                   e.applied + {t.id}, now).Some?
    ensures var r := Build(e.config, TakeSnapshot(ApplyTrade(e, Fill, t, m, at), at), rows, loaded, openPositions,
                           equity, e.applied + {t.id}, now).value;
            var live := RollBooks(BookFill(e.books, t, at), now);
      && OnFill(r, t, m, retry, now) == (r, AlreadyApplied)
      && r.books.daily.stats.fees == live.daily.stats.fees
      && r.books.daily.budgetRemaining == live.daily.budgetRemaining
      && r.books.hourly.stats.fees == live.hourly.stats.fees
      && r.books.ledger.runningTotal == live.ledger.runningTotal
      && Consistent(r.books.ledger)
  {
    var a := ApplyTrade(e, Fill, t, m, at);
    assert a.books == BookFill(e.books, t, at);
    BuiltBooks(e.config, TakeSnapshot(a, at), rows, loaded, openPositions, equity, e.applied + {t.id}, now);
    RecoveryCommutesWithRollover(a, at, e.config, rows, now);
    FilledLedgerReboots(e.books, t, at, rows);
  }

  lemma BuiltBooks(c: RiskConfig, s: Persisted, entries: seq<Entry>, loaded: BL.Entries, openPositions: nat,
                   equity: real, markers: set<TradeId>, now: int)
    ensures var r := Build(c, s, entries, loaded, openPositions, equity, markers, now);
            r.Some? ==> r.value.books == RestoreBooks(c, s, entries, now) && r.value.applied == markers && r.value.config == c
  {
  }

  lemma FilledLedgerReboots(b: Books, t: Trade, at: int, rows: seq<Entry>)
    requires Consistent(b.ledger) && t.cost + t.fee >= 0.0 && ListsActive(rows, BookFill(b, t, at).ledger)
    ensures Consistent(FromEntries(rows)) && FromEntries(rows).runningTotal == BookFill(b, t, at).ledger.runningTotal
  {
    RecordKeepsTotal(b.ledger, Entry(t.id, t.cost + t.fee, true, at, None));
    LedgerReboots(BookFill(b, t, at).ledger, rows);
  }
}
