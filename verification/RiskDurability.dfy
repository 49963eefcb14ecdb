/** What the store holds while the engine runs.  Committed fills and successful state writes replace the stored
    state; halts and trips that write nothing leave it behind the live breaker. */
module RiskDurability {
  import opened MachineInts
  import opened RiskEngineModel
  import opened PotentialLosses
  import opened RiskRecovery
  import CB = CircuitBreakers
  import BL = Blacklists
  import Safety = RiskEngineSafety

  // ── The stored state ───────────────────────────────────────────────────────

  /** The state a fill commits with. */
  function WrittenByFill(e: Engine, t: Trade, m: Metrics, io: FillIo, now: int): Option<Persisted> {
    if io.claimOk && t.id !in e.applied && io.commitOk
    then Some(TakeSnapshot(ApplyTrade(e, Fill, t, m, now), now))
    else None
  }

  function WrittenBySettlement(e: Engine, t: Trade, m: Metrics, io: SettleIo, now: int): Option<Persisted> {
    if (t.outcome.Success? ==> io.resolveOk) && io.upsertOk
    then Some(TakeSnapshot(ApplyTrade(e, Settlement, t, m, now), now))
    else None
  }

  function WrittenByTick(e: Engine, io: TickIo, now: int): Option<Persisted> {
    if io.stale == Some(0) && TickChanges(e, now) && io.upsertOk then Some(TakeSnapshot(Advance(e, now), now)) else None
  }

  function WrittenByReconciliation(e: Engine, critical: bool, io: ReconcileIo, now: int): Option<Persisted> {
    if io.createOk && io.auditOk && critical && io.upsertOk
    then Some(TakeSnapshot(HaltSystem(e, CRITICAL_DRIFT, now), now))
    else None
  }

  /** The state an engine step writes to the store, if it writes one. */
  function Written(e: Engine, ev: Event): Option<Persisted> {
    match ev
    case FillEvent(t, m, io, at) => WrittenByFill(e, t, m, io, at)
    case SettleEvent(t, m, io, at) => WrittenBySettlement(e, t, m, io, at)
    case TickEvent(io, at) => WrittenByTick(e, io, at)
    case ReconcileEvent(critical, io, at) => WrittenByReconciliation(e, critical, io, at)
    case ResetEvent(upsertOk, _, at) =>
      if upsertOk then Some(TakeSnapshot(e.(breaker := CB.Reset(e.breaker, at)), at)) else None
    case AddBlacklistEvent(_, _, io, at) => if io.storeOk && io.upsertOk then Some(TakeSnapshot(e, at)) else None
    case RemoveBlacklistEvent(_, io, at) => if io.storeOk && io.upsertOk then Some(TakeSnapshot(e, at)) else None
    case ResolveEvent(id, upsertOk, at) =>
      if upsertOk then Some(TakeSnapshot(e.(books := e.books.(ledger := Resolve(e.books.ledger, id, at))), at)) else None
    case _ => None
  }

  function StoreStep(s: Persisted, e: Engine, ev: Event): Persisted {
    if Written(e, ev).Some? then Written(e, ev).value else s
  }

  function StoreAfter(s: Persisted, e: Engine, evs: seq<Event>): Persisted {
    if evs == [] then s
    else
      var before := evs[..|evs| - 1];
      StoreStep(StoreAfter(s, e, before), Run(e, before), evs[|evs| - 1])
  }

  // ── The store lags behind ──────────────────────────────────────────────────

  predicate StoreTrades(s: Persisted) { s.breakerState == ClosedName || s.breakerState == HalfOpenName }

  predicate Trades(e: Engine) { e.breaker.state.AllowsTrading() }

  /** The stored breaker trades and the live one does not. */
  predicate Lags(e: Engine, s: Persisted) { StoreTrades(s) && !Trades(e) }

  lemma SnapshotTrades(e: Engine, at: int)
    ensures StoreTrades(TakeSnapshot(e, at)) <==> Trades(e)
  {
  }

  /** Calls that stop trading without writing the state and without an error. */
  predicate SilentStop(e: Engine, ev: Event) {
    match ev
    case HaltEvent(_, _) => true
    case TickEvent(io, _) => io.stale.Some? && io.stale.value > 0
    case HeartbeatFailedEvent(_) => SaturateU32(e.breaker.heartbeatFailures + 1) >= e.config.heartbeatMaxFailures
    case FokFailedEvent(n, _) => n >= e.config.maxConsecutiveMisses
    case _ => false
  }

  /** A call that returns an error, other than for a failed stale-entry query. */
  predicate FailedCall(e: Engine, ev: Event) { Step(e, ev).1 == Error && !Safety.QueryFails(ev) }

  /** The live breaker stops and the store still shows one that trades. */
  predicate StopsUnstored(e: Engine, s: Persisted, ev: Event) {
    (SilentStop(e, ev) || FailedCall(e, ev)) && StoreTrades(StoreStep(s, e, ev))
  }

  lemma FailedCallStops(e: Engine, ev: Event)
    requires FailedCall(e, ev)
    ensures !Trades(Step(e, ev).0)
  {
    Safety.ErrorsFailClosed(e, ev);
  }

  lemma SilentStopStops(e: Engine, ev: Event)
    requires SilentStop(e, ev)
    ensures !Trades(Step(e, ev).0)
  {
  }

  lemma FillKeepsUp(e: Engine, t: Trade, m: Metrics, io: FillIo, now: int)
    requires OnFill(e, t, m, io, now).1 != Error
    ensures var e', w := OnFill(e, t, m, io, now).0, WrittenByFill(e, t, m, io, now);
            if w.Some? then StoreTrades(w.value) == Trades(e') else e'.breaker == e.breaker
  {
    SnapshotTrades(ApplyTrade(e, Fill, t, m, now), now);
  }

  lemma SettlementKeepsUp(e: Engine, t: Trade, m: Metrics, io: SettleIo, now: int)
    requires OnSettlement(e, t, m, io, now).1 != Error
    ensures var e', w := OnSettlement(e, t, m, io, now).0, WrittenBySettlement(e, t, m, io, now);
            w.Some? && StoreTrades(w.value) == Trades(e')
  {
    SnapshotTrades(ApplyTrade(e, Settlement, t, m, now), now);
  }

  lemma TickKeepsUp(e: Engine, io: TickIo, now: int)
    requires !(io.stale.Some? && io.stale.value > 0) && (OnTick(e, io, now).1 != Error || io.stale.None?)
    ensures var e', w := OnTick(e, io, now).0, WrittenByTick(e, io, now);
            if w.Some? then StoreTrades(w.value) == Trades(e') else Trades(e) ==> Trades(e')
  {
    SnapshotTrades(Advance(e, now), now);
  }

  lemma ReconciliationKeepsUp(e: Engine, critical: bool, io: ReconcileIo, now: int)
    requires OnReconciliation(e, critical, io, now).1 != Error
    ensures var e', w := OnReconciliation(e, critical, io, now).0, WrittenByReconciliation(e, critical, io, now);
            if w.Some? then StoreTrades(w.value) == Trades(e') else e'.breaker == e.breaker
  {
  }

  lemma OtherKeepsUp(e: Engine, ev: Event)
    requires !ev.FillEvent? && !ev.SettleEvent? && !ev.TickEvent? && !ev.ReconcileEvent?
    requires Step(e, ev).1 != Error && !SilentStop(e, ev)
    ensures var e', w := Step(e, ev).0, Written(e, ev);
            if w.Some? then StoreTrades(w.value) == Trades(e') else Trades(e) ==> Trades(e')
  {
  }

  /** A call that neither fails nor stops silently leaves the store up to date, or the breaker trading as
      before. */
  lemma StepKeepsUp(e: Engine, ev: Event)
    requires !SilentStop(e, ev) && !FailedCall(e, ev)
    ensures var e', w := Step(e, ev).0, Written(e, ev);
            if w.Some? then StoreTrades(w.value) == Trades(e') else Trades(e) ==> Trades(e')
  {
    match ev {
      case FillEvent(t, m, io, at) => FillKeepsUp(e, t, m, io, at);
      case SettleEvent(t, m, io, at) => SettlementKeepsUp(e, t, m, io, at);
      case TickEvent(io, at) => TickKeepsUp(e, io, at);
      case ReconcileEvent(critical, io, at) => ReconciliationKeepsUp(e, critical, io, at);
      case _ => OtherKeepsUp(e, ev);
    }
  }

  /** The store falls behind exactly at a call that fails or stops silently while the store shows a trading
      breaker. */
  lemma LagBeginsIff(e: Engine, s: Persisted, ev: Event)
    requires !Lags(e, s)
    ensures Lags(Step(e, ev).0, StoreStep(s, e, ev)) <==> StopsUnstored(e, s, ev)
  {
    if FailedCall(e, ev) {
      FailedCallStops(e, ev);
    } else if SilentStop(e, ev) {
      SilentStopStops(e, ev);
    } else {
      StepKeepsUp(e, ev);
    }
  }

  /** The store catches up when a stopped breaker is written, or the breaker trades again. */
  predicate CatchesUp(e: Engine, s: Persisted, ev: Event) { !StoreTrades(StoreStep(s, e, ev)) || Trades(Step(e, ev).0) }

  /** At which events of the run trading stopped unstored. */
  ghost function Stops(e: Engine, s: Persisted, evs: seq<Event>): (r: seq<bool>)
    ensures |r| == |evs|
  {
    if evs == [] then []
    else
      var init := evs[..|evs| - 1];
      Stops(e, s, init) + [StopsUnstored(Run(e, init), StoreAfter(s, e, init), evs[|evs| - 1])]
  }

  /** At which events of the run a lagging store caught up. */
  ghost function CatchUps(e: Engine, s: Persisted, evs: seq<Event>): (r: seq<bool>)
    ensures |r| == |evs|
  {
    if evs == [] then []
    else
      var init := evs[..|evs| - 1];
      CatchUps(e, s, init) + [CatchesUp(Run(e, init), StoreAfter(s, e, init), evs[|evs| - 1])]
  }

  /** Some stop that nothing caught up with since. */
  predicate Behind(stops: seq<bool>, catches: seq<bool>)
    requires |stops| == |catches|
  {
    exists i :: 0 <= i < |stops| && stops[i] && forall j :: i < j < |stops| ==> !catches[j]
  }

  lemma BehindNext(stops: seq<bool>, catches: seq<bool>, stop: bool, catch: bool)
    requires |stops| == |catches|
    ensures Behind(stops + [stop], catches + [catch]) <==> stop || (Behind(stops, catches) && !catch)
  {
    var n, ss, cs := |stops|, stops + [stop], catches + [catch];
    if stop { assert ss[n]; }
    if Behind(stops, catches) && !catch {
      var i :| 0 <= i < n && stops[i] && forall j :: i < j < n ==> !catches[j];
      assert ss[i] && forall j :: i < j < n + 1 ==> !cs[j];
    }
    if Behind(ss, cs) && !stop {
      var i :| 0 <= i < n + 1 && ss[i] && forall j :: i < j < n + 1 ==> !cs[j];
      assert !cs[n] && stops[i] && forall j :: i < j < n ==> catches[j] == cs[j];
    }
  }

  /** Some call stopped trading unstored, and nothing caught up since. */
  ghost predicate LeftBehind(e: Engine, s: Persisted, evs: seq<Event>) { Behind(Stops(e, s, evs), CatchUps(e, s, evs)) }

  /** Over every run the store lags behind the live breaker at the end exactly when some call stopped trading
      unstored and nothing caught up since. */
  lemma {:induction false} LagIff(e: Engine, s: Persisted, evs: seq<Event>)
    requires !Lags(e, s)
    ensures Lags(Run(e, evs), StoreAfter(s, e, evs)) <==> LeftBehind(e, s, evs)
  {
    if evs != [] {
      var n := |evs| - 1;
      LagIff(e, s, evs[..n]);
      var mid, store := Run(e, evs[..n]), StoreAfter(s, e, evs[..n]);
      BehindNext(Stops(e, s, evs[..n]), CatchUps(e, s, evs[..n]), StopsUnstored(mid, store, evs[n]),
                 CatchesUp(mid, store, evs[n]));
      LagAfter(mid, store, evs[n]);
    }
  }

  lemma LagAfter(e: Engine, s: Persisted, ev: Event)
    ensures Lags(Step(e, ev).0, StoreStep(s, e, ev)) <==> StopsUnstored(e, s, ev) || (Lags(e, s) && !CatchesUp(e, s, ev))
  {
    LagStays(e, s, ev);
    if !Lags(e, s) { LagBeginsIff(e, s, ev); }
  }

  lemma LagStays(e: Engine, s: Persisted, ev: Event)
    ensures Lags(Step(e, ev).0, StoreStep(s, e, ev)) <==> !CatchesUp(e, s, ev)
    ensures StopsUnstored(e, s, ev) ==> !CatchesUp(e, s, ev)
  {
    if FailedCall(e, ev) {
      FailedCallStops(e, ev);
    } else if SilentStop(e, ev) {
      SilentStopStops(e, ev);
    }
  }

  // ── Restarting from the store ──────────────────────────────────────────────

  lemma RebuiltTradesIff(c: RiskConfig, s: Persisted, entries: seq<Entry>, loaded: BL.Entries, openPositions: nat,
                         equity: real, markers: set<TradeId>, now: int)
    requires Build(c, s, entries, loaded, openPositions, equity, markers, now).Some?
    ensures Trades(Build(c, s, entries, loaded, openPositions, equity, markers, now).value) <==>
      StoreTrades(s) && !HasStale(c, ById(entries), now)
  {
    var b := RestoreBreaker(c.breaker, s).value;
    var l := RestoreBooks(c, s, entries, now).ledger;
    assert l.entries == ById(entries);
    assert MustHalt(c, b, l, now) <==> b.state.Halted? || (b.state.Open? && b.state.cooldownUntil > now) || HasStale(c, ById(entries), now);
  }

  /** An engine rebuilt from the store trades while the crashed one did not exactly when some call of the run
      stopped trading unstored, nothing caught up since, and no pending loss is stale. */
  lemma RestartTradesWhileStoppedIff(e: Engine, s: Persisted, evs: seq<Event>, c: RiskConfig, entries: seq<Entry>,
                                     loaded: BL.Entries, openPositions: nat, equity: real, markers: set<TradeId>, now: int)
    requires !Lags(e, s)
    requires Build(c, StoreAfter(s, e, evs), entries, loaded, openPositions, equity, markers, now).Some?
    ensures var r := Build(c, StoreAfter(s, e, evs), entries, loaded, openPositions, equity, markers, now).value;
            Trades(r) && !Trades(Run(e, evs)) <==>
              !HasStale(c, ById(entries), now) && LeftBehind(e, s, evs)
  {
    LagIff(e, s, evs);
    RebuiltTradesIff(c, StoreAfter(s, e, evs), entries, loaded, openPositions, equity, markers, now);
  }

  /** A manual halt is such a call: a trading engine that is halted and then crashes comes back trading. */
  lemma HaltIsNotStored(e: Engine, at: int, reason: string, later: int)
    requires Trades(e)
    ensures Lags(Run(e, [HaltEvent(reason, later)]), StoreAfter(TakeSnapshot(e, at), e, [HaltEvent(reason, later)]))
  {
    var ev := HaltEvent(reason, later);
    assert [ev][..0] == [];
    assert Run(e, []) == e && StoreAfter(TakeSnapshot(e, at), e, []) == TakeSnapshot(e, at);
    LagBeginsIff(e, TakeSnapshot(e, at), ev);
  }
}
