/** What the published snapshot shows over a run: the live windows, budget, potential loss, high-water mark and
    halt reason; and what the state version counts. */
module PublishedState {
  import opened MachineInts
  import opened RiskEngineModel
  import opened WindowTotals
  import CB = CircuitBreakers
  import BL = Blacklists
  import Caps = RiskEngineCaps
  import Safety = RiskEngineSafety

  // ── The snapshot shows the live state ──────────────────────────────────────

  predicate ShowsBooks(s: RiskSnapshot, b: Books) {
    && s.dailyLoss == b.daily.stats.loss && s.dailyFees == b.daily.stats.fees && s.dailyPnl == b.daily.stats.pnl
    && s.budgetRemaining == b.daily.budgetRemaining
    && s.weeklyLoss == b.weekly.stats.loss
    && s.hourlyLoss == b.hourly.stats.loss && s.hourlyFees == b.hourly.stats.fees
    && s.totalPotentialLoss == b.ledger.runningTotal
  }

  predicate ShowsHalt(s: RiskSnapshot, b: CB.Breaker) {
    s.manualHalt == if b.state.Halted? then Some(b.state.reason) else None
  }

  /** The guard works with the configured limits. */
  predicate GuardConfigured(e: Engine) {
    e.drawdown.maxPct == e.config.maxDrawdownPct && e.drawdown.reduction == e.config.drawdownReduction
  }

  predicate Shown(e: Engine) {
    ShowsBooks(e.published, e.books) && ShowsHalt(e.published, e.breaker) && GuardConfigured(e) && e.published.drawdown == e.drawdown
  }

  lemma PublishShows(e: Engine, now: int)
    requires GuardConfigured(e)
    ensures Shown(Publish(e, now))
  {
  }

  lemma FollowUpShows(e: Engine, tripped: Option<CB.Level>, autoAdded: bool, blacklistOk: bool, now: int)
    requires Shown(e)
    ensures Shown(FollowUp(e, tripped, autoAdded, blacklistOk, now).0)
  {
  }

  lemma PersistShows(e: Engine, upsertOk: bool, auditOk: bool, now: int)
    requires Shown(e)
    ensures Shown(PersistAndAudit(e, upsertOk, auditOk, now).0)
  {
  }

  lemma ApplyShows(e: Engine, phase: Phase, t: Trade, m: Metrics, now: int)
    requires GuardConfigured(e)
    ensures Shown(ApplyTrade(e, phase, t, m, now))
  {
  }

  lemma FillShows(e: Engine, t: Trade, m: Metrics, io: FillIo, now: int)
    requires Shown(e)
    ensures Shown(OnFill(e, t, m, io, now).0)
  {
    var a := ApplyTrade(e, Fill, t, m, now);
    ApplyShows(e, Fill, t, m, now);
    PublishShows(HaltSystem(e, CLAIM_FAILED, now), now);
    PublishShows(HaltSystem(Restore(a, e, now), COMMIT_FAILED, now), now);
    FollowUpShows(a.(applied := a.applied + {t.id}), TrippedLevel(e, Fill, t, m, now), AutoBlacklists(e, t, m), io.blacklistOk, now);
  }

  lemma SettlementShows(e: Engine, t: Trade, m: Metrics, io: SettleIo, now: int)
    requires Shown(e)
    ensures Shown(OnSettlement(e, t, m, io, now).0)
  {
    var a := ApplyTrade(e, Settlement, t, m, now);
    ApplyShows(e, Settlement, t, m, now);
    PublishShows(HaltSystem(e, RESOLVE_FAILED, now), now);
    PersistShows(a, io.upsertOk, io.auditOk, now);
    FollowUpShows(a, TrippedLevel(e, Settlement, t, m, now), AutoBlacklists(e, t, m), io.blacklistOk, now);
  }

  lemma TickShows(e: Engine, io: TickIo, now: int)
    requires Shown(e) && io.stale.Some?
    ensures Shown(OnTick(e, io, now).0)
  {
    var e1 := Advance(e, now);
    PublishShows(HaltSystem(e1, STALE_LOSSES, now), now);
    PublishShows(e1, now);
    PublishShows(HaltSystem(Publish(e1, now), TICK_PERSIST, now), now);
    if !TickChanges(e, now) { QuietAdvance(e, now); }
  }

  lemma QuietAdvance(e: Engine, now: int)
    requires !TickChanges(e, now)
    ensures Advance(e, now).books == e.books && Advance(e, now).breaker == e.breaker
  {
  }

  lemma ReconciliationShows(e: Engine, critical: bool, io: ReconcileIo, now: int)
    requires Shown(e)
    ensures Shown(OnReconciliation(e, critical, io, now).0)
  {
    var e1 := Publish(Bump(HaltSystem(e, CRITICAL_DRIFT, now)), now);
    PublishShows(HaltSystem(e, REPORT_PERSIST, now), now);
    PublishShows(HaltSystem(e, RECONCILE_AUDIT, now), now);
    PublishShows(Bump(HaltSystem(e, CRITICAL_DRIFT, now)), now);
    PublishShows(HaltSystem(e1, RECONCILE_PERSIST, now), now);
  }

  lemma ReleaseShows(e: Engine, upsertOk: bool, auditOk: bool, now: int)
    requires Shown(e)
    ensures Shown(Acknowledge(e, auditOk, now).0) && Shown(ResetBreaker(e, upsertOk, auditOk, now).0)
  {
    var e1 := Bump(e.(breaker := CB.AcknowledgeAndResume(e.breaker, now)));
    var e2 := Bump(e.(breaker := CB.Reset(e.breaker, now)));
    PublishShows(e1, now);
    PublishShows(HaltSystem(Publish(e1, now), RESUME_AUDIT, now), now);
    PublishShows(e2, now);
    PersistShows(Publish(e2, now), upsertOk, auditOk, now);
  }

  lemma CommitShows(e: Engine, es: BL.Entries, failure: string, io: BlacklistIo, now: int)
    requires Shown(e)
    ensures Shown(CommitBlacklist(e, es, failure, io, now).0)
  {
    var e1 := e.(blacklist := es);
    PublishShows(HaltSystem(e1, failure, now), now);
    PublishShows(Bump(e1), now);
    PersistShows(Publish(Bump(e1), now), io.upsertOk, io.auditOk, now);
  }

  lemma OperatorShows(e: Engine, ev: Event)
    requires Shown(e) && OperatorCall(ev)
    ensures Shown(Step(e, ev).0)
  {
    match ev {
      case HaltEvent(reason, at) => PublishShows(HaltSystem(e, reason, at), at);
      case AckEvent(auditOk, at) => ReleaseShows(e, true, auditOk, at);
      case ResetEvent(upsertOk, auditOk, at) => ReleaseShows(e, upsertOk, auditOk, at);
      case AddBlacklistEvent(market, why, io, at) =>
        CommitShows(e, BL.AddPermanent(e.blacklist, market, why, at), BLACKLIST_STORE, io, at);
      case RemoveBlacklistEvent(market, io, at) =>
        CommitShows(e, BL.Remove(e.blacklist, market), BLACKLIST_REMOVE, io, at);
    }
  }

  lemma UpkeepShows(e: Engine, ev: Event)
    requires Shown(e) && !TradingCall(ev) && !OperatorCall(ev)
    ensures Shown(Step(e, ev).0)
  {
  }

  lemma StepShows(e: Engine, ev: Event)
    requires Shown(e) && !Safety.QueryFails(ev)
    ensures Shown(Step(e, ev).0)
  {
    match ev {
      case FillEvent(t, m, io, at) => FillShows(e, t, m, io, at);
      case SettleEvent(t, m, io, at) => SettlementShows(e, t, m, io, at);
      case TickEvent(io, at) => TickShows(e, io, at);
      case ReconcileEvent(critical, io, at) => ReconciliationShows(e, critical, io, at);
      case _ => if OperatorCall(ev) { OperatorShows(e, ev); } else { UpkeepShows(e, ev); }
    }
  }

  /** At every step boundary of every run in which no stale-entry query fails, the published snapshot shows the
      live windows, budget, potential loss, high-water mark and halt reason. */
  lemma {:induction false} SnapshotShowsState(e: Engine, evs: seq<Event>)
    requires Shown(e) && forall i :: 0 <= i < |evs| ==> !Safety.QueryFails(evs[i])
    ensures Shown(Run(e, evs))
  {
    if evs != [] {
      SnapshotShowsState(e, evs[..|evs| - 1]);
      StepShows(Run(e, evs[..|evs| - 1]), evs[|evs| - 1]);
    }
  }

  /** So the hot path reads the losses of the trades themselves. */
  lemma SnapshotShowsLosses(e: Engine, evs: seq<Event>)
    requires Shown(e) && forall i :: 0 <= i < |evs| ==> !Safety.QueryFails(evs[i])
    ensures var s := Run(e, evs).published;
      && s.dailyLoss == Caps.LossInWindow(DayPeriod, e, evs)
      && s.weeklyLoss == Caps.LossInWindow(WeekPeriod, e, evs)
      && s.hourlyLoss == Caps.LossInWindow(HourPeriod, e, evs)
  {
    SnapshotShowsState(e, evs);
    Caps.LossesShow(e, evs);
  }
}
