/** Safety of the risk engine over whole runs: a halt is sticky, errors fail closed, and the published
    snapshot never allows what the live breaker denies. */
module RiskEngineSafety {
  import opened MachineInts
  import opened RiskEngineModel
  import opened RiskEngineTrace
  import CB = CircuitBreakers
  import BL = Blacklists
  import BR = BreakerRuns

  // ── Halting ────────────────────────────────────────────────────────────────

  lemma StepKeepsHalt(e: Engine, ev: Event, l: CB.Level)
    requires BR.HaltedAtLeast(e.breaker, l) && !OperatorRelease(ev)
    ensures BR.HaltedAtLeast(Step(e, ev).0.breaker, l)
  {
    StepTrace(e, ev);
    TraceShape(e, ev);
    BR.HaltStays(e.breaker, Trace(e, ev), l);
  }

  /** Once halted, the engine stays halted at a level that never drops, through every run without an
      operator acknowledgement or reset: fills, rollbacks, settlements, ticks, trips and reloads
      included. */
  lemma HaltIsSticky(e: Engine, evs: seq<Event>, l: CB.Level)
    requires BR.HaltedAtLeast(e.breaker, l)
    requires forall i :: 0 <= i < |evs| ==> !OperatorRelease(evs[i])
    ensures BR.HaltedAtLeast(Run(e, evs).breaker, l)
  {
    EngineRefinesBreaker(e, evs);
    FullTraceShape(e, evs);
    BR.HaltStays(e.breaker, FullTrace(e, evs), l);
  }

  /** Open and HalfOpen, the states with an automatic way back, only ever carry a Session fault. */
  lemma OnlySessionFaultsRecover(e: Engine, evs: seq<Event>)
    requires BR.SessionOnly(e.breaker)
    ensures BR.SessionOnly(Run(e, evs).breaker)
  {
    EngineRefinesBreaker(e, evs);
    FullTraceShape(e, evs);
    BR.SessionStays(e.breaker, FullTrace(e, evs));
  }

  /** A reset that is stored and audited leaves the engine trading, published and with a trip count of zero,
      whatever state it was in; so does an audited acknowledgement of a halt.  If the store or the audit fails,
      the engine ends halted. */
  lemma OperatorReleases(e: Engine, upsertOk: bool, auditOk: bool, now: int)
    ensures var r := ResetBreaker(e, upsertOk, auditOk, now).0;
      && (upsertOk && auditOk ==> r.breaker.state == CB.Closed && r.breaker.l2TripCount == 0 && r.published.AllowsTrading())
      && (!(upsertOk && auditOk) ==> r.breaker.state.Halted? && !r.published.AllowsTrading())
    ensures var a := Acknowledge(e, auditOk, now).0;
      && (auditOk && e.breaker.state.Halted? ==>
           a.breaker.state == CB.Closed && a.breaker.l2TripCount == 0 && a.published.AllowsTrading())
      && (auditOk && !e.breaker.state.Halted? ==> a.breaker == e.breaker)
      && (!auditOk ==> a.breaker.state.Halted? && !a.published.AllowsTrading())
  {
  }

  // ── Caps are enforced ──────────────────────────────────────────────────────

  /** What a breached cap demands of the breaker. */
  ghost predicate Enforced(c: RiskConfig, books: Books, b: CB.Breaker, m: Metrics, settled: bool) {
    && (settled && (DailyLossBreached(c, books) || SingleLossBreached(c, books)) ==> BR.HaltedAtLeast(b, CB.Daily))
    && (settled && WeeklyLossBreached(c, books) ==> BR.HaltedAtLeast(b, CB.System))
    && (settled && HourlyLossBreached(c, books) ==> !b.state.AllowsTrading())
    && (DailyFeesBreached(c, books) ==> BR.HaltedAtLeast(b, CB.Daily))
    && (HourlyFeesBreached(c, books) || TooManyMisses(c, m) || TooManyApiErrors(c, m) ==> !b.state.AllowsTrading())
  }

  lemma LossCapsEnforced(c: RiskConfig, books: Books, b: CB.Breaker, now: int)
    requires BR.SessionOnly(b)
    ensures var b' := CheckLossCaps(c, books, b, now);
      && (DailyLossBreached(c, books) || SingleLossBreached(c, books) || DailyFeesBreached(c, books) ==> BR.HaltedAtLeast(b', CB.Daily))
      && (WeeklyLossBreached(c, books) ==> BR.HaltedAtLeast(b', CB.System))
      && (HourlyLossBreached(c, books) ==> !b'.state.AllowsTrading())
  {
  }

  lemma CommonChecksEnforced(c: RiskConfig, books: Books, b: CB.Breaker, t: Trade, m: Metrics, now: int)
    requires BR.SessionOnly(b)
    ensures var b' := CommonChecks(c, books, b, t, m, now);
      && (DailyFeesBreached(c, books) ==> BR.HaltedAtLeast(b', CB.Daily))
      && (HourlyFeesBreached(c, books) || TooManyMisses(c, m) || TooManyApiErrors(c, m) ==> !b'.state.AllowsTrading())
      && (!b.state.AllowsTrading() ==> !b'.state.AllowsTrading())
  {
  }

  /** After a trade result every breached cap shows in the breaker, whatever state it was in: loss
      and daily-fee caps halt it, hourly caps, misses and API errors at least stop trading. */
  lemma BreachedCapsStopTrading(e: Engine, phase: Phase, t: Trade, m: Metrics, now: int)
    requires BR.SessionOnly(e.breaker)
    ensures var a := ApplyTrade(e, phase, t, m, now);
            Enforced(e.config, a.books, a.breaker, m, phase.Settlement?)
  {
    var books := if phase.Fill? then BookFill(e.books, t, now) else BookSettlement(e.books, t, now);
    LossCapsEnforced(e.config, books, e.breaker, now);
    CapTraceRuns(e.config, books, e.breaker, now);
    PlainChecks(e.config, books, t, m, now);
    BR.SessionStays(e.breaker, CapTrace(e.config, books, now));
    var capped := if phase.Fill? then e.breaker else CheckLossCaps(e.config, books, e.breaker, now);
    CommonChecksEnforced(e.config, books, capped, t, m, now);
    CommonTraceRuns(e.config, books, capped, t, m, now);
    forall l | BR.HaltedAtLeast(capped, l) ensures BR.HaltedAtLeast(CommonChecks(e.config, books, capped, t, m, now), l) {
      BR.HaltStays(capped, CommonTrace(e.config, books, t, m, now), l);
    }
  }

  /** The reported level is the highest one any breached cap calls for, and none otherwise. */
  lemma ReportedLevelIsHighest(e: Engine, phase: Phase, t: Trade, m: Metrics, now: int)
    ensures var books := ApplyTrade(e, phase, t, m, now).books;
            var c, settled := e.config, phase.Settlement?;
            TrippedLevel(e, phase, t, m, now) ==
              if settled && WeeklyLossBreached(c, books) then Some(CB.System)
              else if DailyFeesBreached(c, books)
                   || (settled && (DailyLossBreached(c, books) || SingleLossBreached(c, books))) then Some(CB.Daily)
              else if HourlyFeesBreached(c, books) || TooManyMisses(c, m) || TooManyApiErrors(c, m)
                   || (settled && HourlyLossBreached(c, books)) then Some(CB.Session)
              else None
  {
    var books, c := ApplyTrade(e, phase, t, m, now).books, e.config;
    HighestLevel(phase.Settlement?, DailyLossBreached(c, books), WeeklyLossBreached(c, books), SingleLossBreached(c, books),
                 DailyFeesBreached(c, books), HourlyLossBreached(c, books), HourlyFeesBreached(c, books),
                 TooManyMisses(c, m), TooManyApiErrors(c, m));
  }

  lemma HighestLevel(settled: bool, daily: bool, weekly: bool, single: bool, fees: bool, hourly: bool, hourlyFees: bool,
                     misses: bool, api: bool)
    ensures var losses := Escalate(Escalate(Escalate(None, daily, CB.Daily), weekly, CB.System), single, CB.Daily);
            var caps := if settled then Escalate(Escalate(losses, fees, CB.Daily), hourly, CB.Session) else None;
            var checked := if fees then Some(CB.Daily) else if misses then Some(CB.Session) else None;
            MergeLevels(caps, Escalate(Escalate(checked, hourlyFees, CB.Session), api, CB.Session)) ==
              if settled && weekly then Some(CB.System)
              else if fees || (settled && (daily || single)) then Some(CB.Daily)
              else if hourlyFees || misses || api || (settled && hourly) then Some(CB.Session)
              else None
  {
  }

  // ── Fail closed ────────────────────────────────────────────────────────────

  predicate FailedClosed(e: Engine) { e.breaker.state.Halted? && !e.published.AllowsTrading() }

  /** Every error leaves the live breaker halted and the published snapshot denying trades, with one
      exception: a tick whose stale-entry query fails. */
  lemma ErrorsFailClosed(e: Engine, ev: Event)
    requires Step(e, ev).1 == Error
    ensures FailedClosed(Step(e, ev).0) || (ev.TickEvent? && ev.tickIo.stale.None?)
  {
    match ev {
      case FillEvent(t, m, io, at) => FillFailsClosed(e, t, m, io, at);
      case SettleEvent(t, m, io, at) => SettlementFailsClosed(e, t, m, io, at);
      case TickEvent(io, at) => TickFailsClosed(e, io, at);
      case ReconcileEvent(critical, io, at) => ReconciliationFailsClosed(e, critical, io, at);
      case _ =>
    }
  }

  lemma HaltFailsClosed(e: Engine, reason: string, now: int)
    ensures FailedClosed(HaltInternal(e, reason, now))
  {
  }

  lemma FollowUpFailsClosed(e: Engine, tripped: Option<CB.Level>, autoAdded: bool, blacklistOk: bool, now: int)
    ensures FollowUp(e, tripped, autoAdded, blacklistOk, now).1 == Error ==> FailedClosed(FollowUp(e, tripped, autoAdded, blacklistOk, now).0)
  {
  }

  lemma FillFailsClosed(e: Engine, t: Trade, m: Metrics, io: FillIo, now: int)
    ensures OnFill(e, t, m, io, now).1 == Error ==> FailedClosed(OnFill(e, t, m, io, now).0)
  {
    var a := ApplyTrade(e, Fill, t, m, now);
    HaltFailsClosed(e, CLAIM_FAILED, now);
    HaltFailsClosed(Restore(a, e, now), COMMIT_FAILED, now);
    FollowUpFailsClosed(a.(applied := a.applied + {t.id}), TrippedLevel(e, Fill, t, m, now), AutoBlacklists(e, t, m), io.blacklistOk, now);
  }

  lemma SettlementFailsClosed(e: Engine, t: Trade, m: Metrics, io: SettleIo, now: int)
    ensures OnSettlement(e, t, m, io, now).1 == Error ==> FailedClosed(OnSettlement(e, t, m, io, now).0)
  {
    var a := ApplyTrade(e, Settlement, t, m, now);
    HaltFailsClosed(e, RESOLVE_FAILED, now);
    HaltFailsClosed(a, PERSIST_FAILED, now);
    HaltFailsClosed(a, AUDIT_FAILED, now);
    FollowUpFailsClosed(a, TrippedLevel(e, Settlement, t, m, now), AutoBlacklists(e, t, m), io.blacklistOk, now);
  }

  lemma TickFailsClosed(e: Engine, io: TickIo, now: int)
    ensures OnTick(e, io, now).1 == Error && io.stale.Some? ==> FailedClosed(OnTick(e, io, now).0)
  {
    HaltFailsClosed(Advance(e, now), STALE_LOSSES, now);
    HaltFailsClosed(Publish(Advance(e, now), now), TICK_PERSIST, now);
  }

  lemma ReconciliationFailsClosed(e: Engine, critical: bool, io: ReconcileIo, now: int)
    ensures OnReconciliation(e, critical, io, now).1 == Error ==> FailedClosed(OnReconciliation(e, critical, io, now).0)
  {
  }

  /** The exception: that tick leaves the advanced breaker as it is and publishes nothing, so it ends
      halted exactly when the breaker was halted before. */
  lemma FailedTickQuery(e: Engine, io: TickIo, now: int)
    requires io.stale.None?
    ensures var (e', reply) := OnTick(e, io, now);
            && reply == Error && e'.published == e.published && e'.breaker == CB.Tick(e.breaker, now)
            && (e'.breaker.state.Halted? <==> e.breaker.state.Halted?)
  {
  }

  // ── Publication ────────────────────────────────────────────────────────────

  /** The published gate is the live gate. */
  predicate InSync(e: Engine) {
    && e.published.AllowsTrading() == e.breaker.state.AllowsTrading()
    && (e.published.AllowsTrading() ==> e.published.isProbe == e.breaker.state.IsProbeMode())
  }

  /** The published gate is at most as permissive as the live one. */
  predicate Conservative(e: Engine) { e.published.AllowsTrading() ==> e.breaker.state.AllowsTrading() }

  predicate QueryFails(ev: Event) { ev.TickEvent? && ev.tickIo.stale.None? }

  lemma FillGate(e: Engine, t: Trade, m: Metrics, io: FillIo, now: int)
    ensures InSync(e) ==> InSync(OnFill(e, t, m, io, now).0)
    ensures Conservative(e) ==> Conservative(OnFill(e, t, m, io, now).0)
  {
  }

  lemma PublishSyncs(e: Engine, now: int)
    ensures InSync(Publish(e, now))
  {
  }

  lemma FollowUpSyncs(e: Engine, tripped: Option<CB.Level>, autoAdded: bool, blacklistOk: bool, now: int)
    requires InSync(e)
    ensures InSync(FollowUp(e, tripped, autoAdded, blacklistOk, now).0)
  {
  }

  lemma SettlementGate(e: Engine, t: Trade, m: Metrics, io: SettleIo, now: int)
    ensures InSync(OnSettlement(e, t, m, io, now).0)
  {
    var a := ApplyTrade(e, Settlement, t, m, now);
    PublishSyncs(HaltSystem(e, RESOLVE_FAILED, now), now);
    PublishSyncs(HaltSystem(a, PERSIST_FAILED, now), now);
    PublishSyncs(HaltSystem(a, AUDIT_FAILED, now), now);
    ApplySyncs(e, Settlement, t, m, now);
    FollowUpSyncs(a, TrippedLevel(e, Settlement, t, m, now), AutoBlacklists(e, t, m), io.blacklistOk, now);
  }

  lemma ApplySyncs(e: Engine, phase: Phase, t: Trade, m: Metrics, now: int)
    ensures InSync(ApplyTrade(e, phase, t, m, now))
  {
  }

  lemma AdvanceGate(e: Engine, now: int)
    ensures Conservative(e) ==> Conservative(Advance(e, now))
    ensures InSync(e) && !CB.TickTransitions(e.breaker.state, now) ==> InSync(Advance(e, now))
  {
  }

  lemma TickGate(e: Engine, io: TickIo, now: int)
    ensures InSync(e) && io.stale.Some? ==> InSync(OnTick(e, io, now).0)
    ensures Conservative(e) ==> Conservative(OnTick(e, io, now).0)
  {
    var e1 := Advance(e, now);
    AdvanceGate(e, now);
    PublishSyncs(HaltSystem(e1, STALE_LOSSES, now), now);
    PublishSyncs(e1, now);
    PublishSyncs(HaltSystem(Publish(e1, now), TICK_PERSIST, now), now);
  }

  lemma ReconciliationGate(e: Engine, critical: bool, io: ReconcileIo, now: int)
    ensures InSync(e) ==> InSync(OnReconciliation(e, critical, io, now).0)
    ensures Conservative(e) ==> Conservative(OnReconciliation(e, critical, io, now).0)
  {
  }

  lemma HeartbeatGate(e: Engine, now: int)
    ensures InSync(e) ==> InSync(HeartbeatFailed(e, now))
    ensures Conservative(e) ==> Conservative(HeartbeatFailed(e, now))
  {
  }

  /** What a step keeps of the two gates. */
  ghost predicate GateKept(e: Engine, ev: Event) {
    && (InSync(e) && !QueryFails(ev) ==> InSync(Step(e, ev).0))
    && (Conservative(e) ==> Conservative(Step(e, ev).0))
  }

  lemma TradingGate(e: Engine, ev: Event)
    requires TradingCall(ev)
    ensures GateKept(e, ev)
  {
    match ev {
      case FillEvent(t, m, io, at) => FillGate(e, t, m, io, at);
      case SettleEvent(t, m, io, at) => SettlementGate(e, t, m, io, at);
      case TickEvent(io, at) => TickGate(e, io, at);
      case ReconcileEvent(critical, io, at) => ReconciliationGate(e, critical, io, at);
    }
  }

  lemma PersistSyncs(e: Engine, upsertOk: bool, auditOk: bool, now: int)
    requires InSync(e)
    ensures InSync(PersistAndAudit(e, upsertOk, auditOk, now).0)
  {
  }

  lemma CommitSyncs(e: Engine, es: BL.Entries, failure: string, io: BlacklistIo, now: int)
    ensures InSync(CommitBlacklist(e, es, failure, io, now).0)
  {
    var e1 := e.(blacklist := es);
    PublishSyncs(HaltSystem(e1, failure, now), now);
    PublishSyncs(Bump(e1), now);
    PersistSyncs(Publish(Bump(e1), now), io.upsertOk, io.auditOk, now);
  }

  lemma AcknowledgeSyncs(e: Engine, auditOk: bool, now: int)
    ensures InSync(Acknowledge(e, auditOk, now).0)
  {
  }

  lemma ResetSyncs(e: Engine, upsertOk: bool, auditOk: bool, now: int)
    ensures InSync(ResetBreaker(e, upsertOk, auditOk, now).0)
  {
    var e1 := Bump(e.(breaker := CB.Reset(e.breaker, now)));
    PublishSyncs(e1, now);
    PersistSyncs(Publish(e1, now), upsertOk, auditOk, now);
  }

  lemma OperatorGate(e: Engine, ev: Event)
    requires OperatorCall(ev)
    ensures InSync(Step(e, ev).0)
  {
    match ev {
      case HaltEvent(reason, at) => PublishSyncs(HaltSystem(e, reason, at), at);
      case AckEvent(auditOk, at) => AcknowledgeSyncs(e, auditOk, at);
      case ResetEvent(upsertOk, auditOk, at) => ResetSyncs(e, upsertOk, auditOk, at);
      case AddBlacklistEvent(market, why, io, at) =>
        CommitSyncs(e, BL.AddPermanent(e.blacklist, market, why, at), BLACKLIST_STORE, io, at);
      case RemoveBlacklistEvent(market, io, at) =>
        CommitSyncs(e, BL.Remove(e.blacklist, market), BLACKLIST_REMOVE, io, at);
    }
  }

  lemma UpkeepGate(e: Engine, ev: Event)
    requires !TradingCall(ev) && !OperatorCall(ev)
    ensures GateKept(e, ev)
  {
    if ev.HeartbeatFailedEvent? { HeartbeatGate(e, ev.at); }
  }

  lemma StepKeepsGate(e: Engine, ev: Event)
    ensures GateKept(e, ev)
  {
    if TradingCall(ev) { TradingGate(e, ev); } else if OperatorCall(ev) { OperatorGate(e, ev); } else { UpkeepGate(e, ev); }
  }

  /** At every method boundary of every run the snapshot denies whatever the breaker denies; the two
      gates are equal unless some tick's stale-entry query failed. */
  lemma {:induction false} PublicationIsConservative(e: Engine, evs: seq<Event>)
    requires Conservative(e)
    ensures Conservative(Run(e, evs))
    ensures InSync(e) && (forall i :: 0 <= i < |evs| ==> !QueryFails(evs[i])) ==> InSync(Run(e, evs))
  {
    if evs != [] {
      PublicationIsConservative(e, evs[..|evs| - 1]);
      StepKeepsGate(Run(e, evs[..|evs| - 1]), evs[|evs| - 1]);
    }
  }

  /** The published blacklist holds every live entry unchanged. */
  ghost predicate BlacklistPublished(e: Engine) {
    forall k :: k in e.blacklist ==> k in e.published.blacklist && e.published.blacklist[k] == e.blacklist[k]
  }

  /** A step republishes, or leaves the live entries a subset of what they were. */
  lemma StepKeepsBlacklist(e: Engine, ev: Event)
    requires BlacklistPublished(e)
    ensures BlacklistPublished(Step(e, ev).0)
  {
    var e' := Step(e, ev).0;
    match ev {
      case FillEvent(t, m, io, at) => FillBlacklist(e, t, m, io, at);
      case SettleEvent(t, m, io, at) => SettlementBlacklist(e, t, m, io, at);
      case TickEvent(io, at) => TickBlacklist(e, io, at);
      case ReconcileEvent(critical, io, at) => ReconciliationBlacklist(e, critical, io, at);
      case _ => if OperatorCall(ev) { OperatorBlacklist(e, ev); } else { UpkeepBlacklist(e, ev); }
    }
  }

  lemma TickBlacklist(e: Engine, io: TickIo, now: int)
    requires BlacklistPublished(e)
    ensures BlacklistPublished(OnTick(e, io, now).0)
  {
  }

  /** Republished, or neither blacklist touched. */
  predicate BlacklistFollows(e: Engine, e': Engine) {
    || e'.published.blacklist == e'.blacklist
    || (e'.published.blacklist == e.published.blacklist && e'.blacklist == e.blacklist)
  }

  lemma ReconciliationBlacklist(e: Engine, critical: bool, io: ReconcileIo, now: int)
    ensures BlacklistFollows(e, OnReconciliation(e, critical, io, now).0)
  {
  }

  lemma CommittedBlacklist(e: Engine, es: BL.Entries, failure: string, io: BlacklistIo, now: int)
    ensures BlacklistFollows(e, CommitBlacklist(e, es, failure, io, now).0)
  {
  }

  lemma ReleaseBlacklist(e: Engine, upsertOk: bool, auditOk: bool, now: int)
    ensures BlacklistFollows(e, Acknowledge(e, auditOk, now).0)
    ensures BlacklistFollows(e, ResetBreaker(e, upsertOk, auditOk, now).0)
  {
  }

  lemma OperatorBlacklist(e: Engine, ev: Event)
    requires OperatorCall(ev)
    ensures BlacklistFollows(e, Step(e, ev).0)
  {
    match ev {
      case HaltEvent(reason, at) =>
      case AckEvent(auditOk, at) => ReleaseBlacklist(e, true, auditOk, at);
      case ResetEvent(upsertOk, auditOk, at) => ReleaseBlacklist(e, upsertOk, auditOk, at);
      case AddBlacklistEvent(market, why, io, at) =>
        CommittedBlacklist(e, BL.AddPermanent(e.blacklist, market, why, at), BLACKLIST_STORE, io, at);
      case RemoveBlacklistEvent(market, io, at) =>
        CommittedBlacklist(e, BL.Remove(e.blacklist, market), BLACKLIST_REMOVE, io, at);
    }
  }

  lemma UpkeepBlacklist(e: Engine, ev: Event)
    requires !TradingCall(ev) && !OperatorCall(ev)
    ensures BlacklistFollows(e, Step(e, ev).0)
  {
  }

  lemma FillBlacklist(e: Engine, t: Trade, m: Metrics, io: FillIo, now: int)
    ensures var e' := OnFill(e, t, m, io, now).0;
            e'.published.blacklist == e'.blacklist || (e'.published == e.published && e'.blacklist == e.blacklist)
  {
  }

  lemma SettlementBlacklist(e: Engine, t: Trade, m: Metrics, io: SettleIo, now: int)
    ensures OnSettlement(e, t, m, io, now).0.published.blacklist == OnSettlement(e, t, m, io, now).0.blacklist
  {
  }

  lemma {:induction false} BlacklistStaysPublished(e: Engine, evs: seq<Event>)
    requires BlacklistPublished(e)
    ensures BlacklistPublished(Run(e, evs))
  {
    if evs != [] {
      BlacklistStaysPublished(e, evs[..|evs| - 1]);
      StepKeepsBlacklist(Run(e, evs[..|evs| - 1]), evs[|evs| - 1]);
    }
  }
}
