/** Blocks over whole engine runs: a market added by hand stays fully blocked until it is removed by hand. */
module BlacklistRuns {
  import opened MachineInts
  import opened RiskEngineModel
  import BL = Blacklists

  /** The market has a permanent entry of the widest scope. */
  predicate FullyBlocked(es: BL.Entries, market: BL.Id) {
    BL.Market(market) in es && es[BL.Market(market)].scope == BL.Full && es[BL.Market(market)].IsPermanent()
  }

  predicate Unblocks(ev: Event, market: BL.Id) { ev.RemoveBlacklistEvent? && ev.market == market }

  ghost predicate NeverUnblocks(evs: seq<Event>, market: BL.Id) { forall i :: 0 <= i < |evs| ==> !Unblocks(evs[i], market) }

  lemma FullyBlockedAlways(es: BL.Entries, market: BL.Id, required: BL.Scope, at: int)
    requires FullyBlocked(es, market)
    ensures BL.Check(es, market, required, at).Blocked?
  {
  }

  lemma FillKeepsBlock(e: Engine, t: Trade, m: Metrics, io: FillIo, now: int, market: BL.Id)
    requires FullyBlocked(e.blacklist, market)
    ensures FullyBlocked(OnFill(e, t, m, io, now).0.blacklist, market)
  {
  }

  lemma SettlementKeepsBlock(e: Engine, t: Trade, m: Metrics, io: SettleIo, now: int, market: BL.Id)
    requires FullyBlocked(e.blacklist, market)
    ensures FullyBlocked(OnSettlement(e, t, m, io, now).0.blacklist, market)
  {
  }

  lemma TickKeepsBlock(e: Engine, io: TickIo, now: int, market: BL.Id)
    requires FullyBlocked(e.blacklist, market)
    ensures FullyBlocked(OnTick(e, io, now).0.blacklist, market)
  {
  }

  lemma OperatorKeepsBlock(e: Engine, ev: Event, market: BL.Id)
    requires FullyBlocked(e.blacklist, market) && OperatorCall(ev) && !Unblocks(ev, market)
    ensures FullyBlocked(Step(e, ev).0.blacklist, market)
  {
  }

  lemma UpkeepKeepsBlock(e: Engine, ev: Event, market: BL.Id)
    requires FullyBlocked(e.blacklist, market) && !TradingCall(ev) && !OperatorCall(ev)
    ensures FullyBlocked(Step(e, ev).0.blacklist, market)
  {
    if ev.ReloadEvent? { BL.MergeKeepsEntries(e.blacklist, ev.config.permanentKeys, ev.at); }
  }

  lemma StepKeepsBlock(e: Engine, ev: Event, market: BL.Id)
    requires FullyBlocked(e.blacklist, market) && !Unblocks(ev, market)
    ensures FullyBlocked(Step(e, ev).0.blacklist, market)
  {
    match ev {
      case FillEvent(t, m, io, at) => FillKeepsBlock(e, t, m, io, at, market);
      case SettleEvent(t, m, io, at) => SettlementKeepsBlock(e, t, m, io, at, market);
      case TickEvent(io, at) => TickKeepsBlock(e, io, at, market);
      case ReconcileEvent(_, _, _) =>
      case _ => if OperatorCall(ev) { OperatorKeepsBlock(e, ev, market); } else { UpkeepKeepsBlock(e, ev, market); }
    }
  }

  lemma {:induction false} RunKeepsBlock(e: Engine, evs: seq<Event>, market: BL.Id)
    requires FullyBlocked(e.blacklist, market)
    requires NeverUnblocks(evs, market)
    ensures FullyBlocked(Run(e, evs).blacklist, market)
  {
    if evs != [] {
      RunKeepsBlock(e, evs[..|evs| - 1], market);
      StepKeepsBlock(Run(e, evs[..|evs| - 1]), evs[|evs| - 1], market);
    }
  }

  /** Whatever the store answers, a market added by hand is blocked at every scope and every instant, through
      every run until it is removed by hand: fills and rollbacks, ticks, reloads and other additions included. */
  lemma AddedMarketStaysBlocked(e: Engine, market: BL.Id, why: BL.Reason, io: BlacklistIo, now: int, evs: seq<Event>,
                                required: BL.Scope, later: int)
    requires NeverUnblocks(evs, market)
    ensures BL.Check(AddBlacklist(e, market, why, io, now).0.blacklist, market, required, later) == BL.Blocked(why, BL.Full, None)
    ensures BL.Check(Run(AddBlacklist(e, market, why, io, now).0, evs).blacklist, market, required, later).Blocked?
  {
    AddedIsBlocked(e, market, why, io, now, required, later);
    BlockedThroughRun(AddBlacklist(e, market, why, io, now).0, evs, market, required, later);
  }

  lemma AddedIsBlocked(e: Engine, market: BL.Id, why: BL.Reason, io: BlacklistIo, now: int, required: BL.Scope, later: int)
    ensures var es := AddBlacklist(e, market, why, io, now).0.blacklist;
            FullyBlocked(es, market) && BL.Check(es, market, required, later) == BL.Blocked(why, BL.Full, None)
  {
    BL.PermanentBlocksForever(e.blacklist, market, why, now, required, later, market);
  }

  lemma BlockedThroughRun(e: Engine, evs: seq<Event>, market: BL.Id, required: BL.Scope, later: int)
    requires FullyBlocked(e.blacklist, market) && NeverUnblocks(evs, market)
    ensures BL.Check(Run(e, evs).blacklist, market, required, later).Blocked?
  {
    RunKeepsBlock(e, evs, market);
    FullyBlockedAlways(Run(e, evs).blacklist, market, required, later);
  }

  /** Removing it by hand clears it at once, whatever the store answers. */
  lemma RemovedMarketIsClear(e: Engine, market: BL.Id, io: BlacklistIo, now: int, required: BL.Scope, later: int)
    ensures BL.Check(RemoveBlacklist(e, market, io, now).0.blacklist, market, required, later) == BL.Clear
  {
    BL.RemovedIsClear(e.blacklist, market, required, later, market);
  }

  /** A reload keeps what is blocked as it is and fully blocks the configured markets and tokens that have no
      entry. */
  lemma ReloadBlocksConfigured(e: Engine, c: RiskConfig, now: int, id: BL.Id, required: BL.Scope, later: int)
    ensures var es := Reload(e, c, now).blacklist;
      && BL.Check(es, id, required, later) ==
           (if BL.Market(id) in e.blacklist then BL.Check(e.blacklist, id, required, later)
            else if BL.Market(id) in c.permanentKeys then BL.Blocked(BL.Manual, BL.Full, None)
            else BL.Clear)
      && (BL.TokenBlacklisted(es, id, later) <==>
           if BL.Token(id) in e.blacklist then BL.TokenBlacklisted(e.blacklist, id, later) else BL.Token(id) in c.permanentKeys)
  {
    BL.MergeKeepsEntries(e.blacklist, c.permanentKeys, now);
  }
}
