/** The per-market counter of consecutive misses.  A fill raises or clears it after its claim and before its
    commit, and a failed commit does not undo that. */
module MissCounters {
  import opened MachineInts
  import opened RiskEngineModel
  import opened RiskEngineBooks
  import opened PotentialLosses
  import BL = Blacklists

  type Misses = map<BL.Id, u32>

  function Count(ms: Misses, market: BL.Id): u32 { if market in ms then ms[market] else 0 }

  function RecordOutcome(ms: Misses, market: BL.Id, miss: bool): Misses {
    if miss then ms[market := WrapU32(Count(ms, market) + 1)]
    else if market in ms then ms[market := 0]
    else ms
  }

  datatype Metered = Metered(engine: Engine, misses: Misses)

  /** A delivery that got the claim for a trade that is not durable yet. */
  predicate Attempts(applied: set<TradeId>, ev: Event) {
    ev.FillEvent? && ev.fillIo.claimOk && ev.trade.id !in applied
  }

  /** The event as the engine sees it: the miss count in its metrics is the counter's. */
  function Seen(ms: Misses, ev: Event): Event {
    match ev
    case FillEvent(t, m, io, at) => FillEvent(t, m.(misses := Count(ms, t.market)), io, at)
    case SettleEvent(t, m, io, at) => SettleEvent(t, m.(misses := Count(ms, t.market)), io, at)
    case _ => ev
  }

  function Counted(applied: set<TradeId>, ms: Misses, ev: Event): Misses {
    if Attempts(applied, ev) then RecordOutcome(ms, ev.trade.market, ev.trade.outcome.Miss?) else ms
  }

  function MeteredStep(s: Metered, ev: Event): Metered {
    var ms := Counted(s.engine.applied, s.misses, ev);
    Metered(Step(s.engine, Seen(ms, ev)).0, ms)
  }

  function MeteredRun(s: Metered, evs: seq<Event>): Metered {
    if evs == [] then s else MeteredStep(MeteredRun(s, evs[..|evs| - 1]), evs[|evs| - 1])
  }

  // ── The counter and the attempts ───────────────────────────────────────────

  datatype Attempt = Attempt(market: BL.Id, miss: bool, committed: bool)

  function AttemptOf(ev: Event): Attempt
    requires ev.FillEvent?
  {
    Attempt(ev.trade.market, ev.trade.outcome.Miss?, ev.fillIo.commitOk)
  }

  function AllAttempts(applied: set<TradeId>, evs: seq<Event>): seq<Attempt> {
    if evs == [] then []
    else
      var before, ev := evs[..|evs| - 1], evs[|evs| - 1];
      AllAttempts(applied, before) + if Attempts(Markers(applied, before), ev) then [AttemptOf(ev)] else []
  }

  /** Misses of the market since its last other outcome, counted from `n`. */
  function Trailing(n: nat, xs: seq<Attempt>, market: BL.Id): nat {
    if xs == [] then n
    else
      var before, x := Trailing(n, xs[..|xs| - 1], market), xs[|xs| - 1];
      if x.market != market then before else if x.miss then before + 1 else 0
  }

  lemma TrailingNext(n: nat, xs: seq<Attempt>, x: Attempt, market: BL.Id)
    ensures Trailing(n, xs + [x], market) ==
      if x.market != market then Trailing(n, xs, market) else if x.miss then Trailing(n, xs, market) + 1 else 0
  {
    assert (xs + [x])[..|xs|] == xs;
  }

  lemma MeteredMarkers(s: Metered, ev: Event)
    ensures MeteredStep(s, ev).engine.applied
      == if Commits(s.engine.applied, ev) then s.engine.applied + {ev.trade.id} else s.engine.applied
  {
    StepBooks(s.engine, Seen(Counted(s.engine.applied, s.misses, ev), ev));
  }

  lemma RecordCounts(ms: Misses, n: nat, xs: seq<Attempt>, x: Attempt, market: BL.Id)
    requires Count(ms, market) == WrapU32(Trailing(n, xs, market))
    ensures Count(RecordOutcome(ms, x.market, x.miss), market) == WrapU32(Trailing(n, xs + [x], market))
  {
    TrailingNext(n, xs, x, market);
    WrapSuccessor(Trailing(n, xs, market));
  }

  /** Over every run the counter is the trailing misses of all attempts, whether they committed or not. */
  lemma {:induction false} CounterCountsAttempts(s: Metered, evs: seq<Event>, market: BL.Id)
    ensures MeteredRun(s, evs).engine.applied == Markers(s.engine.applied, evs)
    ensures Count(MeteredRun(s, evs).misses, market)
      == WrapU32(Trailing(Count(s.misses, market), AllAttempts(s.engine.applied, evs), market))
  {
    if evs == [] {
      CountFits(Count(s.misses, market));
    } else {
      var before, ev := evs[..|evs| - 1], evs[|evs| - 1];
      CounterCountsAttempts(s, before, market);
      var mid := MeteredRun(s, before);
      MeteredMarkers(mid, ev);
      if Attempts(mid.engine.applied, ev) {
        RecordCounts(mid.misses, Count(s.misses, market), AllAttempts(s.engine.applied, before), AttemptOf(ev), market);
      } else {
        assert AllAttempts(s.engine.applied, evs) == AllAttempts(s.engine.applied, before);
      }
    }
  }

  lemma CountFits(n: u32)
    ensures WrapU32(n) == n
  {
  }

  // ── The counter and the committed trades ───────────────────────────────────

  /** The attempts that committed, each of a different trade. */
  function Committed(xs: seq<Attempt>): seq<Attempt> {
    if xs == [] then []
    else Committed(xs[..|xs| - 1]) + if xs[|xs| - 1].committed then [xs[|xs| - 1]] else []
  }

  /** Failed attempts of a miss since the market's last other outcome. */
  function FailedMisses(xs: seq<Attempt>, market: BL.Id): nat {
    if xs == [] then 0
    else
      var before, x := FailedMisses(xs[..|xs| - 1], market), xs[|xs| - 1];
      if x.market != market then before
      else if !x.miss then 0
      else if x.committed then before
      else before + 1
  }

  /** Committed misses that a failed attempt of another outcome cleared. */
  function ClearedMisses(n: nat, xs: seq<Attempt>, market: BL.Id): nat {
    if xs == [] then 0
    else
      var init, x := xs[..|xs| - 1], xs[|xs| - 1];
      if x.market != market || x.miss then ClearedMisses(n, init, market)
      else if x.committed then 0
      else Trailing(n, Committed(init), market)
  }

  lemma {:induction false} TrailingSplits(n: nat, xs: seq<Attempt>, market: BL.Id)
    ensures Trailing(n, xs, market) + ClearedMisses(n, xs, market)
         == Trailing(n, Committed(xs), market) + FailedMisses(xs, market)
  {
    if xs != [] {
      var init, x := xs[..|xs| - 1], xs[|xs| - 1];
      TrailingSplits(n, init, market);
      if x.committed { TrailingNext(n, Committed(init), x, market); } else { assert Committed(xs) == Committed(init); }
    }
  }

  /** Over every run the counter equals the trailing misses of the committed trades exactly when as many
      misses failed since the market's last other outcome as a failed other outcome had cleared (below the
      32-bit limit of the counter). */
  lemma CounterMatchesCommittedIff(s: Metered, evs: seq<Event>, market: BL.Id)
    requires Trailing(Count(s.misses, market), AllAttempts(s.engine.applied, evs), market) <= U32_MAX
    ensures var n, xs := Count(s.misses, market), AllAttempts(s.engine.applied, evs);
            Count(MeteredRun(s, evs).misses, market) == Trailing(n, Committed(xs), market) <==>
              FailedMisses(xs, market) == ClearedMisses(n, xs, market)
  {
    CounterCountsAttempts(s, evs, market);
    TrailingSplits(Count(s.misses, market), AllAttempts(s.engine.applied, evs), market);
    CountFits(Trailing(Count(s.misses, market), AllAttempts(s.engine.applied, evs), market));
  }

  // ── A miss delivered twice ─────────────────────────────────────────────────

  /** One delivery of the miss, with the given result of the commit. */
  function Delivery(t: Trade, m: Metrics, ok: bool, at: int): Event { FillEvent(t, m, FillIo(true, ok, true), at) }

  lemma RunTwo(s: Metered, a: Event, b: Event)
    ensures MeteredRun(s, [a]) == MeteredStep(s, a) && MeteredRun(s, [a, b]) == MeteredStep(MeteredStep(s, a), b)
  {
    assert [a][..0] == [] && [a, b][..1] == [a];
    assert MeteredRun(s, []) == s;
  }

  /** Two below the threshold, a miss delivered once does not block its market. */
  lemma SingleMissDoesNotBlock(s: Metered, t: Trade, m: Metrics, at: int)
    requires t.outcome.Miss? && t.id !in s.engine.applied && BL.Market(t.market) !in s.engine.blacklist
    requires Count(s.misses, t.market) + 2 == s.engine.config.autoBlacklist.missThreshold
    ensures BL.Market(t.market) !in MeteredRun(s, [Delivery(t, m, true, at)]).engine.blacklist
  {
    RunTwo(s, Delivery(t, m, true, at), Delivery(t, m, true, at));
    CountFits(Count(s.misses, t.market) + 1);
    OneMiss(s, t, m, true, at);
  }

  /** The same trade whose first commit fails blocks its market on redelivery. */
  lemma RedeliveredMissBlocks(s: Metered, t: Trade, m: Metrics, at: int, later: int)
    requires t.outcome.Miss? && t.id !in s.engine.applied && BL.Market(t.market) !in s.engine.blacklist
    requires Count(s.misses, t.market) + 2 == s.engine.config.autoBlacklist.missThreshold
    ensures var r := MeteredRun(s, [Delivery(t, m, false, at), Delivery(t, m, true, later)]);
            BL.Market(t.market) in r.engine.blacklist && Count(r.misses, t.market) == Count(s.misses, t.market) + 2
  {
    RunTwo(s, Delivery(t, m, false, at), Delivery(t, m, true, later));
    CountFits(Count(s.misses, t.market) + 1);
    OneMiss(s, t, m, false, at);
    SecondMiss(MeteredStep(s, Delivery(t, m, false, at)), t, m, later);
  }

  lemma SecondMiss(mid: Metered, t: Trade, m: Metrics, later: int)
    requires t.outcome.Miss? && t.id !in mid.engine.applied && BL.Market(t.market) !in mid.engine.blacklist
    requires Count(mid.misses, t.market) + 1 == mid.engine.config.autoBlacklist.missThreshold
    ensures var r := MeteredStep(mid, Delivery(t, m, true, later));
            BL.Market(t.market) in r.engine.blacklist && Count(r.misses, t.market) == Count(mid.misses, t.market) + 1
  {
    CountFits(Count(mid.misses, t.market) + 1);
    OneMiss(mid, t, m, true, later);
  }

  lemma OneMiss(s: Metered, t: Trade, m: Metrics, ok: bool, at: int)
    requires t.outcome.Miss? && t.id !in s.engine.applied && BL.Market(t.market) !in s.engine.blacklist
    ensures var r, n := MeteredStep(s, Delivery(t, m, ok, at)), WrapU32(Count(s.misses, t.market) + 1);
      && Count(r.misses, t.market) == n
      && (BL.Market(t.market) in r.engine.blacklist <==> n >= s.engine.config.autoBlacklist.missThreshold)
      && r.engine.config == s.engine.config
      && r.engine.applied == if ok then s.engine.applied + {t.id} else s.engine.applied
  {
    var seen := m.(misses := WrapU32(Count(s.misses, t.market) + 1));
    MissBlocks(s.engine, t, seen, ok, at);
    MissKeeps(s.engine, t, seen, ok, at);
  }

  lemma MissBlocks(e: Engine, t: Trade, m: Metrics, ok: bool, now: int)
    requires t.outcome.Miss? && t.id !in e.applied && BL.Market(t.market) !in e.blacklist
    ensures BL.Market(t.market) in OnFill(e, t, m, FillIo(true, ok, true), now).0.blacklist
      <==> m.misses >= e.config.autoBlacklist.missThreshold
  {
  }

  lemma MissKeeps(e: Engine, t: Trade, m: Metrics, ok: bool, now: int)
    requires t.id !in e.applied
    ensures var r := OnFill(e, t, m, FillIo(true, ok, true), now).0;
            r.config == e.config && r.applied == if ok then e.applied + {t.id} else e.applied
  {
  }
}
