/** A fill awaits its commit between applying its effect and finishing, and other calls can run in that gap.
    A failed commit puts back what was captured before the gap. */
module FillGaps {
  import opened MachineInts
  import opened RiskEngineModel
  import opened RiskEngineBooks
  import opened PotentialLosses
  import CB = CircuitBreakers

  /** The end of a fill: commit and follow-ups, or restoring what was captured in `e`. */
  function Finish(now: Engine, e: Engine, t: Trade, m: Metrics, io: FillIo, at: int, end: int): (Engine, Reply) {
    if !io.commitOk then (HaltInternal(Restore(now, e, end), COMMIT_FAILED, end), Error)
    else
      FollowUp(now.(applied := now.applied + {t.id}), TrippedLevel(e, Fill, t, m, at), AutoBlacklists(e, t, m),
               io.blacklistOk, end)
  }

  /** A claimed fill applied at `at` and finished at `end`, with `evs` handled in between. */
  function GappedFill(e: Engine, t: Trade, m: Metrics, io: FillIo, at: int, evs: seq<Event>, end: int): (Engine, Reply) {
    Finish(Run(ApplyTrade(e, Fill, t, m, at), evs), e, t, m, io, at, end)
  }

  /** Without a gap this is the fill of one atomic step. */
  lemma EmptyGap(e: Engine, t: Trade, m: Metrics, io: FillIo, at: int)
    requires io.claimOk && t.id !in e.applied
    ensures GappedFill(e, t, m, io, at, [], at) == OnFill(e, t, m, io, at)
  {
  }

  predicate SameAccounts(a: Books, b: Books) {
    a.daily == b.daily && a.weekly == b.weekly && a.hourly == b.hourly && a.ledger == b.ledger
  }

  lemma {:induction false} LifetimeSame(a: Books, b: Books, ps: seq<Posting>)
    requires a.lifetime == b.lifetime
    ensures PostAll(a, ps).lifetime == PostAll(b, ps).lifetime
  {
    if ps != [] { LifetimeSame(a, b, ps[..|ps| - 1]); }
  }

  lemma GapBooks(e: Engine, t: Trade, m: Metrics, at: int, evs: seq<Event>)
    ensures var a := ApplyTrade(e, Fill, t, m, at);
      && a.books == BookFill(e.books, t, at) && a.applied == e.applied
      && Run(a, evs).books == PostAll(BookFill(e.books, t, at), Journal(e.applied, evs))
      && Run(a, evs).applied == Markers(e.applied, evs)
      && Run(a, evs).books.lifetime == PostAll(e.books, Journal(e.applied, evs)).lifetime
  {
    var a := ApplyTrade(e, Fill, t, m, at);
    BooksFollowJournal(a, evs);
    LifetimeSame(a.books, e.books, Journal(e.applied, evs));
  }

  /** After a committed gap the books hold the fill and everything posted in the gap. */
  lemma CommittedGap(e: Engine, t: Trade, m: Metrics, io: FillIo, at: int, evs: seq<Event>, end: int)
    requires io.commitOk
    ensures var r := GappedFill(e, t, m, io, at, evs, end).0;
      && r.books == PostAll(e.books, [PostFill(t, at)] + Journal(e.applied, evs))
      && r.applied == Markers(e.applied, evs) + {t.id}
  {
    GapBooks(e, t, m, at, evs);
    PostOne(e.books, PostFill(t, at));
    PostAppend(e.books, [PostFill(t, at)], Journal(e.applied, evs));
  }

  /** After a failed gap the books are those of the journal exactly when the postings of the gap leave the
      captured windows and ledger as they were; the lifetime result keeps them in any case. */
  lemma FailedGapIff(e: Engine, t: Trade, m: Metrics, io: FillIo, at: int, evs: seq<Event>, end: int)
    requires !io.commitOk
    ensures var r, js := GappedFill(e, t, m, io, at, evs, end).0, Journal(e.applied, evs);
      && (r.books == PostAll(e.books, js) <==> SameAccounts(PostAll(e.books, js), e.books))
      && r.books == e.books.(lifetime := PostAll(e.books, js).lifetime)
      && r.applied == Markers(e.applied, evs)
      && r.breaker.state.Halted? && r.breaker.state.level == CB.System
  {
    GapBooks(e, t, m, at, evs);
    FailedGapShape(Run(ApplyTrade(e, Fill, t, m, at), evs), e, t, m, io, at, end);
  }

  lemma FailedGapShape(now: Engine, e: Engine, t: Trade, m: Metrics, io: FillIo, at: int, end: int)
    requires !io.commitOk
    ensures var r := Finish(now, e, t, m, io, at, end).0;
      && r.books == e.books.(lifetime := now.books.lifetime) && r.applied == now.applied
      && r.breaker.state.Halted? && r.breaker.state.level == CB.System
  {
  }

  lemma LoneSettlement(e: Engine, s: Trade, sm: Metrics, sio: SettleIo, mid: int)
    requires s.outcome.Success? ==> sio.resolveOk
    ensures PostAll(e.books, Journal(e.applied, [SettleEvent(s, sm, sio, mid)])) == BookSettlement(e.books, s, mid)
  {
    var ev := SettleEvent(s, sm, sio, mid);
    assert [ev][..0] == [];
    assert Journal(e.applied, []) == [] && Markers(e.applied, []) == e.applied;
    assert Journal(e.applied, [ev]) == [] + [PostSettlement(s, mid)];
    PostOne(e.books, PostSettlement(s, mid));
  }

  lemma NextCountDiffers(n: u32)
    ensures WrapU32(n + 1) != n
  {
  }

  /** A settlement always leaves its mark in the daily window. */
  lemma SettlementShows(b: Books, t: Trade, at: int)
    ensures BookSettlement(b, t, at).daily != b.daily
  {
    NextCountDiffers(b.daily.stats.tradeCount);
  }

  /** A settlement that runs in the gap of a failed fill is wiped from the windows and the ledger, while the
      lifetime result keeps its profit. */
  lemma SettlementInGapIsLost(e: Engine, t: Trade, m: Metrics, io: FillIo, at: int, s: Trade, sm: Metrics, sio: SettleIo,
                              mid: int, end: int)
    requires !io.commitOk && (s.outcome.Success? ==> sio.resolveOk)
    ensures var r := GappedFill(e, t, m, io, at, [SettleEvent(s, sm, sio, mid)], end).0;
      && r.books == e.books.(lifetime := BookSettlement(e.books, s, mid).lifetime)
      && r.books != BookSettlement(e.books, s, mid)
  {
    LoneSettlement(e, s, sm, sio, mid);
    FailedGapIff(e, t, m, io, at, [SettleEvent(s, sm, sio, mid)], end);
    SettlementShows(e.books, s, mid);
  }

  // ── Runs with gaps ─────────────────────────────────────────────────────────

  datatype Op =
    | Atomic(ev: Event)
    | Gapped(trade: Trade, metrics: Metrics, io: FillIo, at: int, evs: seq<Event>, end: int)

  predicate Claims(applied: set<TradeId>, op: Op) { op.Gapped? && op.io.claimOk && op.trade.id !in applied }

  function OpStep(e: Engine, op: Op): Engine {
    match op
    case Atomic(ev) => Step(e, ev).0
    case Gapped(t, m, io, at, evs, end) =>
      if Claims(e.applied, op) then GappedFill(e, t, m, io, at, evs, end).0 else OnFill(e, t, m, io, at).0
  }

  function OpRun(e: Engine, ops: seq<Op>): Engine {
    if ops == [] then e else OpStep(OpRun(e, ops[..|ops| - 1]), ops[|ops| - 1])
  }

  function OpPostings(applied: set<TradeId>, op: Op): seq<Posting> {
    match op
    case Atomic(ev) => Postings(applied, ev)
    case Gapped(t, _, io, at, evs, _) =>
      if !Claims(applied, op) then []
      else (if io.commitOk then [PostFill(t, at)] else []) + Journal(applied, evs)
  }

  function OpMarkers(applied: set<TradeId>, ops: seq<Op>): set<TradeId> {
    if ops == [] then applied
    else
      var before, op := OpMarkers(applied, ops[..|ops| - 1]), ops[|ops| - 1];
      match op
      case Atomic(ev) => if Commits(before, ev) then before + {ev.trade.id} else before
      case Gapped(t, _, io, _, evs, _) =>
        if !Claims(before, op) then before
        else if io.commitOk then Markers(before, evs) + {t.id}
        else Markers(before, evs)
  }

  function OpJournal(applied: set<TradeId>, ops: seq<Op>): seq<Posting> {
    if ops == [] then []
    else
      var before := ops[..|ops| - 1];
      OpJournal(applied, before) + OpPostings(OpMarkers(applied, before), ops[|ops| - 1])
  }

  /** Nothing posts in the gap of a fill that fails. */
  ghost predicate QuietFailure(applied: set<TradeId>, op: Op) {
    Claims(applied, op) && !op.io.commitOk ==> Journal(applied, op.evs) == []
  }

  ghost predicate QuietFailures(applied: set<TradeId>, ops: seq<Op>) {
    ops == [] ||
    (QuietFailures(applied, ops[..|ops| - 1]) && QuietFailure(OpMarkers(applied, ops[..|ops| - 1]), ops[|ops| - 1]))
  }

  lemma GappedStep(e: Engine, op: Op)
    requires op.Gapped? && QuietFailure(e.applied, op)
    ensures OpStep(e, op).books == PostAll(e.books, OpPostings(e.applied, op))
    ensures OpStep(e, op).applied ==
      if !Claims(e.applied, op) then e.applied
      else if op.io.commitOk then Markers(e.applied, op.evs) + {op.trade.id}
      else Markers(e.applied, op.evs)
  {
    if !Claims(e.applied, op) {
      FillBooks(e, op.trade, op.metrics, op.io, op.at);
    } else if op.io.commitOk {
      CommittedGap(e, op.trade, op.metrics, op.io, op.at, op.evs, op.end);
    } else {
      assert [] + Journal(e.applied, op.evs) == [];
      FailedGapIff(e, op.trade, op.metrics, op.io, op.at, op.evs, op.end);
    }
  }

  /** Over every run in which fills have gaps, the books are the fold of the journal as long as nothing posts in
      the gap of a fill that fails. */
  lemma {:induction false} BooksFollowGappedJournal(e: Engine, ops: seq<Op>)
    requires QuietFailures(e.applied, ops)
    ensures OpRun(e, ops).books == PostAll(e.books, OpJournal(e.applied, ops))
    ensures OpRun(e, ops).applied == OpMarkers(e.applied, ops)
  {
    if ops != [] {
      var before, op := ops[..|ops| - 1], ops[|ops| - 1];
      BooksFollowGappedJournal(e, before);
      if op.Atomic? { StepBooks(OpRun(e, before), op.ev); } else { GappedStep(OpRun(e, before), op); }
      PostAppend(e.books, OpJournal(e.applied, before), OpPostings(OpMarkers(e.applied, before), op));
    }
  }
}
