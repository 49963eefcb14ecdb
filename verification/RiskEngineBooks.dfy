/** What the engine's books contain after any run: every fill exactly once, rolled-back fills never. */
module RiskEngineBooks {
  import opened MachineInts
  import opened RiskEngineModel
  import opened PotentialLosses
  import opened Accounting
  import CB = CircuitBreakers
  import BL = Blacklists

  // ── A failed commit ────────────────────────────────────────────────────────

  /** A commit failure undoes everything the fill did to the captured subsystems, leaves no marker,
      and halts at System; every other field is as before except the published snapshot and a
      possible automatic blacklist entry. */
  lemma CommitFailureRollsBack(e: Engine, t: Trade, m: Metrics, io: FillIo, now: int)
    requires io.claimOk && !io.commitOk && t.id !in e.applied
    ensures var (e', reply) := OnFill(e, t, m, io, now);
      && reply == Error
      && e'.breaker == CB.Halt(e.breaker, CB.System, COMMIT_FAILED, now)
      && e'.breaker.state.Halted? && e'.breaker.state.level == CB.System
      && e' == e.(breaker := e'.breaker, blacklist := e'.blacklist, published := Compile(e', now))
      && (e'.blacklist == e.blacklist <==> !AutoBlacklists(e, t, m))
  {
    var k := BL.Market(t.market);
    assert AutoBlacklists(e, t, m) ==> k !in e.blacklist && k in OnFill(e, t, m, io, now).0.blacklist;
  }

  /** A delivery that claims and commits would fail if the blacklist store refused: it asks that store. */
  predicate AsksStore(e: Engine, t: Trade, m: Metrics, now: int) {
    OnFill(e, t, m, FillIo(true, true, false), now).1 == Error
  }

  lemma AsksStoreIff(e: Engine, t: Trade, m: Metrics, now: int)
    ensures AsksStore(e, t, m, now) <==>
      && t.id !in e.applied && BL.Market(t.market) !in e.blacklist
      && t.outcome.Miss? && m.misses >= e.config.autoBlacklist.missThreshold
  {
  }

  /** What takes a market's key out of the live map: its removal, or a tick once its entry has expired. */
  predicate Releases(e: Engine, ev: Event, market: BL.Id)
    requires BL.Market(market) in e.blacklist
  {
    || (ev.RemoveBlacklistEvent? && ev.market == market)
    || (ev.TickEvent? && e.blacklist[BL.Market(market)].IsExpired(ev.at))
  }

  lemma KeyLeavesIff(e: Engine, ev: Event, market: BL.Id)
    requires BL.Market(market) in e.blacklist
    ensures BL.Market(market) !in Step(e, ev).0.blacklist <==> Releases(e, ev, market)
  {
    if TradingCall(ev) {
      TradingKeys(e, ev, market);
    } else if OperatorCall(ev) {
      OperatorKeys(e, ev, market);
    } else {
      UpkeepKeys(e, ev, market);
    }
  }

  lemma TradingKeys(e: Engine, ev: Event, market: BL.Id)
    requires BL.Market(market) in e.blacklist && TradingCall(ev)
    ensures BL.Market(market) !in Step(e, ev).0.blacklist <==> Releases(e, ev, market)
  {
    match ev {
      case FillEvent(t, m, io, at) => FillKeepsKeys(e, t, m, io, at, BL.Market(market));
      case SettleEvent(t, m, io, at) => SettlementKeepsKeys(e, t, m, io, at, BL.Market(market));
      case TickEvent(_, _) =>
      case ReconcileEvent(_, _, _) =>
    }
  }

  lemma OperatorKeys(e: Engine, ev: Event, market: BL.Id)
    requires BL.Market(market) in e.blacklist && OperatorCall(ev)
    ensures BL.Market(market) !in Step(e, ev).0.blacklist <==> Releases(e, ev, market)
  {
  }

  lemma UpkeepKeys(e: Engine, ev: Event, market: BL.Id)
    requires BL.Market(market) in e.blacklist && !TradingCall(ev) && !OperatorCall(ev)
    ensures BL.Market(market) in Step(e, ev).0.blacklist
  {
    if ev.ReloadEvent? { BL.MergeKeepsEntries(e.blacklist, ev.config.permanentKeys, ev.at); }
  }

  lemma FillKeepsKeys(e: Engine, t: Trade, m: Metrics, io: FillIo, now: int, k: BL.Key)
    requires k in e.blacklist
    ensures k in OnFill(e, t, m, io, now).0.blacklist
  {
  }

  lemma SettlementKeepsKeys(e: Engine, t: Trade, m: Metrics, io: SettleIo, now: int, k: BL.Key)
    requires k in e.blacklist
    ensures k in OnSettlement(e, t, m, io, now).0.blacklist
  {
  }

  /** No event of the run takes the market's key out of the map. */
  ghost predicate Unreleased(e: Engine, evs: seq<Event>, market: BL.Id) {
    evs == [] ||
    (&& Unreleased(e, evs[..|evs| - 1], market)
     && (BL.Market(market) in Run(e, evs[..|evs| - 1]).blacklist ==> !Releases(Run(e, evs[..|evs| - 1]), evs[|evs| - 1], market)))
  }

  lemma {:induction false} BlockStays(e: Engine, evs: seq<Event>, market: BL.Id)
    requires BL.Market(market) in e.blacklist && Unreleased(e, evs, market)
    ensures BL.Market(market) in Run(e, evs).blacklist
  {
    if evs != [] {
      BlockStays(e, evs[..|evs| - 1], market);
      KeyLeavesIff(Run(e, evs[..|evs| - 1]), evs[|evs| - 1], market);
    }
  }

  /** The automatic blacklist entry that survives a failed commit is in no store, and over any run after it
      a new delivery of the fill asks the store exactly when the trade is still uncommitted, the market's
      key has left the live map and the threshold is met.  As long as nothing releases the key, no
      delivery does. */
  lemma SurvivingBlockIsNotStored(e: Engine, t: Trade, m: Metrics, io: FillIo, now: int, evs: seq<Event>,
                                  retry: Metrics, later: int)
    requires io.claimOk && !io.commitOk && t.id !in e.applied && AutoBlacklists(e, t, m)
    ensures var failed := OnFill(e, t, m, io, now).0;
            var after := Run(failed, evs);
      && BL.Market(t.market) in failed.blacklist
      && (AsksStore(after, t, retry, later) <==>
           && t.id !in after.applied && BL.Market(t.market) !in after.blacklist
           && retry.misses >= after.config.autoBlacklist.missThreshold)
      && (Unreleased(failed, evs, t.market) ==> !AsksStore(after, t, retry, later))
  {
    var failed := OnFill(e, t, m, io, now).0;
    AsksStoreIff(Run(failed, evs), t, retry, later);
    if Unreleased(failed, evs, t.market) { BlockStays(failed, evs, t.market); }
  }

  /** Removing the block by hand makes the next delivery with the same metrics ask the store. */
  lemma RemovedBlockIsStored(e: Engine, t: Trade, m: Metrics, io: FillIo, now: int, rio: BlacklistIo, at: int, later: int)
    requires io.claimOk && !io.commitOk && t.id !in e.applied && AutoBlacklists(e, t, m)
    ensures AsksStore(Run(OnFill(e, t, m, io, now).0, [RemoveBlacklistEvent(t.market, rio, at)]), t, m, later)
  {
    var failed, ev := OnFill(e, t, m, io, now).0, RemoveBlacklistEvent(t.market, rio, at);
    assert Run(failed, [ev][..0]) == failed;
    CommitFailureRollsBack(e, t, m, io, now);
    AsksStoreIff(Run(failed, [ev]), t, m, later);
  }

  // ── The journal ────────────────────────────────────────────────────────────

  datatype Posting =
    | PostFill(trade: Trade, at: int)
    | PostSettlement(trade: Trade, at: int)
    | PostRoll(at: int)
    | PostBudget(budget: real)
    | PostResolve(id: TradeId, at: int)

  function Post(b: Books, p: Posting): Books {
    match p
    case PostFill(t, at) => BookFill(b, t, at)
    case PostSettlement(t, at) => BookSettlement(b, t, at)
    case PostRoll(at) => RollBooks(b, at)
    case PostBudget(budget) => b.(daily := SetBudget(b.daily, budget))
    case PostResolve(id, at) => b.(ledger := Resolve(b.ledger, id, at))
  }

  function PostAll(b: Books, ps: seq<Posting>): Books {
    if ps == [] then b else Post(PostAll(b, ps[..|ps| - 1]), ps[|ps| - 1])
  }

  /** A delivery that is first to commit its trade. */
  predicate Commits(applied: set<TradeId>, ev: Event) {
    ev.FillEvent? && ev.fillIo.claimOk && ev.fillIo.commitOk && ev.trade.id !in applied
  }

  /** What an event books, decided from the durable markers and the persistence results alone. */
  function Postings(applied: set<TradeId>, ev: Event): seq<Posting> {
    match ev
    case FillEvent(t, _, _, at) => if Commits(applied, ev) then [PostFill(t, at)] else []
    case SettleEvent(t, _, io, at) => if t.outcome.Success? && !io.resolveOk then [] else [PostSettlement(t, at)]
    case TickEvent(_, at) => [PostRoll(at)]
    case ResolveEvent(id, _, at) => [PostResolve(id, at)]
    case ReloadEvent(c, _) => [PostBudget(c.dailyBudget)]
    case _ => []
  }

  function Markers(applied: set<TradeId>, evs: seq<Event>): set<TradeId> {
    if evs == [] then applied
    else
      var before := Markers(applied, evs[..|evs| - 1]);
      if Commits(before, evs[|evs| - 1]) then before + {evs[|evs| - 1].trade.id} else before
  }

  function Journal(applied: set<TradeId>, evs: seq<Event>): seq<Posting> {
    if evs == [] then []
    else
      var before := evs[..|evs| - 1];
      Journal(applied, before) + Postings(Markers(applied, before), evs[|evs| - 1])
  }

  lemma FillBooks(e: Engine, t: Trade, m: Metrics, io: FillIo, now: int)
    ensures var e' := OnFill(e, t, m, io, now).0;
            && e'.books == PostAll(e.books, Postings(e.applied, FillEvent(t, m, io, now)))
            && e'.applied == if Commits(e.applied, FillEvent(t, m, io, now)) then e.applied + {t.id} else e.applied
  {
    PostOne(e.books, PostFill(t, now));
  }

  lemma PostOne(b: Books, p: Posting)
    ensures PostAll(b, [p]) == Post(b, p)
  {
    assert PostAll(b, [p][..0]) == b;
  }

  lemma StepBooks(e: Engine, ev: Event)
    ensures StepPosts(e, ev)
  {
    if TradingCall(ev) { TradingBooks(e, ev); } else if OperatorCall(ev) { OperatorBooks(e, ev); } else { UpkeepBooks(e, ev); }
  }

  /** The step books its postings and marks its trade. */
  predicate StepPosts(e: Engine, ev: Event) {
    var e' := Step(e, ev).0;
    && e'.books == PostAll(e.books, Postings(e.applied, ev))
    && e'.applied == if Commits(e.applied, ev) then e.applied + {ev.trade.id} else e.applied
  }

  lemma TradingBooks(e: Engine, ev: Event)
    requires TradingCall(ev)
    ensures StepPosts(e, ev)
  {
    match ev {
      case FillEvent(t, m, io, at) => FillBooks(e, t, m, io, at);
      case SettleEvent(t, _, _, at) => PostOne(e.books, PostSettlement(t, at));
      case TickEvent(_, at) => PostOne(e.books, PostRoll(at));
      case ReconcileEvent(_, _, _) =>
    }
  }

  lemma OperatorBooks(e: Engine, ev: Event)
    requires OperatorCall(ev)
    ensures StepPosts(e, ev)
  {
  }

  lemma UpkeepBooks(e: Engine, ev: Event)
    requires !TradingCall(ev) && !OperatorCall(ev)
    ensures StepPosts(e, ev)
  {
    if ev.ResolveEvent? { PostOne(e.books, PostResolve(ev.id, ev.at)); }
    if ev.ReloadEvent? { PostOne(e.books, PostBudget(ev.config.dailyBudget)); }
  }

  lemma PostLast(b: Books, ps: seq<Posting>, p: Posting)
    ensures PostAll(b, ps + [p]) == Post(PostAll(b, ps), p)
  {
    assert (ps + [p])[..|ps|] == ps;
  }

  lemma {:induction false} PostAppend(b: Books, ps: seq<Posting>, qs: seq<Posting>)
    ensures PostAll(b, ps + qs) == PostAll(PostAll(b, ps), qs)
  {
    if qs == [] {
      assert ps + qs == ps;
    } else {
      var init, p := qs[..|qs| - 1], qs[|qs| - 1];
      PostAppend(b, ps, init);
      PostLast(b, ps + init, p);
      PostLast(PostAll(b, ps), init, p);
      assert qs == init + [p] && ps + qs == ps + init + [p];
    }
  }

  /** The books after any run are the fold of its journal, and the durable markers are exactly the
      committed trades: duplicates, failed claims, failed commits and every other failure leave no
      trace in them. */
  lemma {:induction false} BooksFollowJournal(e: Engine, evs: seq<Event>)
    ensures Run(e, evs).books == PostAll(e.books, Journal(e.applied, evs))
    ensures Run(e, evs).applied == Markers(e.applied, evs)
  {
    if evs != [] {
      var before := evs[..|evs| - 1];
      BooksFollowJournal(e, before);
      StepBooks(Run(e, before), evs[|evs| - 1]);
      PostAppend(e.books, Journal(e.applied, before), Postings(Markers(e.applied, before), evs[|evs| - 1]));
    }
  }

  // ── Losses ─────────────────────────────────────────────────────────────────

  predicate LossesNonNegative(b: Books) {
    b.daily.stats.loss >= 0.0 && b.weekly.stats.loss >= 0.0 && b.hourly.stats.loss >= 0.0
  }

  lemma PostKeepsLosses(b: Books, p: Posting)
    requires LossesNonNegative(b)
    ensures LossesNonNegative(Post(b, p))
  {
  }

  lemma {:induction false} PostAllKeepsLosses(b: Books, ps: seq<Posting>)
    requires LossesNonNegative(b)
    ensures LossesNonNegative(PostAll(b, ps))
  {
    if ps != [] {
      PostAllKeepsLosses(b, ps[..|ps| - 1]);
      PostKeepsLosses(PostAll(b, ps[..|ps| - 1]), ps[|ps| - 1]);
    }
  }

  /** Loss totals are never negative over any run. */
  lemma LossesStayNonNegative(e: Engine, evs: seq<Event>)
    requires LossesNonNegative(e.books)
    ensures LossesNonNegative(Run(e, evs).books)
  {
    BooksFollowJournal(e, evs);
    PostAllKeepsLosses(e.books, Journal(e.applied, evs));
  }

  predicate BooksSound(b: Books) { Sound(b.daily.stats) && Sound(b.weekly.stats) && Sound(b.hourly.stats) }

  lemma PostKeepsSound(b: Books, p: Posting)
    requires BooksSound(b)
    ensures BooksSound(Post(b, p))
  {
    match p {
      case PostFill(t, at) =>
        BookKeepsSound(RollDaily(b.daily, at).stats, 0.0, t.fee, t.outcome);
        BookKeepsSound(RollWeekly(b.weekly, at).stats, 0.0, t.fee, t.outcome);
        BookKeepsSound(RollHourly(b.hourly, at).stats, 0.0, t.fee, t.outcome);
      case PostSettlement(t, at) =>
        var profit := if t.netProfit.Some? then t.netProfit.value else 0.0;
        BookKeepsSound(RollDaily(b.daily, at).stats, profit, 0.0, t.outcome);
        BookKeepsSound(RollWeekly(b.weekly, at).stats, profit, 0.0, t.outcome);
        BookKeepsSound(RollHourly(b.hourly, at).stats, profit, 0.0, t.outcome);
      case _ =>
    }
  }

  lemma {:induction false} PostAllKeepsSound(b: Books, ps: seq<Posting>)
    requires BooksSound(b)
    ensures BooksSound(PostAll(b, ps))
  {
    if ps != [] {
      PostAllKeepsSound(b, ps[..|ps| - 1]);
      PostKeepsSound(PostAll(b, ps[..|ps| - 1]), ps[|ps| - 1]);
    }
  }

  /** Over every run, in each of the three windows, the largest single loss is between zero and the total
      loss, and the loss covers every negative result; so no single-loss breach goes with a daily loss
      below the same amount. */
  lemma BooksStaySound(e: Engine, evs: seq<Event>)
    requires BooksSound(e.books)
    ensures BooksSound(Run(e, evs).books)
    ensures SingleLossBreached(e.config, Run(e, evs).books) ==> Run(e, evs).books.daily.stats.loss >= e.config.maxSingleLoss
  {
    BooksFollowJournal(e, evs);
    PostAllKeepsSound(e.books, Journal(e.applied, evs));
  }

  // ── Exactly once ───────────────────────────────────────────────────────────

  ghost function FillIds(ps: seq<Posting>): set<TradeId> {
    set i | 0 <= i < |ps| && ps[i].PostFill? :: ps[i].trade.id
  }

  ghost predicate NoFillTwice(ps: seq<Posting>) {
    forall i, j :: 0 <= i < j < |ps| && ps[i].PostFill? && ps[j].PostFill? ==> ps[i].trade.id != ps[j].trade.id
  }

  /** At most once and at least once: no trade is posted twice, none that was already durable is
      posted again, the durable set grows by exactly the posted trades, and every delivery whose claim
      and commit went through belongs to it. */
  lemma {:induction false} FillsExactlyOnce(applied: set<TradeId>, evs: seq<Event>)
    ensures NoFillTwice(Journal(applied, evs))
    ensures FillIds(Journal(applied, evs)) !! applied
    ensures Markers(applied, evs) == applied + FillIds(Journal(applied, evs))
    ensures forall i :: 0 <= i < |evs| && evs[i].FillEvent? && evs[i].fillIo.claimOk && evs[i].fillIo.commitOk ==>
      evs[i].trade.id in Markers(applied, evs)
  {
    if evs != [] {
      var before, ev := evs[..|evs| - 1], evs[|evs| - 1];
      FillsExactlyOnce(applied, before);
      var js, ps := Journal(applied, before), Postings(Markers(applied, before), ev);
      FillIdsAppend(js, ps);
      PostingIds(Markers(applied, before), ev);
      AppendOnce(js, ps);
      forall i | 0 <= i < |evs| && evs[i].FillEvent? && evs[i].fillIo.claimOk && evs[i].fillIo.commitOk
        ensures evs[i].trade.id in Markers(applied, evs)
      {
        if i < |before| { assert before[i] == evs[i]; }
      }
    }
  }

  lemma PostingIds(applied: set<TradeId>, ev: Event)
    ensures var ps := Postings(applied, ev);
            |ps| <= 1 && FillIds(ps) == if Commits(applied, ev) then {ev.trade.id} else {}
  {
    var ps := Postings(applied, ev);
    if Commits(applied, ev) { assert ps[0].trade.id in FillIds(ps); }
  }

  lemma AppendOnce(js: seq<Posting>, ps: seq<Posting>)
    requires NoFillTwice(js) && |ps| <= 1 && FillIds(ps) !! FillIds(js)
    ensures NoFillTwice(js + ps)
  {
    forall i, j | 0 <= i < j < |js + ps| && (js + ps)[i].PostFill? && (js + ps)[j].PostFill?
      ensures (js + ps)[i].trade.id != (js + ps)[j].trade.id
    {
      if j == |js| {
        assert js[i].trade.id in FillIds(js) && ps[0].trade.id in FillIds(ps);
      }
    }
  }

  lemma FillIdsAppend(ps: seq<Posting>, qs: seq<Posting>)
    ensures FillIds(ps + qs) == FillIds(ps) + FillIds(qs)
    ensures |qs| == 1 ==> FillIds(qs) == if qs[0].PostFill? then {qs[0].trade.id} else {}
  {
    forall id | id in FillIds(ps) + FillIds(qs) ensures id in FillIds(ps + qs) {
      if id in FillIds(ps) {
        var i :| 0 <= i < |ps| && ps[i].PostFill? && ps[i].trade.id == id;
        assert (ps + qs)[i] == ps[i];
      } else {
        var i :| 0 <= i < |qs| && qs[i].PostFill? && qs[i].trade.id == id;
        assert (ps + qs)[|ps| + i] == qs[i];
      }
    }
  }

  // ── Totals of a day of fills ───────────────────────────────────────────────

  function CommittedFills(applied: set<TradeId>, evs: seq<Event>): seq<Booking> {
    if evs == [] then []
    else
      var before, ev := evs[..|evs| - 1], evs[|evs| - 1];
      CommittedFills(applied, before)
      + if Commits(Markers(applied, before), ev)
        then [Booking(0.0, ev.trade.fee, ev.trade.cost, ev.trade.outcome, ev.at)]
        else []
  }

  lemma {:induction false} FillsBookDaily(e: Engine, evs: seq<Event>)
    requires forall i :: 0 <= i < |evs| ==> evs[i].FillEvent?
    ensures Run(e, evs).books.daily == RecordAll(e.books.daily, CommittedFills(e.applied, evs))
    ensures |CommittedFills(e.applied, evs)| <= |evs|
    ensures forall b :: b in CommittedFills(e.applied, evs) ==> exists i :: 0 <= i < |evs| && evs[i].at == b.at
  {
    if evs != [] {
      var before, ev := evs[..|evs| - 1], evs[|evs| - 1];
      FillsBookDaily(e, before);
      BooksFollowJournal(e, before);
      FillBooks(Run(e, before), ev.trade, ev.metrics, ev.fillIo, ev.at);
      PostOne(Run(e, before).books, PostFill(ev.trade, ev.at));
      var cs := CommittedFills(e.applied, evs);
      if Commits(Markers(e.applied, before), ev) {
        assert cs[..|cs| - 1] == CommittedFills(e.applied, before);
      } else {
        assert cs == CommittedFills(e.applied, before);
        assert PostAll(Run(e, before).books, []) == Run(e, before).books;
      }
      forall b | b in cs ensures exists i :: 0 <= i < |evs| && evs[i].at == b.at {
        if b in CommittedFills(e.applied, before) {
          var i :| 0 <= i < |before| && before[i].at == b.at;
          assert evs[i].at == b.at;
        } else {
          assert evs[|evs| - 1].at == b.at;
        }
      }
    }
  }

  lemma FillsOfTheDay(e: Engine, evs: seq<Event>)
    requires forall i :: 0 <= i < |evs| ==> evs[i].FillEvent? && Day(evs[i].at) == e.books.daily.windowStart
    ensures var fills := CommittedFills(e.applied, evs);
      && Run(e, evs).books.daily == RecordAll(e.books.daily, fills)
      && forall i :: 0 <= i < |fills| ==> Day(fills[i].at) == e.books.daily.windowStart
  {
    FillsBookDaily(e, evs);
    var fills := CommittedFills(e.applied, evs);
    forall i | 0 <= i < |fills| ensures Day(fills[i].at) == e.books.daily.windowStart {
      assert fills[i] in fills;
    }
  }

  /** On a day of fill deliveries the fee total, the spend and the trade count are those of the
      distinct committed trades. */
  lemma CommittedTotals(e: Engine, evs: seq<Event>)
    requires forall i :: 0 <= i < |evs| ==> evs[i].FillEvent? && Day(evs[i].at) == e.books.daily.windowStart
    ensures HoldsTotals(e.books.daily, Run(e, evs).books.daily, CommittedFills(e.applied, evs))
  {
    FillsOfTheDay(e, evs);
    DayTotals(e.books.daily, CommittedFills(e.applied, evs));
  }

  // ── The potential-loss ledger ──────────────────────────────────────────────

  predicate NonNegativeTrade(ev: Event) { ev.FillEvent? ==> ev.trade.cost + ev.trade.fee >= 0.0 }

  /** The running total is the sum of the active entries throughout every run, so the clamp at zero
      never acts, and every entry belongs to a durable trade. */
  lemma {:induction false} LedgerStaysConsistent(e: Engine, evs: seq<Event>)
    requires Consistent(e.books.ledger) && e.books.ledger.entries.Keys <= e.applied
    requires forall i :: 0 <= i < |evs| ==> NonNegativeTrade(evs[i])
    ensures Consistent(Run(e, evs).books.ledger)
    ensures Run(e, evs).books.ledger.entries.Keys <= Run(e, evs).applied
  {
    if evs != [] {
      var before, ev := evs[..|evs| - 1], evs[|evs| - 1];
      LedgerStaysConsistent(e, before);
      StepBooks(Run(e, before), ev);
      PostingsKeepLedger(Run(e, before).books, Run(e, before).applied, ev);
    }
  }

  lemma FillPostingKeepsLedger(b: Books, applied: set<TradeId>, ev: Event)
    requires Consistent(b.ledger) && b.ledger.entries.Keys <= applied && NonNegativeTrade(ev) && ev.FillEvent?
    ensures var b' := PostAll(b, Postings(applied, ev));
            Consistent(b'.ledger) && b'.ledger.entries.Keys <= if Commits(applied, ev) then applied + {ev.trade.id} else applied
  {
    var t := ev.trade;
    PostOne(b, PostFill(t, ev.at));
    RecordKeepsTotal(b.ledger, Entry(t.id, t.cost + t.fee, true, ev.at, None));
  }

  lemma PostingsKeepLedger(b: Books, applied: set<TradeId>, ev: Event)
    requires Consistent(b.ledger) && b.ledger.entries.Keys <= applied && NonNegativeTrade(ev)
    ensures var b' := PostAll(b, Postings(applied, ev));
            Consistent(b'.ledger) && b'.ledger.entries.Keys <= if Commits(applied, ev) then applied + {ev.trade.id} else applied
  {
    match ev {
      case FillEvent(t, _, _, at) => FillPostingKeepsLedger(b, applied, ev);
      case SettleEvent(t, _, _, at) =>
        PostOne(b, PostSettlement(t, at));
        ResolveKeepsTotal(b.ledger, t.id, at);
      case ResolveEvent(id, _, at) =>
        PostOne(b, PostResolve(id, at));
        ResolveKeepsTotal(b.ledger, id, at);
      case TickEvent(_, at) => PostOne(b, PostRoll(at));
      case ReloadEvent(cfg, _) => PostOne(b, PostBudget(cfg.dailyBudget));
      case _ =>
    }
  }

  /** Worst-case loss that a run's distinct committed successful fills add. */
  function CommittedLoss(applied: set<TradeId>, evs: seq<Event>): real {
    if evs == [] then 0.0
    else
      var before, ev := evs[..|evs| - 1], evs[|evs| - 1];
      CommittedLoss(applied, before)
      + if Commits(Markers(applied, before), ev) && ev.trade.outcome.Success? then ev.trade.cost + ev.trade.fee else 0.0
  }

  /** Over fill deliveries the ledger's total grows by exactly that amount: no committed fill is
      mistaken for one the ledger already has. */
  lemma {:induction false} LedgerTotalOfFills(e: Engine, evs: seq<Event>)
    requires e.books.ledger.entries.Keys <= e.applied
    requires forall i :: 0 <= i < |evs| ==> evs[i].FillEvent?
    ensures Run(e, evs).books.ledger.runningTotal == e.books.ledger.runningTotal + CommittedLoss(e.applied, evs)
    ensures Run(e, evs).books.ledger.entries.Keys <= Run(e, evs).applied
  {
    if evs != [] {
      var before, ev := evs[..|evs| - 1], evs[|evs| - 1];
      LedgerTotalOfFills(e, before);
      BooksFollowJournal(e, before);
      var c := Run(e, before);
      FillBooks(c, ev.trade, ev.metrics, ev.fillIo, ev.at);
      PostOne(c.books, PostFill(ev.trade, ev.at));
    }
  }
}
