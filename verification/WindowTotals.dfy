/** What the accounting windows hold after a run, in terms of the trades alone: each posting's profit, fee and
    cost are read off the trade, and each window covers the postings since it last rolled over. */
module WindowTotals {
  import opened MachineInts
  import opened Accounting
  import opened RiskEngineModel
  import opened RiskEngineBooks

  // ── What a posting is worth ────────────────────────────────────────────────

  predicate IsTrade(p: Posting) { p.PostFill? || p.PostSettlement? }

  function ProfitOf(p: Posting): real {
    if p.PostSettlement? && p.trade.netProfit.Some? then p.trade.netProfit.value else 0.0
  }

  function LossOf(p: Posting): real { if ProfitOf(p) < 0.0 then -ProfitOf(p) else 0.0 }

  function GainOf(p: Posting): real { if ProfitOf(p) > 0.0 then ProfitOf(p) else 0.0 }

  function FeeOf(p: Posting): real { if p.PostFill? then p.trade.fee else 0.0 }

  function CostOf(p: Posting): real { if p.PostFill? then p.trade.cost else 0.0 }

  function SumOf(f: Posting -> real, ps: seq<Posting>): real {
    if ps == [] then 0.0 else SumOf(f, ps[..|ps| - 1]) + f(ps[|ps| - 1])
  }

  /** The largest of `x` and the values of the postings. */
  function Largest(x: real, f: Posting -> real, ps: seq<Posting>): real {
    if ps == [] then x else MaxR(Largest(x, f, ps[..|ps| - 1]), f(ps[|ps| - 1]))
  }

  function CountOf(ps: seq<Posting>): nat {
    if ps == [] then 0 else CountOf(ps[..|ps| - 1]) + if IsTrade(ps[|ps| - 1]) then 1 else 0
  }

  function OutcomesOf(ps: seq<Posting>, o: Outcome): nat {
    if ps == [] then 0
    else OutcomesOf(ps[..|ps| - 1], o) + if IsTrade(ps[|ps| - 1]) && ps[|ps| - 1].trade.outcome == o then 1 else 0
  }

  // ── What a window covers ───────────────────────────────────────────────────

  datatype Period = DayPeriod | WeekPeriod | HourPeriod

  /** The day, the Monday or the hour of an instant. */
  function Slot(period: Period, at: int): int {
    match period
    case DayPeriod => Day(at)
    case WeekPeriod => Monday(Day(at))
    case HourPeriod => Hour(at)
  }

  /** Days and weeks are left only forwards, hours in both directions. */
  predicate Leaves(period: Period, start: int, slot: int) { if period.HourPeriod? then slot != start else slot > start }

  function StartOf(period: Period, b: Books): int {
    match period
    case DayPeriod => b.daily.windowStart
    case WeekPeriod => b.weekly.weekStart
    case HourPeriod => b.hourly.windowStart
  }

  function StatsOf(period: Period, b: Books): PeriodStats {
    match period
    case DayPeriod => b.daily.stats
    case WeekPeriod => b.weekly.stats
    case HourPeriod => b.hourly.stats
  }

  /** Trades and ticks look at the clock; budget changes and manual resolutions do not. */
  predicate Clocked(p: Posting) { IsTrade(p) || p.PostRoll? }

  /** The window a run ends in: its slot, whether it began during the run, and the postings it covers. */
  datatype Window = Window(start: int, renewed: bool, postings: seq<Posting>)

  predicate RollsOver(period: Period, start: int, p: Posting) { Clocked(p) && Leaves(period, start, Slot(period, p.at)) }

  function Covered(period: Period, start: int, ps: seq<Posting>): Window {
    if ps == [] then Window(start, false, [])
    else
      var w, p := Covered(period, start, ps[..|ps| - 1]), ps[|ps| - 1];
      if RollsOver(period, w.start, p) then Window(Slot(period, p.at), true, [p])
      else w.(postings := w.postings + [p])
  }

  ghost predicate HoldsAmounts(s: PeriodStats, r: PeriodStats, ps: seq<Posting>) {
    && r.loss == s.loss + SumOf(LossOf, ps)
    && r.pnl == s.pnl + SumOf(ProfitOf, ps)
    && r.fees == s.fees + SumOf(FeeOf, ps)
  }

  ghost predicate HoldsCounts(s: PeriodStats, r: PeriodStats, ps: seq<Posting>) {
    && Counted(s.tradeCount, r.tradeCount, CountOf(ps))
    && Counted(s.successCount, r.successCount, OutcomesOf(ps, Success))
    && Counted(s.missCount, r.missCount, OutcomesOf(ps, Miss))
  }

  /** `r` is `s` with `n` counted on top, modulo 2^32. */
  predicate Counted(s: u32, r: u32, n: nat) { r == WrapU32(s + n) }

  ghost predicate HoldsExtremes(s: PeriodStats, r: PeriodStats, ps: seq<Posting>) {
    && (s.maxSingleLoss >= 0.0 ==> r.maxSingleLoss == Largest(s.maxSingleLoss, LossOf, ps))
    && (s.maxSingleProfit >= 0.0 ==> r.maxSingleProfit == Largest(s.maxSingleProfit, GainOf, ps))
  }

  /** `r` is `s` with exactly the postings added.  The weekly window does not track extremes. */
  ghost predicate Holds(period: Period, s: PeriodStats, r: PeriodStats, ps: seq<Posting>) {
    HoldsAmounts(s, r, ps) && HoldsCounts(s, r, ps) && (!period.WeekPeriod? ==> HoldsExtremes(s, r, ps))
  }

  // ── One posting ────────────────────────────────────────────────────────────

  predicate AddsAmounts(s: PeriodStats, r: PeriodStats, p: Posting) {
    r.loss == s.loss + LossOf(p) && r.pnl == s.pnl + ProfitOf(p) && r.fees == s.fees + FeeOf(p)
  }

  predicate AddsCounts(s: PeriodStats, r: PeriodStats, p: Posting) {
    && Counts(s.tradeCount, r.tradeCount, IsTrade(p))
    && Counts(s.successCount, r.successCount, IsTrade(p) && p.trade.outcome == Success)
    && Counts(s.missCount, r.missCount, IsTrade(p) && p.trade.outcome == Miss)
  }

  predicate Counts(s: u32, r: u32, one: bool) { r == if one then WrapU32(s + 1) else s }

  predicate AddsExtremes(s: PeriodStats, r: PeriodStats, p: Posting) {
    && (s.maxSingleLoss >= 0.0 ==> r.maxSingleLoss == MaxR(s.maxSingleLoss, LossOf(p)))
    && (s.maxSingleProfit >= 0.0 ==> r.maxSingleProfit == MaxR(s.maxSingleProfit, GainOf(p)))
  }

  /** `r` is `s` with the one posting added. */
  predicate Adds(period: Period, s: PeriodStats, r: PeriodStats, p: Posting) {
    AddsAmounts(s, r, p) && AddsCounts(s, r, p) && (!period.WeekPeriod? ==> AddsExtremes(s, r, p))
  }

  predicate PostAdds(period: Period, b: Books, p: Posting) {
    var r, rolls := Post(b, p), RollsOver(period, StartOf(period, b), p);
    && StartOf(period, r) == (if rolls then Slot(period, p.at) else StartOf(period, b))
    && Adds(period, if rolls then ZERO_STATS else StatsOf(period, b), StatsOf(period, r), p)
  }

  lemma BookAdds(period: Period, s: PeriodStats, p: Posting)
    requires IsTrade(p)
    ensures !period.WeekPeriod? ==> Adds(period, s, Book(s, ProfitOf(p), FeeOf(p), p.trade.outcome), p)
    ensures period.WeekPeriod? ==> Adds(period, s, BookTotals(s, ProfitOf(p), FeeOf(p), p.trade.outcome), p)
  {
  }

  lemma TradeAdds(period: Period, b: Books, p: Posting)
    requires IsTrade(p)
    ensures PostAdds(period, b, p)
  {
    match period {
      case DayPeriod => BookAdds(period, RollDaily(b.daily, p.at).stats, p);
      case WeekPeriod => BookAdds(period, RollWeekly(b.weekly, p.at).stats, p);
      case HourPeriod => BookAdds(period, RollHourly(b.hourly, p.at).stats, p);
    }
  }

  lemma UntradedAdds(period: Period, b: Books, p: Posting)
    requires !IsTrade(p)
    ensures PostAdds(period, b, p)
  {
  }

  lemma PostingAdds(period: Period, b: Books, p: Posting)
    ensures PostAdds(period, b, p)
  {
    if IsTrade(p) { TradeAdds(period, b, p); } else { UntradedAdds(period, b, p); }
  }

  // ── All postings ───────────────────────────────────────────────────────────

  lemma SumNext(f: Posting -> real, ps: seq<Posting>, p: Posting)
    ensures SumOf(f, ps + [p]) == SumOf(f, ps) + f(p)
  {
    assert (ps + [p])[..|ps|] == ps;
  }

  lemma LargestNext(x: real, f: Posting -> real, ps: seq<Posting>, p: Posting)
    ensures Largest(x, f, ps + [p]) == MaxR(Largest(x, f, ps), f(p))
  {
    assert (ps + [p])[..|ps|] == ps;
  }

  lemma {:induction false} LargestAtLeast(x: real, f: Posting -> real, ps: seq<Posting>)
    ensures Largest(x, f, ps) >= x
  {
    if ps != [] { LargestAtLeast(x, f, ps[..|ps| - 1]); }
  }

  lemma CountNext(ps: seq<Posting>, p: Posting, o: Outcome)
    ensures CountOf(ps + [p]) == CountOf(ps) + if IsTrade(p) then 1 else 0
    ensures OutcomesOf(ps + [p], o) == OutcomesOf(ps, o) + if IsTrade(p) && p.trade.outcome == o then 1 else 0
  {
    assert (ps + [p])[..|ps|] == ps;
  }

  lemma NothingHeld(period: Period, s: PeriodStats)
    ensures Holds(period, s, s, [])
  {
  }

  lemma CountedNext(s: u32, q: u32, r: u32, n: nat, one: bool)
    requires Counted(s, q, n) && Counts(q, r, one)
    ensures Counted(s, r, n + if one then 1 else 0)
  {
    WrapSuccessor(s + n);
  }

  lemma AmountsNext(s: PeriodStats, q: PeriodStats, r: PeriodStats, ps: seq<Posting>, p: Posting)
    requires HoldsAmounts(s, q, ps) && AddsAmounts(q, r, p)
    ensures HoldsAmounts(s, r, ps + [p])
  {
    SumNext(LossOf, ps, p);
    SumNext(ProfitOf, ps, p);
    SumNext(FeeOf, ps, p);
  }

  lemma CountsNext(s: PeriodStats, q: PeriodStats, r: PeriodStats, ps: seq<Posting>, p: Posting)
    requires HoldsCounts(s, q, ps) && AddsCounts(q, r, p)
    ensures HoldsCounts(s, r, ps + [p])
  {
    CountNext(ps, p, Success);
    CountNext(ps, p, Miss);
    CountedNext(s.tradeCount, q.tradeCount, r.tradeCount, CountOf(ps), IsTrade(p));
    CountedNext(s.successCount, q.successCount, r.successCount, OutcomesOf(ps, Success), IsTrade(p) && p.trade.outcome == Success);
    CountedNext(s.missCount, q.missCount, r.missCount, OutcomesOf(ps, Miss), IsTrade(p) && p.trade.outcome == Miss);
  }

  lemma ExtremesNext(s: PeriodStats, q: PeriodStats, r: PeriodStats, ps: seq<Posting>, p: Posting)
    requires HoldsExtremes(s, q, ps) && AddsExtremes(q, r, p)
    ensures HoldsExtremes(s, r, ps + [p])
  {
    LargestNext(s.maxSingleLoss, LossOf, ps, p);
    LargestNext(s.maxSingleProfit, GainOf, ps, p);
    LargestAtLeast(s.maxSingleLoss, LossOf, ps);
    LargestAtLeast(s.maxSingleProfit, GainOf, ps);
  }

  lemma HoldsNext(period: Period, s: PeriodStats, q: PeriodStats, r: PeriodStats, ps: seq<Posting>, p: Posting)
    requires Holds(period, s, q, ps) && Adds(period, q, r, p)
    ensures Holds(period, s, r, ps + [p])
  {
    AmountsNext(s, q, r, ps, p);
    CountsNext(s, q, r, ps, p);
    if !period.WeekPeriod? { ExtremesNext(s, q, r, ps, p); }
  }

  /** The window's stats as the run found them, or none of them once it rolled over. */
  function BaseOf(period: Period, b: Books, w: Window): PeriodStats { if w.renewed then ZERO_STATS else StatsOf(period, b) }

  ghost predicate WindowHolds(period: Period, b: Books, r: Books, w: Window) {
    StartOf(period, r) == w.start && Holds(period, BaseOf(period, b, w), StatsOf(period, r), w.postings)
  }

  lemma {:induction false} PostingsHold(period: Period, b: Books, ps: seq<Posting>)
    ensures WindowHolds(period, b, PostAll(b, ps), Covered(period, StartOf(period, b), ps))
  {
    if ps == [] {
      NothingHeld(period, StatsOf(period, b));
    } else {
      var init, p := ps[..|ps| - 1], ps[|ps| - 1];
      PostingsHold(period, b, init);
      NextHolds(period, b, PostAll(b, init), Covered(period, StartOf(period, b), init), p);
    }
  }

  lemma NextHolds(period: Period, b: Books, q: Books, w: Window, p: Posting)
    requires WindowHolds(period, b, q, w)
    ensures WindowHolds(period, b, Post(q, p),
      if RollsOver(period, w.start, p) then Window(Slot(period, p.at), true, [p]) else w.(postings := w.postings + [p]))
  {
    if RollsOver(period, w.start, p) {
      RenewedHolds(period, q, p);
    } else {
      ContinuedHolds(period, BaseOf(period, b, w), q, w.postings, p);
    }
  }

  lemma RenewedHolds(period: Period, q: Books, p: Posting)
    requires RollsOver(period, StartOf(period, q), p)
    ensures StartOf(period, Post(q, p)) == Slot(period, p.at) && Holds(period, ZERO_STATS, StatsOf(period, Post(q, p)), [p])
  {
    PostingAdds(period, q, p);
    NothingHeld(period, ZERO_STATS);
    HoldsNext(period, ZERO_STATS, ZERO_STATS, StatsOf(period, Post(q, p)), [], p);
    assert [] + [p] == [p];
  }

  lemma ContinuedHolds(period: Period, s: PeriodStats, q: Books, ps: seq<Posting>, p: Posting)
    requires !RollsOver(period, StartOf(period, q), p) && Holds(period, s, StatsOf(period, q), ps)
    ensures StartOf(period, Post(q, p)) == StartOf(period, q) && Holds(period, s, StatsOf(period, Post(q, p)), ps + [p])
  {
    PostingAdds(period, q, p);
    HoldsNext(period, s, StatsOf(period, q), StatsOf(period, Post(q, p)), ps, p);
  }

  /** Over every run each of the three windows holds exactly the losses, results, fees, counts and extremes of
      the effective trades since it last rolled over, added to what it held before if it never did. */
  lemma WindowsHoldJournal(period: Period, e: Engine, evs: seq<Event>)
    ensures WindowHolds(period, e.books, Run(e, evs).books, Covered(period, StartOf(period, e.books), Journal(e.applied, evs)))
  {
    BooksFollowJournal(e, evs);
    PostingsHold(period, e.books, Journal(e.applied, evs));
  }

  ghost predicate WithinSlot(period: Period, start: int, ps: seq<Posting>) {
    forall i :: 0 <= i < |ps| ==> !RollsOver(period, start, ps[i])
  }

  /** Inside one slot the window covers all postings. */
  lemma {:induction false} OneSlotCoversAll(period: Period, start: int, ps: seq<Posting>)
    requires WithinSlot(period, start, ps)
    ensures Covered(period, start, ps) == Window(start, false, ps)
  {
    if ps != [] {
      OneSlotCoversAll(period, start, ps[..|ps| - 1]);
      assert ps[..|ps| - 1] + [ps[|ps| - 1]] == ps;
    }
  }

  /** Within one day, week or hour the window moves by the sums over the whole journal. */
  lemma TotalsWithinSlot(period: Period, e: Engine, evs: seq<Event>)
    requires WithinSlot(period, StartOf(period, e.books), Journal(e.applied, evs))
    ensures StartOf(period, Run(e, evs).books) == StartOf(period, e.books)
    ensures Holds(period, StatsOf(period, e.books), StatsOf(period, Run(e, evs).books), Journal(e.applied, evs))
  {
    WindowsHoldJournal(period, e, evs);
    OneSlotCoversAll(period, StartOf(period, e.books), Journal(e.applied, evs));
  }

  // ── Budget and lifetime ────────────────────────────────────────────────────

  /** No budget change among the postings the day covers. */
  ghost predicate BudgetKept(ps: seq<Posting>) { forall i :: 0 <= i < |ps| ==> !ps[i].PostBudget? }

  lemma PostingSpends(b: Books, p: Posting)
    requires !p.PostBudget?
    ensures Post(b, p).daily.Spent() == (if RollsOver(DayPeriod, b.daily.windowStart, p) then 0.0 else b.daily.Spent()) + CostOf(p)
  {
  }

  /** As long as the budget does not change, the day has spent the costs of its fills. */
  lemma {:induction false} PostingsSpend(b: Books, ps: seq<Posting>)
    requires BudgetKept(Covered(DayPeriod, b.daily.windowStart, ps).postings)
    ensures var w := Covered(DayPeriod, b.daily.windowStart, ps);
            PostAll(b, ps).daily.Spent() == (if w.renewed then 0.0 else b.daily.Spent()) + SumOf(CostOf, w.postings)
  {
    if ps != [] {
      var init, p := ps[..|ps| - 1], ps[|ps| - 1];
      var w, q := Covered(DayPeriod, b.daily.windowStart, init), PostAll(b, init);
      var all := Covered(DayPeriod, b.daily.windowStart, ps).postings;
      assert all[|all| - 1] == p;
      PostingsHold(DayPeriod, b, init);
      PostingSpends(q, p);
      if RollsOver(DayPeriod, w.start, p) {
        SumNext(CostOf, [], p);
        assert [] + [p] == [p];
      } else {
        forall i | 0 <= i < |w.postings| ensures !w.postings[i].PostBudget? { assert all[i] == w.postings[i]; }
        PostingsSpend(b, init);
        SumNext(CostOf, w.postings, p);
      }
    }
  }

  lemma {:induction false} PostingsRealize(b: Books, ps: seq<Posting>)
    ensures PostAll(b, ps).lifetime == b.lifetime + SumOf(ProfitOf, ps)
  {
    if ps != [] { PostingsRealize(b, ps[..|ps| - 1]); }
  }

  /** Over every run the lifetime result moves by the profits of all settlements, and the day has spent the costs
      of its committed fills unless the budget changed during it. */
  lemma SpendAndLifetime(e: Engine, evs: seq<Event>)
    ensures Run(e, evs).books.lifetime == e.books.lifetime + SumOf(ProfitOf, Journal(e.applied, evs))
    ensures var w := Covered(DayPeriod, e.books.daily.windowStart, Journal(e.applied, evs));
            BudgetKept(w.postings) ==>
              Run(e, evs).books.daily.Spent() == (if w.renewed then 0.0 else e.books.daily.Spent()) + SumOf(CostOf, w.postings)
  {
    var js := Journal(e.applied, evs);
    BooksFollowJournal(e, evs);
    PostingsRealize(e.books, js);
    if BudgetKept(Covered(DayPeriod, e.books.daily.windowStart, js).postings) { PostingsSpend(e.books, js); }
  }
}
