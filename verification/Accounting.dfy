/** Daily, weekly and hourly accounting windows with automatic rollover.
    Instants are nanoseconds since the Unix epoch; a date is a day number, an hour an hour number. */
module Accounting {
  import opened MachineInts

  const NANOS_PER_HOUR: int := 3_600_000_000_000
  const NANOS_PER_DAY: int := 24 * NANOS_PER_HOUR

  function Day(now: int): int { now / NANOS_PER_DAY }

  function Hour(now: int): int { now / NANOS_PER_HOUR }

  /** The Monday on or before `day`; day 0, 1970-01-01, was a Thursday. */
  function Monday(day: int): int { day - (day + 3) % 7 }

  datatype Outcome = Success | Miss | Failed

  datatype PeriodStats = PeriodStats(
    loss: real,
    fees: real,
    pnl: real,
    tradeCount: u32,
    successCount: u32,
    missCount: u32,
    maxSingleLoss: real,
    maxSingleProfit: real)

  const ZERO_STATS: PeriodStats := PeriodStats(0.0, 0.0, 0.0, 0, 0, 0, 0.0, 0.0)

  /** The part of booking a trade that all three windows share. */
  function BookTotals(s: PeriodStats, profit: real, fees: real, outcome: Outcome): PeriodStats {
    s.(tradeCount := WrapU32(s.tradeCount + 1),
       pnl := s.pnl + profit,
       fees := s.fees + fees,
       successCount := if outcome.Success? then WrapU32(s.successCount + 1) else s.successCount,
       missCount := if outcome.Miss? then WrapU32(s.missCount + 1) else s.missCount,
       loss := if profit < 0.0 then s.loss - profit else s.loss)
  }

  /** Daily and hourly windows also track the extremes. */
  function Book(s: PeriodStats, profit: real, fees: real, outcome: Outcome): PeriodStats {
    var t := BookTotals(s, profit, fees, outcome);
    if profit < 0.0
    then t.(maxSingleLoss := MaxR(s.maxSingleLoss, -profit))
    else t.(maxSingleProfit := MaxR(s.maxSingleProfit, profit))
  }

  datatype Daily = Daily(windowStart: int, stats: PeriodStats, budgetRemaining: real, initialBudget: real) {
    function Spent(): real { initialBudget - budgetRemaining }
  }

  datatype Weekly = Weekly(weekStart: int, stats: PeriodStats)

  datatype Hourly = Hourly(windowStart: int, stats: PeriodStats)

  function RollDaily(d: Daily, now: int): Daily {
    if Day(now) > d.windowStart then Daily(Day(now), ZERO_STATS, d.initialBudget, d.initialBudget) else d
  }

  function RollWeekly(w: Weekly, now: int): Weekly {
    if Monday(Day(now)) > w.weekStart then Weekly(Monday(Day(now)), ZERO_STATS) else w
  }

  /** An hour window is left as soon as the clock shows any other hour. */
  function RollHourly(h: Hourly, now: int): Hourly {
    if Hour(now) != h.windowStart then Hourly(Hour(now), ZERO_STATS) else h
  }

  function RecordDaily(d: Daily, profit: real, fees: real, cost: real, outcome: Outcome, now: int): Daily {
    var r := RollDaily(d, now);
    r.(stats := Book(r.stats, profit, fees, outcome), budgetRemaining := r.budgetRemaining - cost)
  }

  function RecordWeekly(w: Weekly, profit: real, fees: real, outcome: Outcome, now: int): Weekly {
    var r := RollWeekly(w, now);
    r.(stats := BookTotals(r.stats, profit, fees, outcome))
  }

  function RecordHourly(h: Hourly, profit: real, fees: real, outcome: Outcome, now: int): Hourly {
    var r := RollHourly(h, now);
    r.(stats := Book(r.stats, profit, fees, outcome))
  }

  function SetBudget(d: Daily, budget: real): Daily {
    d.(initialBudget := budget, budgetRemaining := MaxR(budget - d.Spent(), 0.0))
  }

  // ── Properties ─────────────────────────────────────────────────────────────

  /** Loss is non-negative and splits the result: no single loss exceeds it, and it covers every
      negative balance. */
  predicate Sound(s: PeriodStats) {
    0.0 <= s.maxSingleLoss <= s.loss && s.pnl + s.loss >= 0.0
  }

  /** The week of a day starts on the Monday of the last seven days; day 4, 1970-01-05, was a Monday. */
  lemma WeekStartsOnMonday(day: int)
    ensures Monday(day) <= day < Monday(day) + 7 && (Monday(day) - 4) % 7 == 0
  {
  }

  lemma BookKeepsSound(s: PeriodStats, profit: real, fees: real, outcome: Outcome)
    requires Sound(s)
    ensures Sound(Book(s, profit, fees, outcome)) && Sound(BookTotals(s, profit, fees, outcome))
    ensures profit < 0.0 ==> Book(s, profit, fees, outcome).maxSingleLoss >= -profit
  {
  }

  datatype Booking = Booking(profit: real, fees: real, cost: real, outcome: Outcome, at: int)

  function RecordAll(d: Daily, bs: seq<Booking>): Daily {
    if bs == [] then d
    else
      var b := bs[|bs| - 1];
      RecordDaily(RecordAll(d, bs[..|bs| - 1]), b.profit, b.fees, b.cost, b.outcome, b.at)
  }

  function Total(f: Booking -> real, bs: seq<Booking>): real {
    if bs == [] then 0.0 else Total(f, bs[..|bs| - 1]) + f(bs[|bs| - 1])
  }

  lemma BookingAdds(d: Daily, b: Booking)
    requires Day(b.at) == d.windowStart
    ensures var r := RecordDaily(d, b.profit, b.fees, b.cost, b.outcome, b.at);
      && r.windowStart == d.windowStart
      && r.stats.fees == d.stats.fees + b.fees
      && r.stats.pnl == d.stats.pnl + b.profit
      && r.stats.loss == d.stats.loss + MaxR(-b.profit, 0.0)
      && r.stats.tradeCount == WrapU32(d.stats.tradeCount + 1)
      && r.Spent() == d.Spent() + b.cost
  {
  }

  /** `r` is the window `d` with exactly the bookings added. */
  ghost predicate HoldsTotals(d: Daily, r: Daily, bs: seq<Booking>) {
    && r.windowStart == d.windowStart
    && r.stats.fees == d.stats.fees + Total((b: Booking) => b.fees, bs)
    && r.stats.pnl == d.stats.pnl + Total((b: Booking) => b.profit, bs)
    && r.stats.loss == d.stats.loss + Total((b: Booking) => MaxR(-b.profit, 0.0), bs)
    && r.stats.tradeCount == WrapU32(d.stats.tradeCount + |bs|)
    && r.Spent() == d.Spent() + Total((b: Booking) => b.cost, bs)
  }

  /** Within one day the window holds the plain totals of what was booked, and the remaining budget
      is the initial one minus all costs. */
  lemma {:induction false} DayTotals(d: Daily, bs: seq<Booking>)
    requires forall i :: 0 <= i < |bs| ==> Day(bs[i].at) == d.windowStart
    ensures HoldsTotals(d, RecordAll(d, bs), bs)
  {
    if bs != [] {
      DayTotals(d, bs[..|bs| - 1]);
      BookingAdds(RecordAll(d, bs[..|bs| - 1]), bs[|bs| - 1]);
      WrapSuccessor(d.stats.tradeCount + |bs| - 1);
    }
  }

  /** A booking on a later day starts from an empty window and the full budget. */
  lemma RolloverDiscards(d: Daily, b: Booking)
    requires Day(b.at) > d.windowStart
    ensures RecordDaily(d, b.profit, b.fees, b.cost, b.outcome, b.at)
      == RecordDaily(Daily(Day(b.at), ZERO_STATS, d.initialBudget, d.initialBudget),
                     b.profit, b.fees, b.cost, b.outcome, b.at)
  {
  }

  /** Changing the budget keeps the amount already spent if and only if the new budget covers it:
      below that the remaining budget is floored at zero and the excess spend is forgotten. */
  lemma BudgetChangeKeepsSpend(d: Daily, budget: real)
    ensures SetBudget(d, budget).Spent() == d.Spent() <==> budget >= d.Spent()
    ensures SetBudget(d, budget).initialBudget == budget
    ensures SetBudget(d, budget).budgetRemaining >= 0.0
    ensures SetBudget(d, budget).Spent() <= d.Spent()
  {
  }

  /** Lowering the budget under the day's spend and raising it again frees budget that was used. */
  lemma BudgetDipRefunds()
    ensures exists d: Daily ::
      SetBudget(SetBudget(d, 50.0), d.initialBudget).budgetRemaining > d.budgetRemaining >= 0.0
  {
    var d := Daily(0, ZERO_STATS, 10.0, 100.0);
    assert SetBudget(SetBudget(d, 50.0), d.initialBudget).budgetRemaining == 50.0;
  }

  // ── The in-place windows ───────────────────────────────────────────────────

  class DailyAccounting {
    var window: Daily

    constructor (d: Daily)
      ensures window == d
    {
      window := d;
    }

    method MaybeRollover(now: int) returns (rolled: bool)
      modifies this
      ensures window == RollDaily(old(window), now)
      ensures rolled == (Day(now) > old(window.windowStart))
    {
      rolled := Day(now) > window.windowStart;
      if rolled {
        window := window.(windowStart := Day(now), stats := ZERO_STATS, budgetRemaining := window.initialBudget);
      }
    }

    method RecordTrade(profit: real, fees: real, cost: real, outcome: Outcome, now: int) returns (rolled: bool)
      modifies this
      ensures window == RecordDaily(old(window), profit, fees, cost, outcome, now)
      ensures rolled == (Day(now) > old(window.windowStart))
    {
      rolled := MaybeRollover(now);
      var s := window.stats;
      s := s.(tradeCount := WrapU32(s.tradeCount + 1), pnl := s.pnl + profit, fees := s.fees + fees);
      match outcome {
        case Success => s := s.(successCount := WrapU32(s.successCount + 1));
        case Miss => s := s.(missCount := WrapU32(s.missCount + 1));
        case Failed =>
      }
      if profit < 0.0 {
        s := s.(loss := s.loss - profit, maxSingleLoss := MaxR(s.maxSingleLoss, -profit));
      } else {
        s := s.(maxSingleProfit := MaxR(s.maxSingleProfit, profit));
      }
      window := window.(stats := s, budgetRemaining := window.budgetRemaining - cost);
    }

    method ChangeBudget(budget: real)
      modifies this
      ensures window == SetBudget(old(window), budget)
    {
      var spent := window.Spent();
      window := window.(initialBudget := budget);
      window := window.(budgetRemaining := MaxR(budget - spent, 0.0));
    }
  }

  class WeeklyAccounting {
    var window: Weekly

    constructor (w: Weekly)
      ensures window == w
    {
      window := w;
    }

    method MaybeRollover(now: int) returns (rolled: bool)
      modifies this
      ensures window == RollWeekly(old(window), now)
      ensures rolled == (Monday(Day(now)) > old(window.weekStart))
    {
      var monday := Monday(Day(now));
      rolled := monday > window.weekStart;
      if rolled {
        window := Weekly(monday, ZERO_STATS);
      }
    }

    method RecordTrade(profit: real, fees: real, outcome: Outcome, now: int) returns (rolled: bool)
      modifies this
      ensures window == RecordWeekly(old(window), profit, fees, outcome, now)
      ensures rolled == (Monday(Day(now)) > old(window.weekStart))
    {
      rolled := MaybeRollover(now);
      var s := window.stats;
      s := s.(tradeCount := WrapU32(s.tradeCount + 1), pnl := s.pnl + profit, fees := s.fees + fees);
      match outcome {
        case Success => s := s.(successCount := WrapU32(s.successCount + 1));
        case Miss => s := s.(missCount := WrapU32(s.missCount + 1));
        case Failed =>
      }
      if profit < 0.0 {
        s := s.(loss := s.loss - profit);
      }
      window := window.(stats := s);
    }
  }

  class HourlyAccounting {
    var window: Hourly

    constructor (h: Hourly)
      ensures window == h
    {
      window := h;
    }

    method MaybeRollover(now: int) returns (rolled: bool)
      modifies this
      ensures window == RollHourly(old(window), now)
      ensures rolled == (Hour(now) != old(window.windowStart))
    {
      rolled := Hour(now) != window.windowStart;
      if rolled {
        window := Hourly(Hour(now), ZERO_STATS);
      }
    }

    method RecordTrade(profit: real, fees: real, outcome: Outcome, now: int) returns (rolled: bool)
      modifies this
      ensures window == RecordHourly(old(window), profit, fees, outcome, now)
      ensures rolled == (Hour(now) != old(window.windowStart))
    {
      rolled := MaybeRollover(now);
      var s := window.stats;
      s := s.(tradeCount := WrapU32(s.tradeCount + 1), pnl := s.pnl + profit, fees := s.fees + fees);
      match outcome {
        case Success => s := s.(successCount := WrapU32(s.successCount + 1));
        case Miss => s := s.(missCount := WrapU32(s.missCount + 1));
        case Failed =>
      }
      if profit < 0.0 {
        s := s.(loss := s.loss - profit, maxSingleLoss := MaxR(s.maxSingleLoss, -profit));
      } else {
        s := s.(maxSingleProfit := MaxR(s.maxSingleProfit, profit));
      }
      window := window.(stats := s);
    }
  }
}
