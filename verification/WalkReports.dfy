/** What the two walks report: totals of the fills, the average price to the nearest micro, the levels touched
    and the share of the depth used. */
module WalkReports {
  import opened MachineInts
  import opened OrderbookWalking

  // ── The reported quotients ─────────────────────────────────────────────────

  /** `vwap` is the cost per share, to the nearest micro. */
  predicate NearestAverage(vwap: int, cost: int, shares: int) {
    -shares <= 2 * (vwap * shares - cost * MICRO) <= shares
  }

  lemma AverageIsNearest(cost: int, shares: int)
    requires cost >= 0 && shares > 0 && cost * MICRO <= I64_MAX * shares
    ensures NearestAverage(Vwap(cost, shares), cost, shares)
  {
    var n := cost * MICRO + shares / 2;
    var v := Truncate(n, shares);
    VwapBelowTop(cost, shares, I64_MAX);
    QuotientBounds(n, shares);
    assert n < I64_MAX * shares + shares == (I64_MAX + 1) * shares;
    QuotientAtMost(n, shares, I64_MAX);
    assert Vwap(cost, shares) == v;
    assert (v + 1) * shares == v * shares + shares;
  }

  /** `pct` is the cost in whole percent of the depth. */
  predicate PercentUsed(pct: int, cost: int, depth: int) {
    if depth <= 0 then pct == 0 else pct * depth <= cost * 100 < (pct + 1) * depth
  }

  lemma PercentIsUsed(cost: int, depth: int)
    requires cost >= 0 && (depth > 0 ==> cost * 100 < (I64_MAX + 1) * depth)
    ensures PercentUsed(PercentOf(cost, depth), cost, depth)
  {
    if depth > 0 {
      QuotientBounds(cost * 100, depth);
      QuotientAtMost(cost * 100, depth, I64_MAX);
    }
  }

  // ── The levels ─────────────────────────────────────────────────────────────

  /** Levels that something was taken from. */
  function Consumed(g: seq<int>): nat { if g == [] then 0 else (if g[0] > 0 then 1 else 0) + Consumed(g[1..]) }

  function LiveLevels(asks: seq<Level>): nat {
    if asks == [] then 0 else (if Live(asks[0]) then 1 else 0) + LiveLevels(asks[1..])
  }

  lemma {:induction false} NothingConsumed(n: nat)
    ensures Consumed(Nothing(n)) == 0
  {
    if n > 0 {
      NothingConsumed(n - 1);
      assert Nothing(n)[1..] == Nothing(n - 1);
    }
  }

  lemma ConsumedFirst(x: int, g: seq<int>)
    ensures Consumed([x] + g) == (if x > 0 then 1 else 0) + Consumed(g)
  {
    assert ([x] + g)[1..] == g;
  }

  /** The share walk counts exactly the levels it takes shares from. */
  lemma {:induction false} ShareWalkLevels(asks: seq<Level>, w: Walk, floor: int)
    requires w.remaining >= 0
    ensures WalkByShares(asks, w, floor).levels == w.levels + Consumed(FillsByShares(asks, w.remaining, floor))
  {
    if asks == [] || w.remaining == 0 || (Live(asks[0]) && asks[0].price < floor) {
      NothingConsumed(|asks|);
    } else if !Live(asks[0]) {
      ShareWalkLevels(asks[1..], w, floor);
      ConsumedFirst(0, FillsByShares(asks[1..], w.remaining, floor));
    } else {
      var v := TakeByShares(asks[0], w);
      ShareWalkLevels(asks[1..], v, floor);
      ConsumedFirst(Min(w.remaining, asks[0].size), FillsByShares(asks[1..], v.remaining, floor));
    }
  }

  /** The cost walk counts every level it takes shares from, and besides only live ones it could not afford. */
  lemma {:induction false} CostWalkLevels(asks: seq<Level>, w: Walk, floor: int)
    ensures var v := WalkByCost(asks, w, floor);
            w.levels + Consumed(FillsByCost(asks, w.remaining, floor)) <= v.levels <= w.levels + LiveLevels(asks)
  {
    if asks != [] {
      if !Live(asks[0]) {
        CostWalkLevels(asks[1..], w, floor);
        ConsumedFirst(0, FillsByCost(asks[1..], w.remaining, floor));
      } else if asks[0].price < floor || w.remaining <= 0 {
        NothingConsumed(|asks|);
      } else {
        var v := TakeByCost(asks[0], w);
        CostWalkLevels(asks[1..], v, floor);
        ConsumedFirst(FillByCost(asks[0], w.remaining), FillsByCost(asks[1..], v.remaining, floor));
      }
    }
  }

  // ── The reports ────────────────────────────────────────────────────────────

  lemma FillsCost(asks: seq<Level>, g: seq<int>)
    requires Allocation(asks, g)
    ensures 0 <= FlooredCost(asks, g) && FlooredCost(asks, g) * MICRO <= I64_MAX * Total(g)
  {
    WithinDepth(asks, g);
    CostBelowTop(asks, g, I64_MAX);
  }

  /** The quotients of a report on the fills `g`. */
  lemma ReportQuotients(asks: seq<Level>, g: seq<int>, depth: int)
    requires Allocation(asks, g) && Total(g) > 0 && FlooredCost(asks, g) * 100 < (I64_MAX + 1) * Max(depth, 1)
    ensures NearestAverage(Vwap(FlooredCost(asks, g), Total(g)), FlooredCost(asks, g), Total(g))
    ensures PercentUsed(PercentOf(FlooredCost(asks, g), depth), FlooredCost(asks, g), depth)
  {
    FillsCost(asks, g);
    AverageIsNearest(FlooredCost(asks, g), Total(g));
    PercentIsUsed(FlooredCost(asks, g), depth);
  }

  /** The cost walk reports its fills: their total and cost, the nearest average, the percentage of the depth, at
      least the levels consumed, and as filled when budget is left.  The share total must fit 64 bits, and the
      percentage too. */
  lemma CostReport(asks: seq<Level>, budget: i64, floor: i64, depth: i64)
    requires budget >= 0 && WalkByCost(asks, Start(budget), floor).shares <= I64_MAX
    requires FlooredCost(asks, FillsByCost(asks, budget, floor)) * 100 < (I64_MAX + 1) * Max(depth, 1)
    ensures var r, g := ByCost(asks, budget, floor, depth), FillsByCost(asks, budget, floor);
      && (r.Some? <==> Total(g) > 0)
      && (r.Some? ==>
           && r.value.shares == Total(g) && r.value.totalCost == FlooredCost(asks, g)
           && NearestAverage(r.value.vwap, r.value.totalCost, r.value.shares)
           && PercentUsed(r.value.depthUsedPct, r.value.totalCost, depth)
           && Consumed(g) <= r.value.levelsConsumed <= LiveLevels(asks)
           && (r.value.fullyFilled <==> r.value.totalCost < budget))
  {
    var g := FillsByCost(asks, budget, floor);
    CostTotalsExactIff(asks, budget, floor);
    CostWalkTakes(asks, Start(budget), floor);
    BudgetConserved(asks, Start(budget), floor);
    CostWalkLevels(asks, Start(budget), floor);
    WithinDepth(asks, g);
    if Total(g) > 0 { ReportQuotients(asks, g, depth); }
  }

  /** So does the share walk; it counts exactly the levels consumed, and is filled when the target is reached. */
  lemma ShareReport(asks: seq<Level>, target: i64, floor: i64, depth: i64)
    requires target >= 0 && WalkByShares(asks, Start(target), floor).cost <= I64_MAX
    requires FlooredCost(asks, FillsByShares(asks, target, floor)) * 100 < (I64_MAX + 1) * Max(depth, 1)
    ensures var r, g := ByShares(asks, target, floor, depth), FillsByShares(asks, target, floor);
      && (r.Some? <==> Total(g) > 0)
      && (r.Some? ==>
           && r.value.shares == Total(g) && r.value.totalCost == FlooredCost(asks, g)
           && NearestAverage(r.value.vwap, r.value.totalCost, r.value.shares)
           && PercentUsed(r.value.depthUsedPct, r.value.totalCost, depth)
           && r.value.levelsConsumed == Consumed(g)
           && (r.value.fullyFilled <==> r.value.shares == target))
  {
    var g := FillsByShares(asks, target, floor);
    ShareTotalsExact(asks, target, floor);
    ShareWalkTakes(asks, Start(target), floor);
    SharesWithinTarget(asks, Start(target), floor);
    ShareWalkLevels(asks, Start(target), floor);
    WithinDepth(asks, g);
    if Total(g) > 0 { ReportQuotients(asks, g, depth); }
  }
}
