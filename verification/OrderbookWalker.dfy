/** Walking ask levels in fixed-point micro units, by budget and by share count. */
module OrderbookWalking {
  import opened MachineInts

  datatype Level = Level(price: i64, size: i64)

  /** Levels with a non-positive price or size are skipped. */
  predicate Live(l: Level) { l.price > 0 && l.size > 0 }

  // ── Fixed-point arithmetic ─────────────────────────────────────────────────

  /** Division that truncates toward zero. */
  function Truncate(n: int, d: int): int
    requires d > 0
  {
    if n >= 0 then n / d else -((-n) / d)
  }

  function MulShares(price: int, shares: int): int { ToI64(Truncate(price * shares, MICRO), I64_MAX) }

  function AffordableShares(price: int, budget: int): int {
    if price <= 0 then 0 else ToI64(Truncate(budget * MICRO, price), I64_MAX)
  }

  function Vwap(cost: int, shares: int): int {
    if shares <= 0 then 0 else ToI64(Truncate(cost * MICRO + shares / 2, shares), I64_MAX)
  }

  function PercentOf(cost: int, total: int): int {
    if total <= 0 then 0 else ToI64(Truncate(cost * 100, total), 0)
  }

  // ── The two walks ──────────────────────────────────────────────────────────

  /** The running totals of a walk, not yet reduced to machine integers; `remaining` is a budget or a share
      count. */
  datatype Walk = Walk(remaining: int, shares: int, cost: int, levels: nat)

  function Start(amount: int): Walk { Walk(amount, 0, 0, 0) }

  datatype WalkResult = WalkResult(
    shares: int,
    vwap: int,
    totalCost: int,
    levelsConsumed: nat,
    fullyFilled: bool,
    depthUsedPct: int)

  function FillByCost(l: Level, budget: int): int { Min(AffordableShares(l.price, budget), l.size) }

  function TakeByCost(l: Level, w: Walk): Walk {
    var fill := FillByCost(l, w.remaining);
    var cost := MulShares(l.price, fill);
    Walk(w.remaining - cost, w.shares + fill, w.cost + cost, w.levels + 1)
  }

  function WalkByCost(asks: seq<Level>, w: Walk, floor: int): Walk {
    if asks == [] then w
    else if !Live(asks[0]) then WalkByCost(asks[1..], w, floor)
    else if asks[0].price < floor || w.remaining <= 0 then w
    else WalkByCost(asks[1..], TakeByCost(asks[0], w), floor)
  }

  function TakeByShares(l: Level, w: Walk): Walk {
    var fill := Min(w.remaining, l.size);
    Walk(w.remaining - fill, w.shares + fill, w.cost + MulShares(l.price, fill), w.levels + 1)
  }

  function WalkByShares(asks: seq<Level>, w: Walk, floor: int): Walk {
    if asks == [] || w.remaining == 0 then w
    else if !Live(asks[0]) then WalkByShares(asks[1..], w, floor)
    else if asks[0].price < floor then w
    else WalkByShares(asks[1..], TakeByShares(asks[0], w), floor)
  }

  /** The totals as 64-bit additions leave them. */
  function Stored(w: Walk): Walk { w.(shares := WrapI64(w.shares), cost := WrapI64(w.cost)) }

  function Report(w: Walk, fullyFilled: bool, depth: int): Option<WalkResult> {
    if w.shares == 0 then None
    else Some(WalkResult(w.shares, Vwap(w.cost, w.shares), w.cost, w.levels, fullyFilled, PercentOf(w.cost, depth)))
  }

  function ByCost(asks: seq<Level>, budget: i64, floor: i64, depth: i64): Option<WalkResult> {
    var w := WalkByCost(asks, Start(budget), floor);
    Report(Stored(w), w.remaining > 0, depth)
  }

  function ByShares(asks: seq<Level>, target: i64, floor: i64, depth: i64): Option<WalkResult> {
    var w := WalkByShares(asks, Start(target), floor);
    Report(Stored(w), w.remaining == 0, depth)
  }

  method WalkAsksByCost(asks: seq<Level>, budget: i64, floor: i64, depth: i64) returns (r: Option<WalkResult>)
    ensures r == ByCost(asks, budget, floor, depth)
  {
    var remaining: int, shares: i64, cost: i64, levels: nat := budget, 0, 0, 0;
    ghost var w := Start(budget);
    var i := 0;
    while i < |asks|
      invariant 0 <= i <= |asks|
      invariant Stored(w) == Walk(remaining, shares, cost, levels)
      invariant WalkByCost(asks, Start(budget), floor) == WalkByCost(asks[i..], w, floor)
    {
      var level := asks[i];
      assert asks[i..][1..] == asks[i + 1..];
      i := i + 1;
      if level.price <= 0 || level.size <= 0 {
        continue;
      }
      if level.price < floor {
        break;
      }
      if remaining <= 0 {
        break;
      }
      var fill := Min(AffordableShares(level.price, remaining), level.size);
      var spent := MulShares(level.price, fill);
      WrapI64Add(w.shares, fill);
      WrapI64Add(w.cost, spent);
      w := TakeByCost(level, w);
      shares := WrapI64(shares + fill);
      cost := WrapI64(cost + spent);
      remaining := remaining - spent;
      levels := levels + 1;
    }
    r := Report(Walk(remaining, shares, cost, levels), remaining > 0, depth);
  }

  method WalkAsksByShares(asks: seq<Level>, target: i64, floor: i64, depth: i64) returns (r: Option<WalkResult>)
    ensures r == ByShares(asks, target, floor, depth)
  {
    var remaining: int, shares: i64, cost: i64, levels: nat := target, 0, 0, 0;
    ghost var w := Start(target);
    var i := 0;
    while i < |asks|
      invariant 0 <= i <= |asks|
      invariant Stored(w) == Walk(remaining, shares, cost, levels)
      invariant WalkByShares(asks, Start(target), floor) == WalkByShares(asks[i..], w, floor)
    {
      if remaining == 0 {
        break;
      }
      var level := asks[i];
      assert asks[i..][1..] == asks[i + 1..];
      i := i + 1;
      if level.price <= 0 || level.size <= 0 {
        continue;
      }
      if level.price < floor {
        break;
      }
      var fill := Min(remaining, level.size);
      WrapI64Add(w.shares, fill);
      WrapI64Add(w.cost, MulShares(level.price, fill));
      w := TakeByShares(level, w);
      shares := WrapI64(shares + fill);
      cost := WrapI64(cost + MulShares(level.price, fill));
      remaining := remaining - fill;
      levels := levels + 1;
    }
    r := Report(Walk(remaining, shares, cost, levels), remaining == 0, depth);
  }

  // ── Arithmetic facts ───────────────────────────────────────────────────────

  lemma QuotientBounds(n: int, d: int)
    requires n >= 0 && d > 0
    ensures 0 <= Truncate(n, d) && Truncate(n, d) * d <= n < (Truncate(n, d) + 1) * d
  {
  }

  lemma QuotientAtMost(n: int, d: int, q: int)
    requires n >= 0 && d > 0 && n < (q + 1) * d
    ensures Truncate(n, d) <= q
  {
    QuotientBounds(n, d);
    if Truncate(n, d) >= q + 1 {
      Scale(q + 1, Truncate(n, d), d);
      assert false;
    }
  }

  lemma QuotientAtLeast(n: int, d: int, q: int)
    requires n >= 0 && d > 0 && q * d <= n
    ensures q <= Truncate(n, d)
  {
    QuotientBounds(n, d);
    if q > Truncate(n, d) {
      Scale(Truncate(n, d) + 1, q, d);
      assert false;
    }
  }

  lemma Scale(x: int, y: int, d: int)
    requires x <= y && d >= 0
    ensures x * d <= y * d && d * x <= d * y
  {
  }

  /** A fill never costs more than its exact price, nor a whole micro-dollar less unless the result is capped. */
  lemma CostBounds(price: int, shares: int)
    requires price > 0 && shares >= 0
    ensures 0 <= MulShares(price, shares) && MulShares(price, shares) * MICRO <= price * shares
    ensures MulShares(price, shares) < I64_MAX ==> price * shares < (MulShares(price, shares) + 1) * MICRO
  {
    Scale(0, shares, price);
    QuotientBounds(price * shares, MICRO);
  }

  // ── Walking by cost ────────────────────────────────────────────────────────

  /** What one level takes out of a positive budget: within the level, within the budget. */
  lemma FillByCostBounds(l: Level, budget: int)
    requires Live(l) && budget > 0
    ensures 0 <= FillByCost(l, budget) <= l.size
    ensures l.price * FillByCost(l, budget) <= budget * MICRO
    ensures 0 <= MulShares(l.price, FillByCost(l, budget)) <= budget
  {
    var fill := FillByCost(l, budget);
    QuotientBounds(budget * MICRO, l.price);
    var exact := Truncate(budget * MICRO, l.price);
    assert fill <= exact;
    Scale(fill, exact, l.price);
    CostBounds(l.price, fill);
  }

  /** What was spent plus what remains is the budget, and the budget is never overdrawn. */
  lemma {:induction false} BudgetConserved(asks: seq<Level>, w: Walk, floor: int)
    requires w.remaining >= 0
    ensures var v := WalkByCost(asks, w, floor);
            v.cost + v.remaining == w.cost + w.remaining && 0 <= v.remaining && w.cost <= v.cost && w.shares <= v.shares
  {
    if asks != [] {
      if !Live(asks[0]) {
        BudgetConserved(asks[1..], w, floor);
      } else if !(asks[0].price < floor || w.remaining <= 0) {
        FillByCostBounds(asks[0], w.remaining);
        BudgetConserved(asks[1..], TakeByCost(asks[0], w), floor);
      }
    }
  }

  /** An order over the same levels: a share count for each, within its size. */
  predicate Allocation(asks: seq<Level>, g: seq<int>) {
    |g| == |asks| && forall i :: 0 <= i < |asks| ==> 0 <= g[i] <= (if Live(asks[i]) then asks[i].size else 0)
  }

  function Total(g: seq<int>): int { if g == [] then 0 else g[0] + Total(g[1..]) }

  /** The exact cost of an allocation, in millionths of a micro-dollar. */
  function ExactCost(asks: seq<Level>, g: seq<int>): int
    requires |g| == |asks|
  {
    if asks == [] then 0 else asks[0].price * g[0] + ExactCost(asks[1..], g[1..])
  }

  /** The cost as the walks add it up, each level rounded down to a micro-dollar. */
  function FlooredCost(asks: seq<Level>, g: seq<int>): int
    requires |g| == |asks|
  {
    if asks == [] then 0 else MulShares(asks[0].price, g[0]) + FlooredCost(asks[1..], g[1..])
  }

  function Nothing(n: nat): (g: seq<int>)
    ensures |g| == n
  {
    if n == 0 then [] else [0] + Nothing(n - 1)
  }

  lemma {:induction false} NothingTaken(asks: seq<Level>)
    ensures Allocation(asks, Nothing(|asks|)) && Total(Nothing(|asks|)) == 0
    ensures FlooredCost(asks, Nothing(|asks|)) == 0 && ExactCost(asks, Nothing(|asks|)) == 0
  {
    if asks != [] {
      NothingTaken(asks[1..]);
      assert Nothing(|asks|)[1..] == Nothing(|asks[1..]|);
    }
  }

  /** The shares the cost walk takes from each level. */
  function FillsByCost(asks: seq<Level>, remaining: int, floor: int): (g: seq<int>)
    ensures |g| == |asks|
  {
    if asks == [] then []
    else if !Live(asks[0]) then [0] + FillsByCost(asks[1..], remaining, floor)
    else if asks[0].price < floor || remaining <= 0 then Nothing(|asks|)
    else
      var fill := FillByCost(asks[0], remaining);
      [fill] + FillsByCost(asks[1..], remaining - MulShares(asks[0].price, fill), floor)
  }

  /** The shares the share walk takes from each level. */
  function FillsByShares(asks: seq<Level>, remaining: int, floor: int): (g: seq<int>)
    ensures |g| == |asks|
  {
    if asks == [] || remaining == 0 then Nothing(|asks|)
    else if !Live(asks[0]) then [0] + FillsByShares(asks[1..], remaining, floor)
    else if asks[0].price < floor then Nothing(|asks|)
    else
      var fill := Min(remaining, asks[0].size);
      [fill] + FillsByShares(asks[1..], remaining - fill, floor)
  }

  /** One more level in front of an allocation. */
  lemma TakeFirst(asks: seq<Level>, x: int, g: seq<int>)
    requires asks != [] && Allocation(asks[1..], g) && 0 <= x <= if Live(asks[0]) then asks[0].size else 0
    ensures Allocation(asks, [x] + g) && Total([x] + g) == x + Total(g)
    ensures FlooredCost(asks, [x] + g) == MulShares(asks[0].price, x) + FlooredCost(asks[1..], g)
  {
    assert ([x] + g)[1..] == g;
  }

  lemma NoShares(price: int)
    ensures MulShares(price, 0) == 0
  {
  }

  /** The totals of the cost walk are those of its fills. */
  lemma {:induction false} CostWalkTakes(asks: seq<Level>, w: Walk, floor: int)
    ensures var v, g := WalkByCost(asks, w, floor), FillsByCost(asks, w.remaining, floor);
            Allocation(asks, g) && v.shares == w.shares + Total(g) && v.cost == w.cost + FlooredCost(asks, g)
  {
    if asks != [] {
      if !Live(asks[0]) {
        CostWalkTakes(asks[1..], w, floor);
        TakeFirst(asks, 0, FillsByCost(asks[1..], w.remaining, floor));
        NoShares(asks[0].price);
      } else if asks[0].price < floor || w.remaining <= 0 {
        NothingTaken(asks);
      } else {
        var fill, v := FillByCost(asks[0], w.remaining), TakeByCost(asks[0], w);
        FillByCostBounds(asks[0], w.remaining);
        CostWalkTakes(asks[1..], v, floor);
        TakeFirst(asks, fill, FillsByCost(asks[1..], v.remaining, floor));
      }
    }
  }

  /** The totals of the share walk are those of its fills. */
  lemma {:induction false} ShareWalkTakes(asks: seq<Level>, w: Walk, floor: int)
    requires w.remaining >= 0
    ensures var v, g := WalkByShares(asks, w, floor), FillsByShares(asks, w.remaining, floor);
            Allocation(asks, g) && v.shares == w.shares + Total(g) && v.cost == w.cost + FlooredCost(asks, g)
  {
    if asks == [] || w.remaining == 0 || (Live(asks[0]) && asks[0].price < floor) {
      NothingTaken(asks);
    } else if !Live(asks[0]) {
      ShareWalkTakes(asks[1..], w, floor);
      TakeFirst(asks, 0, FillsByShares(asks[1..], w.remaining, floor));
      NoShares(asks[0].price);
    } else {
      var fill, v := Min(w.remaining, asks[0].size), TakeByShares(asks[0], w);
      ShareWalkTakes(asks[1..], v, floor);
      TakeFirst(asks, fill, FillsByShares(asks[1..], v.remaining, floor));
    }
  }

  predicate AtLeast(asks: seq<Level>, p: int) { forall i :: 0 <= i < |asks| && Live(asks[i]) ==> p <= asks[i].price }

  predicate Ascending(asks: seq<Level>) { forall i, j :: 0 <= i < j < |asks| ==> asks[i].price <= asks[j].price }

  lemma {:induction false} CostAtLeast(asks: seq<Level>, g: seq<int>, p: int)
    requires Allocation(asks, g) && AtLeast(asks, p) && p >= 0
    ensures Total(g) >= 0 && p * Total(g) <= ExactCost(asks, g)
  {
    if asks != [] {
      CostAtLeast(asks[1..], g[1..], p);
      Spread(p, g[0], Total(g[1..]));
      if Live(asks[0]) { Scale(p, asks[0].price, g[0]); } else { assert g[0] == 0; }
    }
  }

  lemma Spread(p: int, x: int, y: int)
    ensures p * (x + y) == p * x + p * y
  {
  }

  lemma Tail(asks: seq<Level>, g: seq<int>)
    requires asks != [] && Allocation(asks, g) && Ascending(asks)
    ensures Allocation(asks[1..], g[1..]) && Ascending(asks[1..])
    ensures AtLeast(asks[1..], asks[0].price)
    ensures !Live(asks[0]) ==> g[0] == 0
  {
  }

  predicate NotBlocked(asks: seq<Level>, floor: int) { AtLeast(asks, floor) }

  /** Any allocation the budget could pay for at exact prices, plus `slack` more shares at a price no
      higher than every level, holds at most `slack` shares more than the walk buys. */
  lemma {:induction false} WalkBuysMost(asks: seq<Level>, w: Walk, floor: int, g: seq<int>, p: int, slack: int)
    requires Ascending(asks) && NotBlocked(asks, floor) && Allocation(asks, g)
    requires AtLeast(asks, p) && p > 0 && slack >= 0 && w.remaining >= 0
    requires ExactCost(asks, g) <= w.remaining * MICRO + p * slack
    ensures Total(g) <= WalkByCost(asks, w, floor).shares - w.shares + slack
  {
    if asks != [] {
      Tail(asks, g);
      if !Live(asks[0]) {
        assert asks[0].price * g[0] == 0;
        WalkBuysMost(asks[1..], w, floor, g[1..], p, slack);
      } else if w.remaining <= 0 {
        CostAtLeast(asks, g, p);
        Cancel(p, Total(g), slack);
      } else {
        LevelBuysMost(asks, w, floor, g, p, slack);
        var v := TakeByCost(asks[0], w);
        FillByCostBounds(asks[0], w.remaining);
        if FillByCost(asks[0], w.remaining) == asks[0].size {
          WalkBuysMost(asks[1..], v, floor, g[1..], asks[0].price, slack + asks[0].size - g[0]);
        } else {
          BudgetConserved(asks[1..], v, floor);
        }
      }
    }
  }

  lemma Cancel(p: int, x: int, y: int)
    requires p > 0 && p * x <= p * y
    ensures x <= y
  {
    if x > y { Scale(y + 1, x, p); assert false; }
  }

  /** One level: either it is bought out and the rest of the allocation fits what remains, or the walk
      already holds as many shares as the whole allocation less the slack. */
  lemma LevelBuysMost(asks: seq<Level>, w: Walk, floor: int, g: seq<int>, p: int, slack: int)
    requires asks != [] && Live(asks[0]) && Ascending(asks) && Allocation(asks, g)
    requires AtLeast(asks, p) && p > 0 && slack >= 0 && w.remaining > 0
    requires ExactCost(asks, g) <= w.remaining * MICRO + p * slack
    ensures var fill := FillByCost(asks[0], w.remaining);
            var v := TakeByCost(asks[0], w);
            if fill == asks[0].size then ExactCost(asks[1..], g[1..]) <= v.remaining * MICRO + asks[0].price * (slack + fill - g[0])
            else Total(g) <= fill + slack
  {
    Tail(asks, g);
    var q, fill := asks[0].price, FillByCost(asks[0], w.remaining);
    Scale(p, q, slack);
    FillByCostBounds(asks[0], w.remaining);
    if fill == asks[0].size {
      CostBounds(q, fill);
      BoughtOut(q, fill, MulShares(q, fill), g[0], slack, w.remaining, ExactCost(asks[1..], g[1..]));
    } else {
      CostAtLeast(asks, g, q);
      BudgetBuys(q, w.remaining, Total(g), slack);
    }
  }

  lemma BoughtOut(q: int, fill: int, cost: int, taken: int, slack: int, budget: int, rest: int)
    requires q * taken + rest <= budget * MICRO + q * slack && cost * MICRO <= q * fill
    ensures rest <= (budget - cost) * MICRO + q * (slack + fill - taken)
  {
    Spread(q, slack, fill - taken);
    Spread(q, fill, -taken);
  }

  lemma BudgetBuys(q: int, budget: int, total: int, slack: int)
    requires q > 0 && budget > 0 && q * total <= budget * MICRO + q * slack
    ensures total - slack <= Truncate(budget * MICRO, q)
  {
    Spread(q, total, -slack);
    QuotientAtLeast(budget * MICRO, q, total - slack);
  }

  /** The walk by cost buys at least as many shares as any order over the same levels whose exact cost is
      within the budget, and pays no more than the budget. */
  lemma MostSharesForBudget(asks: seq<Level>, budget: i64, floor: int, g: seq<int>)
    requires Ascending(asks) && NotBlocked(asks, floor) && budget >= 0
    requires Allocation(asks, g) && ExactCost(asks, g) <= budget * MICRO
    ensures var w := WalkByCost(asks, Start(budget), floor);
            Total(g) <= w.shares && 0 <= w.cost <= budget && w.cost + w.remaining == budget
  {
    WalkBuysMost(asks, Start(budget), floor, g, 1, 0);
    BudgetConserved(asks, Start(budget), floor);
  }

  /** A budget of nothing buys nothing. */
  lemma {:induction false} NothingForNothing(asks: seq<Level>, budget: i64, floor: i64, depth: i64)
    requires budget <= 0
    ensures ByCost(asks, budget, floor, depth) == None
  {
    if asks != [] && !Live(asks[0]) { NothingForNothing(asks[1..], budget, floor, depth); }
  }

  // ── Walking by shares ──────────────────────────────────────────────────────

  /** Shares on offer at live levels. */
  function Depth(asks: seq<Level>): int {
    if asks == [] then 0 else (if Live(asks[0]) then asks[0].size else 0) + Depth(asks[1..])
  }

  /** As many shares as possible from each level in turn. */
  function Greedy(asks: seq<Level>, n: int): (g: seq<int>)
    ensures |g| == |asks|
  {
    if asks == [] then []
    else if !Live(asks[0]) then [0] + Greedy(asks[1..], n)
    else [Min(n, asks[0].size)] + Greedy(asks[1..], n - Min(n, asks[0].size))
  }

  lemma {:induction false} GreedyFills(asks: seq<Level>, n: int)
    requires n >= 0
    ensures Allocation(asks, Greedy(asks, n)) && Total(Greedy(asks, n)) == Min(n, Depth(asks)) && Depth(asks) >= 0
  {
    if asks != [] { GreedyFills(asks[1..], if Live(asks[0]) then n - Min(n, asks[0].size) else n); }
  }

  /** With no level below the floor, the share walk takes the greedy fills. */
  lemma {:induction false} FillsAreGreedy(asks: seq<Level>, n: int, floor: int)
    requires n >= 0 && NotBlocked(asks, floor)
    ensures FillsByShares(asks, n, floor) == Greedy(asks, n)
  {
    if n == 0 {
      GreedyOfNone(asks);
    } else if asks != [] {
      FillsAreGreedy(asks[1..], if Live(asks[0]) then n - Min(n, asks[0].size) else n, floor);
    }
  }

  /** The walk fills the target up to the depth on offer; it is fully filled exactly when the depth
      suffices. */
  lemma {:induction false} WalkFills(asks: seq<Level>, w: Walk, floor: int)
    requires w.remaining >= 0 && NotBlocked(asks, floor)
    ensures var v := WalkByShares(asks, w, floor);
            && v.shares - w.shares == w.remaining - v.remaining == Min(w.remaining, Depth(asks))
            && (v.remaining == 0 <==> w.remaining <= Depth(asks))
  {
    GreedyFills(asks, w.remaining);
    if asks != [] && w.remaining != 0 {
      WalkFills(asks[1..], if Live(asks[0]) then TakeByShares(asks[0], w) else w, floor);
    }
  }

  /** Of all ways to take at least `n` shares, greedy is cheapest; each share beyond costs at least `p`. */
  lemma {:induction false} GreedyIsCheapest(asks: seq<Level>, n: int, g: seq<int>, extra: int, p: int)
    requires Ascending(asks) && Allocation(asks, g) && AtLeast(asks, p) && p >= 0
    requires n >= 0 && extra >= 0 && Total(g) == n + extra
    ensures ExactCost(asks, Greedy(asks, n)) + p * extra <= ExactCost(asks, g)
  {
    if asks != [] {
      Tail(asks, g);
      if !Live(asks[0]) {
        GreedyIsCheapest(asks[1..], n, g[1..], extra, p);
      } else {
        Scale(p, asks[0].price, extra);
        if n <= asks[0].size {
          GreedyWithinLevel(asks, n, g, extra);
        } else {
          GreedyIsCheapest(asks[1..], n - asks[0].size, g[1..], extra + asks[0].size - g[0], asks[0].price);
          LevelSpent(asks[0].price, asks[0].size, g[0], extra);
        }
      }
    }
  }

  lemma GreedyWithinLevel(asks: seq<Level>, n: int, g: seq<int>, extra: int)
    requires asks != [] && Live(asks[0]) && Ascending(asks) && Allocation(asks, g)
    requires 0 <= n <= asks[0].size && Total(g) == n + extra
    ensures ExactCost(asks, Greedy(asks, n)) + asks[0].price * extra <= ExactCost(asks, g)
  {
    var q := asks[0].price;
    GreedyOfNone(asks[1..]);
    NothingTaken(asks[1..]);
    CostAtLeast(asks, g, q);
    Spread(q, n, extra);
  }

  lemma LevelSpent(q: int, size: int, taken: int, extra: int)
    ensures q * size + q * extra == q * taken + q * (extra + size - taken)
  {
    Spread(q, extra + size, -taken);
    Spread(q, extra, size);
  }

  lemma {:induction false} GreedyOfNone(asks: seq<Level>)
    ensures Greedy(asks, 0) == Nothing(|asks|)
  {
    if asks != [] { GreedyOfNone(asks[1..]); }
  }

  lemma {:induction false} GreedyCapped(asks: seq<Level>, n: int)
    requires n >= 0
    ensures Greedy(asks, n) == Greedy(asks, Min(n, Depth(asks)))
  {
    GreedyFills(asks, n);
    if asks != [] {
      GreedyFills(asks[1..], n);
      GreedyCapped(asks[1..], if Live(asks[0]) then n - Min(n, asks[0].size) else n);
    }
  }

  /** The share walk's fills have the least exact cost of all orders over the same levels for the same
      number of shares, and the walk charges them level by level, each rounded down. */
  lemma CheapestForShares(asks: seq<Level>, target: int, floor: int, g: seq<int>)
    requires Ascending(asks) && NotBlocked(asks, floor) && target >= 0 && Allocation(asks, g)
    requires Total(g) == WalkByShares(asks, Start(target), floor).shares
    ensures var w, fills := WalkByShares(asks, Start(target), floor), FillsByShares(asks, target, floor);
      && Allocation(asks, fills) && Total(fills) == w.shares && FlooredCost(asks, fills) == w.cost
      && ExactCost(asks, fills) <= ExactCost(asks, g)
  {
    ShareWalkTakes(asks, Start(target), floor);
    FillsAreGreedy(asks, target, floor);
    GreedyCapped(asks, target);
    GreedyFills(asks, target);
    GreedyIsCheapest(asks, Min(target, Depth(asks)), g, 0, 0);
  }

  // ── Machine totals ─────────────────────────────────────────────────────────

  lemma {:induction false} WithinDepth(asks: seq<Level>, g: seq<int>)
    requires Allocation(asks, g)
    ensures 0 <= Total(g) <= Depth(asks) && 0 <= FlooredCost(asks, g)
  {
    if asks != [] {
      WithinDepth(asks[1..], g[1..]);
      if Live(asks[0]) { CostBounds(asks[0].price, g[0]); } else { assert g[0] == 0; }
    }
  }

  /** The cost walk's 64-bit totals are the true ones exactly when the shares bought fit 64 bits, and the
      cost always does. */
  lemma CostTotalsExactIff(asks: seq<Level>, budget: i64, floor: int)
    requires budget >= 0
    ensures var w := WalkByCost(asks, Start(budget), floor);
            (Stored(w) == w <==> w.shares <= I64_MAX) && (Depth(asks) <= I64_MAX ==> Stored(w) == w)
  {
    var w := WalkByCost(asks, Start(budget), floor);
    BudgetConserved(asks, Start(budget), floor);
    CostWalkTakes(asks, Start(budget), floor);
    WithinDepth(asks, FillsByCost(asks, budget, floor));
    WrapI64Exact(w.shares);
    WrapI64Exact(w.cost);
  }

  /** Bottomless levels at the lowest price: the share total wraps to a single share, and the reported
      average is far above every price. */
  lemma ShareTotalCanWrap()
    ensures var asks := [Level(1, I64_MAX), Level(1, I64_MAX), Level(1, 3)];
            var r := ByCost(asks, 20_000_000_000_000, 0, 0);
            r.Some? && r.value.shares == 1 && r.value.vwap == I64_MAX
  {
    var asks := [Level(1, I64_MAX), Level(1, I64_MAX), Level(1, 3)];
    var w0 := Start(20_000_000_000_000);
    var w1 := TakeByCost(asks[0], w0);
    var w2 := TakeByCost(asks[1], w1);
    var w3 := TakeByCost(asks[2], w2);
    assert w1.remaining == 20_000_000_000_000 - I64_MAX / MICRO && w1.shares == I64_MAX;
    assert w2.remaining == w1.remaining - I64_MAX / MICRO && w2.shares == 2 * I64_MAX;
    assert w3.shares == 2 * I64_MAX + 3 && w3.cost == 18_446_744_073_708;
    assert asks[1..] == [asks[1], asks[2]] && asks[1..][1..] == [asks[2]] && [asks[2]][1..] == [];
    assert WalkByCost([], w3, 0) == w3;
    assert WalkByCost([asks[2]], w2, 0) == w3;
    assert WalkByCost([asks[1], asks[2]], w1, 0) == w3;
  }

  /** Prices are at most one dollar. */
  predicate Priced(asks: seq<Level>) { forall i :: 0 <= i < |asks| ==> asks[i].price <= MICRO }

  lemma {:induction false} CostWithinShares(asks: seq<Level>, g: seq<int>)
    requires Allocation(asks, g) && Priced(asks)
    ensures FlooredCost(asks, g) <= Total(g)
  {
    if asks != [] {
      CostWithinShares(asks[1..], g[1..]);
      if Live(asks[0]) {
        CostBounds(asks[0].price, g[0]);
        Scale(asks[0].price, MICRO, g[0]);
      } else {
        assert g[0] == 0;
      }
    }
  }

  /** The share walk's share total never leaves 64 bits; its totals are the true ones exactly when the cost
      fits, as it does on every book with prices of at most one. */
  lemma ShareTotalsExact(asks: seq<Level>, target: i64, floor: int)
    requires target >= 0
    ensures var w := WalkByShares(asks, Start(target), floor);
            Stored(w).shares == w.shares && (Stored(w) == w <==> w.cost <= I64_MAX) && (Priced(asks) ==> Stored(w) == w)
  {
    var w := WalkByShares(asks, Start(target), floor);
    ShareWalkTakes(asks, Start(target), floor);
    WithinDepth(asks, FillsByShares(asks, target, floor));
    SharesWithinTarget(asks, Start(target), floor);
    WrapI64Exact(w.shares);
    WrapI64Exact(w.cost);
    if Priced(asks) { CostWithinShares(asks, FillsByShares(asks, target, floor)); }
  }

  lemma {:induction false} SharesWithinTarget(asks: seq<Level>, w: Walk, floor: int)
    requires w.remaining >= 0
    ensures var v := WalkByShares(asks, w, floor); v.shares + v.remaining == w.shares + w.remaining && v.remaining >= 0
  {
    if asks != [] && w.remaining != 0 {
      if !Live(asks[0]) {
        SharesWithinTarget(asks[1..], w, floor);
      } else if asks[0].price >= floor {
        SharesWithinTarget(asks[1..], TakeByShares(asks[0], w), floor);
      }
    }
  }

  // ── Average price ──────────────────────────────────────────────────────────

  /** `top` is at least the price of every level something was taken from. */
  predicate CoversConsumed(asks: seq<Level>, g: seq<int>, top: int)
    requires |g| == |asks|
  {
    forall i :: 0 <= i < |asks| && g[i] > 0 ==> asks[i].price <= top
  }

  lemma {:induction false} CostBelowTop(asks: seq<Level>, g: seq<int>, top: int)
    requires Allocation(asks, g) && CoversConsumed(asks, g, top)
    ensures FlooredCost(asks, g) * MICRO <= top * Total(g)
  {
    if asks != [] {
      CostBelowTop(asks[1..], g[1..], top);
      Spread(top, g[0], Total(g[1..]));
      if g[0] > 0 {
        CostBounds(asks[0].price, g[0]);
        Scale(asks[0].price, top, g[0]);
      }
    }
  }

  lemma VwapBelowTop(cost: int, shares: int, top: int)
    requires cost >= 0 && shares > 0 && 0 <= top <= I64_MAX && cost * MICRO <= top * shares
    ensures 0 <= Vwap(cost, shares) <= top
  {
    var n := cost * MICRO + shares / 2;
    assert n < top * shares + shares == (top + 1) * shares;
    QuotientAtMost(n, shares, top);
    QuotientBounds(n, shares);
  }

  lemma AverageOfFills(asks: seq<Level>, g: seq<int>, top: i64)
    requires Allocation(asks, g) && CoversConsumed(asks, g, top) && Total(g) > 0
    ensures 0 <= Vwap(FlooredCost(asks, g), Total(g)) <= top
  {
    WithinDepth(asks, g);
    CostBelowTop(asks, g, top);
    if top < 0 {
      Scale(top, -1, Total(g));
    }
    VwapBelowTop(FlooredCost(asks, g), Total(g), top);
  }

  /** Rounded to the nearest micro, the average price of the cost walk is never above the dearest level it
      took shares from, as long as its share total fits 64 bits. */
  lemma CostAverageNeverAboveConsumed(asks: seq<Level>, budget: i64, floor: i64, depth: i64, top: i64)
    requires budget >= 0 && CoversConsumed(asks, FillsByCost(asks, budget, floor), top)
    requires WalkByCost(asks, Start(budget), floor).shares <= I64_MAX
    ensures var r := ByCost(asks, budget, floor, depth); r.Some? ==> 0 <= r.value.vwap <= top
  {
    CostTotalsExactIff(asks, budget, floor);
    CostWalkTakes(asks, Start(budget), floor);
    WithinDepth(asks, FillsByCost(asks, budget, floor));
    if WalkByCost(asks, Start(budget), floor).shares > 0 {
      AverageOfFills(asks, FillsByCost(asks, budget, floor), top);
    }
  }

  /** In particular on every book whose whole depth fits 64 bits. */
  lemma CostAverageOnFittingBook(asks: seq<Level>, budget: i64, floor: i64, depth: i64, top: i64)
    requires budget >= 0 && CoversConsumed(asks, FillsByCost(asks, budget, floor), top) && Depth(asks) <= I64_MAX
    ensures var r := ByCost(asks, budget, floor, depth); r.Some? ==> 0 <= r.value.vwap <= top
  {
    CostTotalsExactIff(asks, budget, floor);
    CostAverageNeverAboveConsumed(asks, budget, floor, depth, top);
  }

  /** The same for the share walk, as long as its cost fits 64 bits. */
  lemma ShareAverageNeverAboveConsumed(asks: seq<Level>, target: i64, floor: i64, depth: i64, top: i64)
    requires target >= 0 && CoversConsumed(asks, FillsByShares(asks, target, floor), top)
    requires WalkByShares(asks, Start(target), floor).cost <= I64_MAX
    ensures var r := ByShares(asks, target, floor, depth); r.Some? ==> 0 <= r.value.vwap <= top
  {
    ShareTotalsExact(asks, target, floor);
    ShareWalkTakes(asks, Start(target), floor);
    WithinDepth(asks, FillsByShares(asks, target, floor));
    if WalkByShares(asks, Start(target), floor).shares > 0 {
      AverageOfFills(asks, FillsByShares(asks, target, floor), top);
    }
  }

  // ── The price floor ────────────────────────────────────────────────────────

  /** On ascending levels the floor is all or nothing: if any live level is below it the walk buys
      nothing, even when later levels are above it. */
  lemma {:induction false} FloorBlocksEverything(asks: seq<Level>, w: Walk, floor: int)
    requires Ascending(asks) && !NotBlocked(asks, floor)
    ensures WalkByCost(asks, w, floor) == w && WalkByShares(asks, w, floor) == w
  {
    if !Live(asks[0]) {
      assert !NotBlocked(asks[1..], floor);
      FloorBlocksEverything(asks[1..], w, floor);
    } else {
      assert asks[0].price < floor;
    }
  }

  /** A positive target is served, in part or in full, exactly when some level is live and none is below
      the floor. */
  lemma ServedIff(asks: seq<Level>, target: i64, floor: i64, depth: i64)
    requires Ascending(asks) && target > 0
    ensures ByShares(asks, target, floor, depth).Some? <==> NotBlocked(asks, floor) && Depth(asks) > 0
    ensures ByShares(asks, target, floor, depth).Some? ==>
              var r := ByShares(asks, target, floor, depth).value;
              r.shares == Min(target, Depth(asks)) && (r.fullyFilled <==> target <= Depth(asks))
  {
    GreedyFills(asks, 0);
    ShareTotalsExact(asks, target, floor);
    if NotBlocked(asks, floor) {
      WalkFills(asks, Start(target), floor);
    } else {
      FloorBlocksEverything(asks, Start(target), floor);
    }
  }
}
