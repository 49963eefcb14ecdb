/** The peak-equity guard that scales position sizes down while equity is below its high-water mark. */
module Drawdowns {
  import opened MachineInts
  import opened RealOrder

  datatype Action = Normal | Reduce | Halt

  /** From one at no loss down by `scale` at the limit. */
  function Line(pct: real, maxPct: real, scale: real): real
    requires maxPct > 0.0
  {
    1.0 - pct / maxPct * scale
  }

  datatype Drawdown = Drawdown(hwm: real, maxPct: real, reduction: real) {
    function Raised(equity: real): Drawdown { if equity > hwm then this.(hwm := equity) else this }

    /** The drawdown in percent of the mark and what it calls for. */
    function Evaluate(equity: real): (real, Action) {
      if hwm <= 0.0 then (0.0, Normal)
      else
        var pct := if hwm - equity > 0.0 then (hwm - equity) * 100.0 / hwm else 0.0;
        (pct, if pct >= maxPct then Halt else if pct > 0.0 then Reduce else Normal)
    }

    function Factor(equity: real): real {
      var (pct, action) := Evaluate(equity);
      match action
      case Normal => 1.0
      case Reduce => Line(pct, maxPct, 1.0 - reduction)
      case Halt => 0.0
    }
  }

  lemma PercentMonotone(g: Drawdown, e: real, e': real)
    requires e <= e'
    ensures g.Evaluate(e).0 >= g.Evaluate(e').0 >= 0.0
  {
    if g.hwm > 0.0 && g.hwm - e' > 0.0 {
      QuotientMonotone((g.hwm - e') * 100.0, (g.hwm - e) * 100.0, g.hwm, g.hwm);
    } else if g.hwm > 0.0 && g.hwm - e > 0.0 {
      QuotientMonotone(0.0, (g.hwm - e) * 100.0, g.hwm, g.hwm);
    }
  }

  lemma ReducedFactor(pct: real, maxPct: real, reduction: real)
    requires 0.0 <= pct < maxPct && 0.0 < reduction <= 1.0
    ensures reduction <= Line(pct, maxPct, 1.0 - reduction) <= 1.0
  {
    QuotientMonotone(pct, maxPct, maxPct, maxPct);
    ProductMonotone(pct / maxPct, 1.0, 1.0 - reduction, 1.0 - reduction);
  }

  lemma FactorRange(g: Drawdown, e: real)
    requires 0.0 < g.reduction <= 1.0
    ensures g.Factor(e) == 0.0 <==> g.Evaluate(e).1 == Halt
    ensures g.Evaluate(e).1 != Halt ==> g.reduction <= g.Factor(e) <= 1.0
  {
    PercentMonotone(g, e, e);
    if g.Evaluate(e).0 < g.maxPct { ReducedFactor(g.Evaluate(e).0, g.maxPct, g.reduction); }
  }

  lemma ReductionMonotone(low: real, high: real, maxPct: real, scale: real)
    requires 0.0 <= low <= high < maxPct && 0.0 <= scale
    ensures Line(high, maxPct, scale) <= Line(low, maxPct, scale)
  {
    QuotientMonotone(low, high, maxPct, maxPct);
    ProductMonotone(low / maxPct, high / maxPct, scale, scale);
  }

  /** Less equity never gives a larger factor; below the halt threshold the factor stays between the
      reduction factor and one, and at the threshold it drops to zero. */
  lemma FactorMonotone(g: Drawdown, e: real, e': real)
    requires 0.0 < g.reduction <= 1.0 && e <= e'
    ensures g.Factor(e) <= g.Factor(e')
    ensures g.Factor(e) == 0.0 <==> g.Evaluate(e).1 == Halt
    ensures g.Evaluate(e).1 != Halt ==> g.reduction <= g.Factor(e) <= 1.0
  {
    PercentMonotone(g, e, e');
    FactorRange(g, e);
    FactorRange(g, e');
    if g.Evaluate(e).0 < g.maxPct {
      ReductionMonotone(g.Evaluate(e').0, g.Evaluate(e).0, g.maxPct, 1.0 - g.reduction);
    }
  }

  /** The factor on the inputs: one at or above the mark, nothing once the loss from the mark reaches the limit in
      percent of it, and in between on the straight line from one down to the reduction factor at the limit. */
  lemma FactorInterpolates(g: Drawdown, e: real)
    ensures g.hwm <= 0.0 ==> g.Factor(e) == 1.0
    ensures g.hwm > 0.0 ==>
      var lost := MaxR(g.hwm - e, 0.0) * 100.0;
      && (lost >= g.maxPct * g.hwm ==> g.Factor(e) == 0.0)
      && (lost == 0.0 < g.maxPct ==> g.Factor(e) == 1.0)
      && (0.0 < lost < g.maxPct * g.hwm ==> g.Factor(e) * (g.maxPct * g.hwm) == g.maxPct * g.hwm - lost * (1.0 - g.reduction))
  {
    if g.hwm > 0.0 {
      var lost := MaxR(g.hwm - e, 0.0) * 100.0;
      PercentIff(lost, g.hwm, g.maxPct);
      if 0.0 < lost < g.maxPct * g.hwm {
        LimitPositive(g.maxPct, g.hwm);
        LineAt(lost / g.hwm, g.maxPct, g.hwm, lost, 1.0 - g.reduction);
      }
    }
  }

  lemma PercentIff(lost: real, hwm: real, maxPct: real)
    requires hwm > 0.0
    ensures lost / hwm >= maxPct <==> lost >= maxPct * hwm
    ensures lost / hwm > 0.0 <==> lost > 0.0
    ensures lost / hwm * hwm == lost
  {
    var pct := lost / hwm;
    assert pct * hwm == lost;
    if pct >= maxPct { assert (pct - maxPct) * hwm >= 0.0; } else { assert (maxPct - pct) * hwm > 0.0; }
    if pct > 0.0 { assert pct * hwm > 0.0; } else { assert -pct * hwm >= 0.0; }
  }

  lemma LimitPositive(maxPct: real, hwm: real)
    requires hwm > 0.0 && maxPct * hwm > 0.0
    ensures maxPct > 0.0
  {
    if maxPct <= 0.0 {
      ProductMonotone(0.0, -maxPct, hwm, hwm);
      assert false;
    }
  }

  lemma LineAt(pct: real, maxPct: real, hwm: real, lost: real, scale: real)
    requires maxPct > 0.0 && pct * hwm == lost
    ensures Line(pct, maxPct, scale) * (maxPct * hwm) == maxPct * hwm - lost * scale
  {
    var part := pct / maxPct;
    assert part * maxPct == pct;
    assert part * (maxPct * hwm) == lost;
    assert part * scale * (maxPct * hwm) == lost * scale;
  }

  class DrawdownGuard {
    var hwm: real
    var maxPct: real
    var reduction: real

    ghost function Value(): Drawdown
      reads this
    {
      Drawdown(hwm, maxPct, reduction)
    }

    constructor (g: Drawdown)
      ensures Value() == g
    {
      hwm, maxPct, reduction := g.hwm, g.maxPct, g.reduction;
    }

    /** The clone the engine keeps while a fill commit is pending. */
    method Capture() returns (g: Drawdown)
      ensures g == Value()
    {
      g := Drawdown(hwm, maxPct, reduction);
    }

    method Restore(g: Drawdown)
      modifies this
      ensures Value() == g
    {
      hwm, maxPct, reduction := g.hwm, g.maxPct, g.reduction;
    }

    /** The mark only rises. */
    method UpdateEquity(equity: real)
      modifies this
      ensures Value() == old(Value()).Raised(equity) && hwm == MaxR(old(hwm), equity)
    {
      if equity > hwm {
        hwm := equity;
      }
    }

    /** New policy parameters; the mark is kept. */
    method SetParams(maxPct: real, reduction: real)
      modifies this
      ensures Value() == old(Value()).(maxPct := maxPct, reduction := reduction)
    {
      this.maxPct, this.reduction := maxPct, reduction;
    }
  }
}
