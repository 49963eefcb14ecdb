/** The ledger of worst-case losses on unsettled positions, with its O(1) running total. */
module PotentialLosses {
  import opened MachineInts
  import opened Sums

  /** A trade's 128-bit identifier; its ledger entry carries the same one. */
  type TradeId = nat

  datatype Entry = Entry(
    id: TradeId,
    maxLoss: real,
    active: bool,
    createdAt: int,
    resolvedAt: Option<int>)

  datatype Ledger = Ledger(entries: map<TradeId, Entry>, runningTotal: real)

  const EMPTY: Ledger := Ledger(map[], 0.0)

  function RecordEntry(l: Ledger, e: Entry): Ledger {
    if e.id in l.entries then l
    else Ledger(l.entries[e.id := e], if e.active then l.runningTotal + e.maxLoss else l.runningTotal)
  }

  function Resolve(l: Ledger, id: TradeId, now: int): Ledger {
    if id !in l.entries then l
    else
      var e := l.entries[id];
      Ledger(
        l.entries[id := e.(active := false, resolvedAt := Some(now))],
        if e.active then MaxR(l.runningTotal - e.maxLoss, 0.0) else l.runningTotal)
  }

  /** Loss of every active entry, by identifier. */
  ghost function ActiveLosses(es: map<TradeId, Entry>): map<TradeId, real> {
    map id | id in es && es[id].active :: es[id].maxLoss
  }

  /** The specification of the running total. */
  ghost function ActiveSum(es: map<TradeId, Entry>): real { Sum(ActiveLosses(es)) }

  ghost predicate Consistent(l: Ledger) {
    && l.runningTotal == ActiveSum(l.entries)
    && forall id :: id in l.entries ==> l.entries[id].id == id && l.entries[id].maxLoss >= 0.0
  }

  lemma RecordKeepsTotal(l: Ledger, e: Entry)
    requires Consistent(l) && e.maxLoss >= 0.0
    ensures Consistent(RecordEntry(l, e))
  {
    if e.id !in l.entries && e.active {
      SumInsert(ActiveLosses(l.entries), e.id, e.maxLoss);
      assert ActiveLosses(l.entries[e.id := e]) == ActiveLosses(l.entries)[e.id := e.maxLoss];
    } else if e.id !in l.entries {
      assert ActiveLosses(l.entries[e.id := e]) == ActiveLosses(l.entries);
    }
  }

  /** Resolving keeps the total exact, and the clamp at zero changes nothing. */
  lemma ResolveKeepsTotal(l: Ledger, id: TradeId, now: int)
    requires Consistent(l)
    ensures Consistent(Resolve(l, id, now))
    ensures id in l.entries && l.entries[id].active ==> l.runningTotal - l.entries[id].maxLoss >= 0.0
  {
    if id in l.entries {
      var losses := ActiveLosses(l.entries);
      var l' := Resolve(l, id, now);
      if l.entries[id].active {
        SumExtract(losses, id);
        SumNonNegative(losses);
        assert ActiveLosses(l'.entries) == losses - {id};
      } else {
        assert ActiveLosses(l'.entries) == losses;
      }
    }
  }

  /** Resolving an active entry takes it out of play and exactly its loss off the total; an inactive or unknown
      one changes neither, and no other entry changes. */
  lemma ResolveReleases(l: Ledger, id: TradeId, other: TradeId, now: int)
    requires Consistent(l)
    ensures var r := Resolve(l, id, now);
      && r.entries.Keys == l.entries.Keys
      && (id in l.entries ==> !r.entries[id].active && r.entries[id].maxLoss == l.entries[id].maxLoss)
      && (other in l.entries && other != id ==> r.entries[other] == l.entries[other])
      && r.runningTotal == l.runningTotal - if id in l.entries && l.entries[id].active then l.entries[id].maxLoss else 0.0
  {
    ResolveKeepsTotal(l, id, now);
  }

  // ── Boot ───────────────────────────────────────────────────────────────────

  function ListedActiveTotal(es: seq<Entry>): real {
    if es == [] then 0.0
    else ListedActiveTotal(es[..|es| - 1]) + (if es[|es| - 1].active then es[|es| - 1].maxLoss else 0.0)
  }

  /** Collecting into a map keeps the last entry of each identifier. */
  function ById(es: seq<Entry>): map<TradeId, Entry> {
    if es == [] then map[] else ById(es[..|es| - 1])[es[|es| - 1].id := es[|es| - 1]]
  }

  function FromEntries(es: seq<Entry>): Ledger { Ledger(ById(es), ListedActiveTotal(es)) }

  /** Active loss of list entries that a later entry with the same identifier overwrites. */
  function ShadowedLoss(es: seq<Entry>): real {
    if es == [] then 0.0
    else
      var before, e := es[..|es| - 1], es[|es| - 1];
      ShadowedLoss(before)
      + if e.id in ById(before) && ById(before)[e.id].active then ById(before)[e.id].maxLoss else 0.0
  }

  /** The bootstrapped total overstates the active sum by exactly the overwritten losses, so it agrees
      with the entries if and only if those sum to zero; distinct identifiers are one such case. */
  lemma {:induction false} BootTotal(es: seq<Entry>)
    ensures FromEntries(es).runningTotal == ActiveSum(ById(es)) + ShadowedLoss(es)
    ensures FromEntries(es).runningTotal == ActiveSum(ById(es)) <==> ShadowedLoss(es) == 0.0
  {
    if es != [] {
      var before, e := es[..|es| - 1], es[|es| - 1];
      BootTotal(before);
      var m := ById(before);
      var losses := ActiveLosses(m);
      if e.active {
        SumInsert(losses, e.id, e.maxLoss);
        assert ActiveLosses(m[e.id := e]) == losses[e.id := e.maxLoss];
      } else if e.id in losses {
        SumExtract(losses, e.id);
        assert ActiveLosses(m[e.id := e]) == losses - {e.id};
      } else {
        assert ActiveLosses(m[e.id := e]) == losses;
      }
    }
  }

  predicate DistinctIds(es: seq<Entry>) {
    forall i, j :: 0 <= i < j < |es| ==> es[i].id != es[j].id
  }

  lemma {:induction false} ByIdCollects(es: seq<Entry>)
    ensures forall id :: id in ById(es) ==> ById(es)[id].id == id && ById(es)[id] in es
    ensures forall e :: e in es ==> e.id in ById(es)
  {
    if es != [] {
      ByIdCollects(es[..|es| - 1]);
    }
  }

  /** Distinct identifiers and non-negative losses boot into a consistent ledger. */
  lemma {:induction false} BootConsistent(es: seq<Entry>)
    requires DistinctIds(es) && forall e :: e in es ==> e.maxLoss >= 0.0
    ensures Consistent(FromEntries(es)) && ShadowedLoss(es) == 0.0
  {
    if es != [] {
      var before := es[..|es| - 1];
      BootConsistent(before);
      ByIdCollects(before);
    }
    ByIdCollects(es);
    BootTotal(es);
  }

  // ── The in-place object ────────────────────────────────────────────────────

  class PotentialLossLedger {
    var entries: map<TradeId, Entry>
    var runningTotal: real

    ghost function Value(): Ledger
      reads this
    {
      Ledger(entries, runningTotal)
    }

    constructor (l: Ledger)
      ensures Value() == l
    {
      entries := l.entries;
      runningTotal := l.runningTotal;
    }

    constructor FromList(es: seq<Entry>)
      ensures Value() == FromEntries(es)
    {
      var total := 0.0;
      var collected := map[];
      for i := 0 to |es|
        invariant total == ListedActiveTotal(es[..i]) && collected == ById(es[..i])
      {
        assert es[..i + 1][..i] == es[..i];
        if es[i].active { total := total + es[i].maxLoss; }
        collected := collected[es[i].id := es[i]];
      }
      assert es[..|es|] == es;
      entries := collected;
      runningTotal := total;
    }

    method Capture() returns (l: Ledger)
      ensures l == Value()
    {
      l := Ledger(entries, runningTotal);
    }

    method Restore(l: Ledger)
      modifies this
      ensures Value() == l
    {
      entries := l.entries;
      runningTotal := l.runningTotal;
    }

    method Record(e: Entry)
      modifies this
      ensures Value() == RecordEntry(old(Value()), e)
      ensures old(Consistent(Value())) && e.maxLoss >= 0.0 ==> Consistent(Value())
    {
      if Consistent(Value()) && e.maxLoss >= 0.0 { RecordKeepsTotal(Value(), e); }
      if e.id in entries {
        return;
      }
      if e.active {
        runningTotal := runningTotal + e.maxLoss;
      }
      entries := entries[e.id := e];
    }

    method Settle(id: TradeId, now: int)
      modifies this
      ensures Value() == Resolve(old(Value()), id, now)
      ensures old(Consistent(Value())) ==> Consistent(Value())
    {
      if Consistent(Value()) { ResolveKeepsTotal(Value(), id, now); }
      if id in entries {
        var e := entries[id];
        if e.active {
          runningTotal := MaxR(runningTotal - e.maxLoss, 0.0);
        }
        entries := entries[id := e.(active := false, resolvedAt := Some(now))];
      }
    }
  }
}
