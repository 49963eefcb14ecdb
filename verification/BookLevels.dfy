/** One side of a reconstructed order book: a price-sorted list of levels edited by level changes, and
    the price-to-size map it stands for. */
module BookLevels {
  import opened MachineInts
  import opened StableSorting

  /** Decimals are integers in units of 10^-28, the finest the decimal type holds. */
  const UNITS_PER_MICRO: int := 10_000_000_000_000_000_000_000
  const ONE: int := 1_000_000 * UNITS_PER_MICRO

  /** A stored level, in micro-units: finer digits of price and size are truncated. */
  datatype Level = Level(price: int, size: int)

  datatype Change = Change(price: int, size: int)

  function Truncate(d: int): int { d / UNITS_PER_MICRO }

  predicate OnGrid(d: int) { d % UNITS_PER_MICRO == 0 }

  function TryLevel(price: int, size: int): Option<Level> {
    if 0 < price <= ONE && 0 <= size && Truncate(size) <= I64_MAX
    then Some(Level(Truncate(price), Truncate(size)))
    else None
  }

  /** Drop the levels whose stored price equals the exact price `p`. */
  function Retain(ls: seq<Level>, p: int): seq<Level> {
    if ls == [] then []
    else
      Retain(ls[..|ls| - 1], p)
      + if ls[|ls| - 1].price * UNITS_PER_MICRO != p then [ls[|ls| - 1]] else []
  }

  function ApplyChange(ls: seq<Level>, c: Change): seq<Level> {
    var kept := Retain(ls, c.price);
    if c.size > 0 && TryLevel(c.price, c.size).Some? then kept + [TryLevel(c.price, c.size).value] else kept
  }

  function ApplyAll(ls: seq<Level>, cs: seq<Change>): seq<Level> {
    if cs == [] then ls else ApplyChange(ApplyAll(ls, cs[..|cs| - 1]), cs[|cs| - 1])
  }

  /** Best price first: bids descend, asks ascend. */
  function Better(bids: bool): (Level, Level) -> bool {
    if bids then (a: Level, b: Level) => a.price >= b.price else (a: Level, b: Level) => a.price <= b.price
  }

  function SortSide(ls: seq<Level>, bids: bool): seq<Level> { Sort(ls, Better(bids)) }

  function ApplyLevelChanges(ls: seq<Level>, cs: seq<Change>, bids: bool): seq<Level> {
    SortSide(ApplyAll(ls, cs), bids)
  }

  // ── Meaning ────────────────────────────────────────────────────────────────

  ghost predicate Distinct(ls: seq<Level>) { forall i, j :: 0 <= i < j < |ls| ==> ls[i].price != ls[j].price }

  /** The list has one level per price of `m`, with its size. */
  ghost predicate Denotes(ls: seq<Level>, m: map<int, int>) {
    Distinct(ls) && forall l :: l in ls <==> l.price in m && m[l.price] == l.size
  }

  ghost predicate BestFirst(ls: seq<Level>, bids: bool) {
    forall i, j :: 0 <= i < j < |ls| ==> if bids then ls[i].price > ls[j].price else ls[i].price < ls[j].price
  }

  /** The change as a map update: a positive size writes, anything else deletes. */
  function MapChange(m: map<int, int>, c: Change): map<int, int> {
    if c.size > 0 && TryLevel(c.price, c.size).Some?
    then m[Truncate(c.price) := TryLevel(c.price, c.size).value.size]
    else m - {Truncate(c.price)}
  }

  function MapAll(m: map<int, int>, cs: seq<Change>): map<int, int> {
    if cs == [] then m else MapChange(MapAll(m, cs[..|cs| - 1]), cs[|cs| - 1])
  }

  /** Changes that survive column validation. */
  predicate InRange(c: Change) { 0 < c.price <= ONE && c.size >= 0 }

  lemma {:induction false} RetainMembers(ls: seq<Level>, p: int)
    ensures forall l :: l in Retain(ls, p) <==> l in ls && l.price * UNITS_PER_MICRO != p
    ensures Distinct(ls) ==> Distinct(Retain(ls, p))
  {
    if ls != [] {
      RetainMembers(ls[..|ls| - 1], p);
      assert ls == ls[..|ls| - 1] + [ls[|ls| - 1]];
    }
  }

  lemma MicroOf(price: int, p: int)
    ensures price * UNITS_PER_MICRO == p <==> OnGrid(p) && price == Truncate(p)
  {
  }

  lemma AppendDistinct(ls: seq<Level>, l: Level)
    requires Distinct(ls)
    ensures Distinct(ls + [l]) <==> forall x :: x in ls ==> x.price != l.price
  {
    if Distinct(ls + [l]) {
      forall x | x in ls ensures x.price != l.price {
        var i :| 0 <= i < |ls| && ls[i] == x;
        assert (ls + [l])[i] == x && (ls + [l])[|ls|] == l;
      }
    }
  }

  /** Removing by exact price is removing by stored price, provided the price is on the micro grid. */
  lemma RetainOnGrid(ls: seq<Level>, p: int)
    ensures OnGrid(p) ==> forall l :: l in Retain(ls, p) <==> l in ls && l.price != Truncate(p)
    ensures !OnGrid(p) ==> forall l :: l in Retain(ls, p) <==> l in ls
  {
    RetainMembers(ls, p);
    forall l: Level ensures l.price * UNITS_PER_MICRO == p <==> OnGrid(p) && l.price == Truncate(p) {
      MicroOf(l.price, p);
    }
  }

  lemma OnGridRefines(ls: seq<Level>, m: map<int, int>, c: Change)
    requires Denotes(ls, m) && InRange(c) && (OnGrid(c.price) || Truncate(c.price) !in m)
    ensures Denotes(ApplyChange(ls, c), MapChange(m, c))
  {
    RetainMembers(ls, c.price);
    RetainOnGrid(ls, c.price);
    var kept, r, m' := Retain(ls, c.price), ApplyChange(ls, c), MapChange(m, c);
    assert forall l :: l in kept <==> l in ls && l.price != Truncate(c.price);
    if c.size > 0 && TryLevel(c.price, c.size).Some? {
      var l := TryLevel(c.price, c.size).value;
      AppendDistinct(kept, l);
      assert forall x :: x in r <==> x in kept || x == l;
    }
  }

  lemma OffGridBreaks(ls: seq<Level>, m: map<int, int>, c: Change)
    requires Denotes(ls, m) && InRange(c) && !OnGrid(c.price) && Truncate(c.price) in m
    ensures !Denotes(ApplyChange(ls, c), MapChange(m, c))
  {
    RetainOnGrid(ls, c.price);
    RetainMembers(ls, c.price);
    var stored := Level(Truncate(c.price), m[Truncate(c.price)]);
    assert stored in ls && stored in Retain(ls, c.price);
    if c.size > 0 && TryLevel(c.price, c.size).Some? {
      AppendDistinct(Retain(ls, c.price), TryLevel(c.price, c.size).value);
    }
  }

  /** Editing the list refines the map update if and only if the price has no digits finer than a
      micro, or the book holds no level at its truncated price. */
  lemma ChangeRefinesIff(ls: seq<Level>, m: map<int, int>, c: Change)
    requires Denotes(ls, m) && InRange(c)
    ensures Denotes(ApplyChange(ls, c), MapChange(m, c)) <==> OnGrid(c.price) || Truncate(c.price) !in m
  {
    if OnGrid(c.price) || Truncate(c.price) !in m {
      OnGridRefines(ls, m, c);
    } else {
      OffGridBreaks(ls, m, c);
    }
  }

  /** Each change is on the grid or finds no level at its truncated price in the map before it. */
  predicate AllRefinable(m: map<int, int>, cs: seq<Change>) {
    cs == [] ||
    (var init, c := cs[..|cs| - 1], cs[|cs| - 1];
     AllRefinable(m, init) && (OnGrid(c.price) || Truncate(c.price) !in MapAll(m, init)))
  }

  lemma {:induction false} ChangesRefine(ls: seq<Level>, m: map<int, int>, cs: seq<Change>)
    requires Denotes(ls, m) && AllRefinable(m, cs) && forall i :: 0 <= i < |cs| ==> InRange(cs[i])
    ensures Denotes(ApplyAll(ls, cs), MapAll(m, cs))
  {
    if cs != [] {
      ChangesRefine(ls, m, cs[..|cs| - 1]);
      ChangeRefinesIff(ApplyAll(ls, cs[..|cs| - 1]), MapAll(m, cs[..|cs| - 1]), cs[|cs| - 1]);
    }
  }

  // ── Sorting a side ─────────────────────────────────────────────────────────

  lemma BetterOrders(bids: bool)
    ensures TotalPreorder(Better(bids))
  {
  }

  ghost predicate Without(ls: seq<Level>, price: int) { forall i :: 0 <= i < |ls| ==> ls[i].price != price }

  lemma {:induction false} InsertDistinct(ls: seq<Level>, l: Level, bids: bool)
    ensures Distinct(Insert(ls, l, Better(bids))) <==> Distinct(ls) && Without(ls, l.price)
    ensures forall p :: Without(Insert(ls, l, Better(bids)), p) <==> Without(ls, p) && p != l.price
  {
    var r := Insert(ls, l, Better(bids));
    SplitDistinct(r);
    if ls == [] || Better(bids)(ls[|ls| - 1], l) {
      assert r[..|r| - 1] == ls;
    } else {
      var init := ls[..|ls| - 1];
      InsertDistinct(init, l, bids);
      SplitDistinct(ls);
      assert r[..|r| - 1] == Insert(init, l, Better(bids));
    }
  }

  lemma SplitDistinct(ls: seq<Level>)
    requires ls != []
    ensures Distinct(ls) <==> Distinct(ls[..|ls| - 1]) && Without(ls[..|ls| - 1], ls[|ls| - 1].price)
    ensures forall p :: Without(ls, p) <==> Without(ls[..|ls| - 1], p) && ls[|ls| - 1].price != p
  {
  }

  lemma {:induction false} SortDistinct(ls: seq<Level>, bids: bool)
    ensures Distinct(SortSide(ls, bids)) <==> Distinct(ls)
    ensures forall p :: Without(SortSide(ls, bids), p) <==> Without(ls, p)
  {
    if ls != [] {
      SortDistinct(ls[..|ls| - 1], bids);
      InsertDistinct(SortSide(ls[..|ls| - 1], bids), ls[|ls| - 1], bids);
      SplitDistinct(ls);
    }
  }

  /** A sorted side keeps the meaning, and it is strictly ordered exactly when no price repeats. */
  lemma SortSideCorrect(ls: seq<Level>, bids: bool, m: map<int, int>)
    ensures SortedBy(SortSide(ls, bids), Better(bids))
    ensures Denotes(SortSide(ls, bids), m) <==> Denotes(ls, m)
    ensures BestFirst(SortSide(ls, bids), bids) <==> Distinct(ls)
  {
    BetterOrders(bids);
    SortCorrect(ls, Better(bids));
    SortDistinct(ls, bids);
    forall l ensures l in SortSide(ls, bids) <==> l in ls {
      SortMembers(ls, Better(bids), l);
    }
    StrictIffDistinct(SortSide(ls, bids), bids);
  }

  lemma StrictIffDistinct(ls: seq<Level>, bids: bool)
    requires SortedBy(ls, Better(bids))
    ensures BestFirst(ls, bids) <==> Distinct(ls)
  {
    if Distinct(ls) {
      forall i, j | 0 <= i < j < |ls| ensures if bids then ls[i].price > ls[j].price else ls[i].price < ls[j].price {
        assert Better(bids)(ls[i], ls[j]);
      }
    }
  }

  // ── Crossing ───────────────────────────────────────────────────────────────

  predicate IsCrossed(bids: seq<Level>, asks: seq<Level>) {
    bids != [] && asks != [] && bids[0].price >= asks[0].price
  }

  /** On sorted sides the top-of-book test decides every pair of levels. */
  lemma CrossedIffOverlap(bids: seq<Level>, asks: seq<Level>)
    requires SortedBy(bids, Better(true)) && SortedBy(asks, Better(false))
    ensures !IsCrossed(bids, asks) <==>
      forall i, j :: 0 <= i < |bids| && 0 <= j < |asks| ==> bids[i].price < asks[j].price
  {
    forall i, j | 0 <= i < |bids| && 0 <= j < |asks|
      ensures bids[i].price <= bids[0].price && asks[0].price <= asks[j].price
    {
      if i > 0 { assert Better(true)(bids[0], bids[i]); }
      if j > 0 { assert Better(false)(asks[0], asks[j]); }
    }
  }
}
