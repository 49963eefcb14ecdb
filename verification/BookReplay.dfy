/** Replay of L2 rows on top of a bootstrap snapshot: the timeline of books, lookup as of an instant,
    and the exact-replay verdict.  Times are milliseconds. */
module BookReplay {
  import opened MachineInts
  import opened StableSorting
  import opened BookLevels

  type TokenId = string

  /** Column prices have eight decimals, column sizes eighteen. */
  const UNITS_PER_COLUMN_PRICE: int := 100_000_000_000_000_000_000
  const UNITS_PER_COLUMN_SIZE: int := 10_000_000_000

  datatype Kind = SnapshotKind | DeltaKind | OtherKind

  datatype Row = Row(
    token: TokenId,
    kind: Kind,
    isFullSnapshot: bool,
    bidPrices: seq<int>,
    bidSizes: seq<int>,
    askPrices: seq<int>,
    askSizes: seq<int>,
    eventTime: int,
    ingestionTime: int,
    sequence: nat)
  {
    predicate Replaces() { isFullSnapshot || kind.SnapshotKind? }
  }

  /** A bootstrap snapshot with its decoded price and size pairs. */
  datatype Snap = Snap(
    token: TokenId,
    bids: seq<Change>,
    asks: seq<Change>,
    eventTime: int,
    ingestionTime: int,
    sequence: nat)

  datatype Book = Book(bids: seq<Level>, asks: seq<Level>, eventTime: int, maxGapMs: nat, crossed: bool)

  // ── Decoding ───────────────────────────────────────────────────────────────

  function ParseLevels(pairs: seq<Change>): seq<Level> {
    if pairs == [] then []
    else
      var c := pairs[|pairs| - 1];
      ParseLevels(pairs[..|pairs| - 1])
      + if c.size > 0 && TryLevel(c.price, c.size).Some? then [TryLevel(c.price, c.size).value] else []
  }

  function ColumnChange(price: int, size: int): Change {
    Change(price * UNITS_PER_COLUMN_PRICE, size * UNITS_PER_COLUMN_SIZE)
  }

  predicate KeepsChange(c: Change, zeroDeletes: bool) {
    0 < c.price <= ONE && 0 <= c.size && (zeroDeletes || c.size > 0)
  }

  /** The valid changes of the first `n` column entries. */
  function ColumnChanges(ps: seq<int>, ss: seq<int>, zeroDeletes: bool, n: nat): seq<Change>
    requires n <= |ps| && n <= |ss|
  {
    if n == 0 then []
    else
      var c := ColumnChange(ps[n - 1], ss[n - 1]);
      ColumnChanges(ps, ss, zeroDeletes, n - 1) + if KeepsChange(c, zeroDeletes) then [c] else []
  }

  function Shorter(ps: seq<int>, ss: seq<int>): nat { if |ps| <= |ss| then |ps| else |ss| }

  function Changes(ps: seq<int>, ss: seq<int>, zeroDeletes: bool): seq<Change> {
    ColumnChanges(ps, ss, zeroDeletes, Shorter(ps, ss))
  }

  // ── Replay ─────────────────────────────────────────────────────────────────

  function Bootstrap(s: Snap): Book {
    Book(SortSide(ParseLevels(s.bids), true), SortSide(ParseLevels(s.asks), false), s.eventTime, 0, false)
  }

  function Gap(b: Book, row: Row): nat { Max(row.eventTime - b.eventTime, 0) }

  function ApplySide(ls: seq<Level>, ps: seq<int>, ss: seq<int>, row: Row, bids: bool): seq<Level> {
    if row.Replaces() then SortSide(ParseLevels(Changes(ps, ss, false)), bids)
    else if row.kind.DeltaKind? then ApplyLevelChanges(ls, Changes(ps, ss, true), bids)
    else ls
  }

  function ApplyEvent(b: Book, row: Row): Book {
    b.(bids := ApplySide(b.bids, row.bidPrices, row.bidSizes, row, true),
       asks := ApplySide(b.asks, row.askPrices, row.askSizes, row, false),
       eventTime := row.eventTime,
       maxGapMs := Max(b.maxGapMs, Gap(b, row)))
  }

  /** The flag is set once, on the book that is left after all rows. */
  function Flagged(b: Book): Book { b.(crossed := IsCrossed(b.bids, b.asks)) }

  function BookAfter(b: Book, rows: seq<Row>): Book {
    if rows == [] then b else ApplyEvent(BookAfter(b, rows[..|rows| - 1]), rows[|rows| - 1])
  }

  /** The bootstrap book followed by the book after each row. */
  function Timeline(b: Book, rows: seq<Row>): seq<Book> {
    if rows == [] then [b] else Timeline(b, rows[..|rows| - 1]) + [BookAfter(b, rows)]
  }

  lemma {:induction false} TimelineAt(b: Book, rows: seq<Row>, i: nat)
    requires i <= |rows|
    ensures |Timeline(b, rows)| == |rows| + 1
    ensures Timeline(b, rows)[i] == BookAfter(b, rows[..i])
  {
    if rows != [] {
      var init := rows[..|rows| - 1];
      TimelineAt(b, init, if i <= |init| then i else 0);
      if i <= |init| {
        assert init[..i] == rows[..i];
      } else {
        assert rows[..i] == rows;
      }
    }
  }

  // ── Refinement of maps ─────────────────────────────────────────────────────

  datatype Sides = Sides(bids: map<int, int>, asks: map<int, int>)

  function LevelMap(ls: seq<Level>): map<int, int> {
    if ls == [] then map[] else LevelMap(ls[..|ls| - 1])[ls[|ls| - 1].price := ls[|ls| - 1].size]
  }

  function MapSide(m: map<int, int>, ps: seq<int>, ss: seq<int>, row: Row): map<int, int> {
    if row.Replaces() then LevelMap(ParseLevels(Changes(ps, ss, false)))
    else if row.kind.DeltaKind? then MapAll(m, Changes(ps, ss, true))
    else m
  }

  function MapRow(s: Sides, row: Row): Sides {
    Sides(MapSide(s.bids, row.bidPrices, row.bidSizes, row), MapSide(s.asks, row.askPrices, row.askSizes, row))
  }

  function MapRows(s: Sides, rows: seq<Row>): Sides {
    if rows == [] then s else MapRow(MapRows(s, rows[..|rows| - 1]), rows[|rows| - 1])
  }

  /** A replacing side lists no stored price twice; a changed side has prices on the micro grid, or off it
      where the map holds no level at the truncated price. */
  ghost predicate CleanSide(m: map<int, int>, ps: seq<int>, ss: seq<int>, row: Row) {
    if row.Replaces() then Distinct(ParseLevels(Changes(ps, ss, false)))
    else row.kind.DeltaKind? ==> AllRefinable(m, Changes(ps, ss, true))
  }

  ghost predicate CleanRow(s: Sides, row: Row) {
    CleanSide(s.bids, row.bidPrices, row.bidSizes, row) && CleanSide(s.asks, row.askPrices, row.askSizes, row)
  }

  /** Every row is clean over the maps before it. */
  ghost predicate CleanRows(s: Sides, rows: seq<Row>) {
    rows == [] || (CleanRows(s, rows[..|rows| - 1]) && CleanRow(MapRows(s, rows[..|rows| - 1]), rows[|rows| - 1]))
  }

  lemma {:induction false} CleanPrefix(s: Sides, rows: seq<Row>, n: nat)
    requires n <= |rows| && CleanRows(s, rows)
    ensures CleanRows(s, rows[..n])
  {
    if n < |rows| {
      CleanPrefix(s, rows[..|rows| - 1], n);
      assert rows[..|rows| - 1][..n] == rows[..n];
    } else {
      assert rows[..n] == rows;
    }
  }

  ghost predicate CleanSnap(s: Snap) { Distinct(ParseLevels(s.bids)) && Distinct(ParseLevels(s.asks)) }

  lemma {:induction false} LevelMapDenotes(ls: seq<Level>)
    requires Distinct(ls)
    ensures Denotes(ls, LevelMap(ls))
  {
    if ls != [] {
      var init, last := ls[..|ls| - 1], ls[|ls| - 1];
      LevelMapDenotes(init);
      assert ls == init + [last];
      AppendDistinct(init, last);
    }
  }

  lemma {:induction false} ChangesInRange(ps: seq<int>, ss: seq<int>, zeroDeletes: bool, n: nat)
    requires n <= |ps| && n <= |ss|
    ensures forall i :: 0 <= i < |ColumnChanges(ps, ss, zeroDeletes, n)| ==>
      InRange(ColumnChanges(ps, ss, zeroDeletes, n)[i])
  {
    if n > 0 { ChangesInRange(ps, ss, zeroDeletes, n - 1); }
  }

  lemma SideRefines(ls: seq<Level>, m: map<int, int>, ps: seq<int>, ss: seq<int>, row: Row, bids: bool)
    requires Denotes(ls, m) && BestFirst(ls, bids) && CleanSide(m, ps, ss, row)
    ensures var r := ApplySide(ls, ps, ss, row, bids);
            Denotes(r, MapSide(m, ps, ss, row)) && BestFirst(r, bids)
  {
    if row.Replaces() {
      var levels := ParseLevels(Changes(ps, ss, false));
      LevelMapDenotes(levels);
      SortSideCorrect(levels, bids, LevelMap(levels));
    } else if row.kind.DeltaKind? {
      var cs := Changes(ps, ss, true);
      ChangesInRange(ps, ss, true, Shorter(ps, ss));
      ChangesRefine(ls, m, cs);
      SortSideCorrect(ApplyAll(ls, cs), bids, MapAll(m, cs));
    }
  }

  ghost predicate BookDenotes(b: Book, s: Sides) {
    Denotes(b.bids, s.bids) && Denotes(b.asks, s.asks) && BestFirst(b.bids, true) && BestFirst(b.asks, false)
  }

  lemma {:induction false} ReplayRefines(b: Book, s: Sides, rows: seq<Row>)
    requires BookDenotes(b, s) && CleanRows(s, rows)
    ensures BookDenotes(BookAfter(b, rows), MapRows(s, rows))
  {
    if rows != [] {
      var init, row := rows[..|rows| - 1], rows[|rows| - 1];
      ReplayRefines(b, s, init);
      var c, t := BookAfter(b, init), MapRows(s, init);
      SideRefines(c.bids, t.bids, row.bidPrices, row.bidSizes, row, true);
      SideRefines(c.asks, t.asks, row.askPrices, row.askSizes, row, false);
    }
  }

  function SnapSides(s: Snap): Sides { Sides(LevelMap(ParseLevels(s.bids)), LevelMap(ParseLevels(s.asks))) }

  lemma BootstrapDenotes(s: Snap)
    requires CleanSnap(s)
    ensures BookDenotes(Bootstrap(s), SnapSides(s))
  {
    LevelMapDenotes(ParseLevels(s.bids));
    LevelMapDenotes(ParseLevels(s.asks));
    SortSideCorrect(ParseLevels(s.bids), true, SnapSides(s).bids);
    SortSideCorrect(ParseLevels(s.asks), false, SnapSides(s).asks);
  }

  /** Every book of the timeline is strictly sorted and stands for the maps after the rows before it:
      zero sizes delete, later writes win, full snapshots replace. */
  lemma TimelineRefinesMaps(s: Snap, rows: seq<Row>, i: nat)
    requires i <= |rows| && CleanSnap(s) && CleanRows(SnapSides(s), rows)
    ensures |Timeline(Bootstrap(s), rows)| == |rows| + 1
    ensures BookDenotes(Timeline(Bootstrap(s), rows)[i], MapRows(SnapSides(s), rows[..i]))
  {
    TimelineAt(Bootstrap(s), rows, i);
    BootstrapDenotes(s);
    CleanPrefix(SnapSides(s), rows, i);
    ReplayRefines(Bootstrap(s), SnapSides(s), rows[..i]);
  }

  // ── Lookup as of an instant ────────────────────────────────────────────────

  /** The last book of the timeline that is not later than `t`. */
  function BookAt(tl: seq<Book>, t: int): Option<Book> {
    if tl == [] then None
    else if tl[|tl| - 1].eventTime <= t then Some(tl[|tl| - 1])
    else BookAt(tl[..|tl| - 1], t)
  }

  ghost predicate InTimeOrder(rows: seq<Row>) { forall i, j :: 0 <= i < j < |rows| ==> rows[i].eventTime <= rows[j].eventTime }

  /** How many rows are not later than `t`. */
  function CountUpTo(rows: seq<Row>, t: int): nat {
    if rows == [] then 0
    else CountUpTo(rows[..|rows| - 1], t) + if rows[|rows| - 1].eventTime <= t then 1 else 0
  }

  lemma {:induction false} CountIsPrefix(rows: seq<Row>, t: int)
    requires InTimeOrder(rows)
    ensures CountUpTo(rows, t) <= |rows|
    ensures forall i :: 0 <= i < |rows| ==> (rows[i].eventTime <= t <==> i < CountUpTo(rows, t))
  {
    if rows != [] {
      var init := rows[..|rows| - 1];
      CountIsPrefix(init, t);
      assert forall i :: 0 <= i < |init| ==> rows[i] == init[i];
    }
  }

  /** The lookup returns the state after exactly the rows with event time at most `t`, and nothing
      when neither a row nor the bootstrap is that old. */
  lemma {:induction false} BookAtIsAsOf(b: Book, rows: seq<Row>, t: int)
    requires InTimeOrder(rows)
    ensures CountUpTo(rows, t) <= |rows|
    ensures BookAt(Timeline(b, rows), t) ==
      if CountUpTo(rows, t) > 0 || b.eventTime <= t
      then Some(BookAfter(b, rows[..CountUpTo(rows, t)]))
      else None
  {
    CountIsPrefix(rows, t);
    if rows == [] {
      AsOfStart(b, t);
    } else {
      var init := rows[..|rows| - 1];
      AsOfNewest(b, rows, t);
      if rows[|rows| - 1].eventTime > t {
        BookAtIsAsOf(b, init, t);
        assert init[..CountUpTo(rows, t)] == rows[..CountUpTo(rows, t)];
      } else {
        assert rows[..|rows|] == rows;
      }
    }
  }

  lemma AsOfStart(b: Book, t: int)
    ensures BookAt(Timeline(b, []), t) == if b.eventTime <= t then Some(b) else None
  {
    assert [b][..0] == [];
  }

  /** The newest book answers when its row is old enough; otherwise the lookup goes on without it. */
  lemma AsOfNewest(b: Book, rows: seq<Row>, t: int)
    requires rows != []
    ensures BookAt(Timeline(b, rows), t) ==
      if rows[|rows| - 1].eventTime <= t then Some(BookAfter(b, rows)) else BookAt(Timeline(b, rows[..|rows| - 1]), t)
  {
    var init := rows[..|rows| - 1];
    LastOfTimeline(Timeline(b, init), BookAfter(b, rows), t);
  }

  lemma LastOfTimeline(tl: seq<Book>, b: Book, t: int)
    ensures BookAt(tl + [b], t) == if b.eventTime <= t then Some(b) else BookAt(tl, t)
  {
    assert (tl + [b])[..|tl|] == tl;
  }

  /** On clean data the book found as of `t` stands for the maps after exactly the rows up to `t`. */
  lemma AsOfLookupDenotes(s: Snap, rows: seq<Row>, t: int)
    requires InTimeOrder(rows) && CleanSnap(s) && CleanRows(SnapSides(s), rows)
    requires BookAt(Timeline(Bootstrap(s), rows), t).Some?
    ensures CountUpTo(rows, t) <= |rows|
    ensures BookDenotes(BookAt(Timeline(Bootstrap(s), rows), t).value, MapRows(SnapSides(s), rows[..CountUpTo(rows, t)]))
  {
    BookAtIsAsOf(Bootstrap(s), rows, t);
    BootstrapDenotes(s);
    CleanPrefix(SnapSides(s), rows, CountUpTo(rows, t));
    ReplayRefines(Bootstrap(s), SnapSides(s), rows[..CountUpTo(rows, t)]);
  }

  /** A lookup never shows a book built on a bootstrap from after `t` if and only if no row is earlier
      than the bootstrap: the replay applies such rows on top of the later snapshot. */
  lemma NoLookaheadIff(b: Book, rows: seq<Row>)
    requires InTimeOrder(rows)
    ensures (forall t :: BookAt(Timeline(b, rows), t).Some? ==> b.eventTime <= t)
      <==> rows == [] || b.eventTime <= rows[0].eventTime
  {
    if rows != [] && b.eventTime > rows[0].eventTime {
      var t := rows[0].eventTime;
      BookAtIsAsOf(b, rows, t);
      CountIsPrefix(rows, t);
      assert BookAt(Timeline(b, rows), t).Some?;
    } else {
      forall t | BookAt(Timeline(b, rows), t).Some? ensures b.eventTime <= t {
        BookAtIsAsOf(b, rows, t);
        CountIsPrefix(rows, t);
      }
    }
  }

  /** A row from before the bootstrap: as of the row's instant the lookup already shows the later snapshot. */
  lemma LookaheadHappens(b: Book, row: Row)
    requires row.eventTime < b.eventTime
    ensures BookAt(Timeline(b, [row]), row.eventTime) == Some(ApplyEvent(b, row))
  {
    assert [row][..0] == [];
    assert BookAfter(b, []) == b && Timeline(b, []) == [b];
    assert BookAfter(b, [row]) == ApplyEvent(b, row);
    assert Timeline(b, [row]) == [b, ApplyEvent(b, row)];
  }

  /** The clones in the timeline are taken before the flag is set. */
  lemma {:induction false} TimelineNeverFlagged(b: Book, rows: seq<Row>)
    requires !b.crossed
    ensures !BookAfter(b, rows).crossed
    ensures forall t :: BookAt(Timeline(b, rows), t).Some? ==> !BookAt(Timeline(b, rows), t).value.crossed
  {
    if rows != [] {
      TimelineNeverFlagged(b, rows[..|rows| - 1]);
      var tl := Timeline(b, rows);
      assert tl[..|tl| - 1] == Timeline(b, rows[..|rows| - 1]);
    }
  }

  predicate FlagIsTrue(b: Book) { b.crossed <==> IsCrossed(b.bids, b.asks) }

  /** The flag of the final book tells the truth; the flag of a looked-up book does exactly when that book is
      not crossed. */
  lemma FlagIsTrueIff(s: Snap, rows: seq<Row>, t: int)
    requires BookAt(Timeline(Bootstrap(s), rows), t).Some?
    ensures FlagIsTrue(Flagged(BookAfter(Bootstrap(s), rows)))
    ensures var b := BookAt(Timeline(Bootstrap(s), rows), t).value; FlagIsTrue(b) <==> !IsCrossed(b.bids, b.asks)
  {
    TimelineNeverFlagged(Bootstrap(s), rows);
  }

  // ── Selecting rows and snapshots ───────────────────────────────────────────

  predicate Earlier(t1: int, i1: int, s1: nat, t2: int, i2: int, s2: nat) {
    t1 < t2 || (t1 == t2 && (i1 < i2 || (i1 == i2 && s1 <= s2)))
  }

  function RowOrder(): (Row, Row) -> bool {
    (a: Row, b: Row) => Earlier(a.eventTime, a.ingestionTime, a.sequence, b.eventTime, b.ingestionTime, b.sequence)
  }

  function NewestFirst(): (Snap, Snap) -> bool {
    (a: Snap, b: Snap) => Earlier(b.eventTime, b.ingestionTime, b.sequence, a.eventTime, a.ingestionTime, a.sequence)
  }

  function OfToken(rows: seq<Row>, token: TokenId): seq<Row> {
    if rows == [] then []
    else OfToken(rows[..|rows| - 1], token) + if rows[|rows| - 1].token == token then [rows[|rows| - 1]] else []
  }

  function SnapsOf(snaps: seq<Snap>, token: TokenId): seq<Snap> {
    if snaps == [] then []
    else SnapsOf(snaps[..|snaps| - 1], token) + if snaps[|snaps| - 1].token == token then [snaps[|snaps| - 1]] else []
  }

  function RowsFor(rows: seq<Row>, token: TokenId): seq<Row> { Sort(OfToken(rows, token), RowOrder()) }

  function LatestSnap(snaps: seq<Snap>, token: TokenId): Option<Snap> {
    var sorted := Sort(SnapsOf(snaps, token), NewestFirst());
    if sorted == [] then None else Some(sorted[0])
  }

  lemma {:induction false} SnapsOfMembers(snaps: seq<Snap>, token: TokenId)
    ensures forall s :: s in SnapsOf(snaps, token) <==> s in snaps && s.token == token
  {
    if snaps != [] {
      SnapsOfMembers(snaps[..|snaps| - 1], token);
      assert snaps == snaps[..|snaps| - 1] + [snaps[|snaps| - 1]];
    }
  }

  /** The bootstrap is a snapshot of the token that no other one is newer than; the rows of a token
      replay in time order. */
  lemma SelectionCorrect(snaps: seq<Snap>, rows: seq<Row>, token: TokenId)
    ensures LatestSnap(snaps, token).None? <==> forall s :: s in snaps ==> s.token != token
    ensures LatestSnap(snaps, token).Some? ==>
      var best := LatestSnap(snaps, token).value;
      && best in snaps && best.token == token
      && forall s :: s in snaps && s.token == token ==>
           Earlier(s.eventTime, s.ingestionTime, s.sequence, best.eventTime, best.ingestionTime, best.sequence)
    ensures InTimeOrder(RowsFor(rows, token))
    ensures multiset(RowsFor(rows, token)) == multiset(OfToken(rows, token))
  {
    assert TotalPreorder(NewestFirst()) && TotalPreorder(RowOrder());
    var mine := SnapsOf(snaps, token);
    SnapsOfMembers(snaps, token);
    SortCorrect(mine, NewestFirst());
    SortCorrect(OfToken(rows, token), RowOrder());
    var rs := RowsFor(rows, token);
    forall i, j | 0 <= i < j < |rs| ensures rs[i].eventTime <= rs[j].eventTime {
      assert RowOrder()(rs[i], rs[j]);
    }
    var sorted := Sort(mine, NewestFirst());
    forall s ensures s in sorted <==> s in mine {
      SortMembers(mine, NewestFirst(), s);
    }
    if sorted != [] {
      assert sorted[0] in sorted;
      forall s | s in mine ensures NewestFirst()(sorted[0], s) {
        assert s in sorted;
        var i :| 0 <= i < |sorted| && sorted[i] == s;
      }
    } else {
      assert mine == [];
    }
  }

  // ── The verdict ────────────────────────────────────────────────────────────

  datatype Reason = MissingSnapshot(token: TokenId) | CrossedBook(token: TokenId) | GapTooLong

  datatype Input = Input(tokens: seq<TokenId>, snaps: seq<Snap>, rows: seq<Row>, maxGapMs: nat)

  datatype State = State(
    books: map<TokenId, Book>,
    timelines: map<TokenId, seq<Book>>,
    gapCount: u64,
    reasons: seq<Reason>)

  const START: State := State(map[], map[], 0, [])

  /** Gaps above the limit between consecutively applied rows. */
  function LongGaps(b: Book, rows: seq<Row>, maxGap: nat): nat {
    if rows == [] then 0
    else
      LongGaps(b, rows[..|rows| - 1], maxGap)
      + if Gap(BookAfter(b, rows[..|rows| - 1]), rows[|rows| - 1]) > maxGap then 1 else 0
  }

  function ReconstructToken(st: State, token: TokenId, snap: Option<Snap>, rows: seq<Row>, maxGap: nat): State {
    if snap.None? then st.(reasons := st.reasons + [MissingSnapshot(token)])
    else
      var b := Bootstrap(snap.value);
      var last := Flagged(BookAfter(b, rows));
      var counted := st.(gapCount := SaturateU64(st.gapCount + LongGaps(b, rows, maxGap)));
      if last.crossed then counted.(reasons := st.reasons + [CrossedBook(token)])
      else counted.(books := st.books[token := last], timelines := st.timelines[token := Timeline(b, rows)])
  }

  function ReconstructTokens(input: Input, n: nat): State
    requires n <= |input.tokens|
  {
    if n == 0 then START
    else
      var t := input.tokens[n - 1];
      ReconstructToken(ReconstructTokens(input, n - 1), t, LatestSnap(input.snaps, t), RowsFor(input.rows, t), input.maxGapMs)
  }

  lemma TokensStep(input: Input, n: nat)
    requires n < |input.tokens|
    ensures var t := input.tokens[n];
            ReconstructTokens(input, n + 1)
              == ReconstructToken(ReconstructTokens(input, n), t, LatestSnap(input.snaps, t), RowsFor(input.rows, t), input.maxGapMs)
  {
  }

  function Reconstruct(input: Input): State {
    var st := ReconstructTokens(input, |input.tokens|);
    if st.gapCount > 0 then st.(reasons := st.reasons + [GapTooLong]) else st
  }

  predicate ExactReplay(input: Input) { Reconstruct(input).reasons == [] }

  /** No gap between consecutive books of the replay exceeds the limit. */
  ghost predicate GapsWithin(b: Book, rows: seq<Row>, maxGap: nat) {
    forall i :: 0 <= i < |rows| ==> GapAt(b, rows, i) <= maxGap
  }

  /** The gap before row `i`. */
  function GapAt(b: Book, rows: seq<Row>, i: nat): nat
    requires i < |rows|
  {
    Gap(BookAfter(b, rows[..i]), rows[i])
  }

  lemma {:induction false} LongGapsZeroIff(b: Book, rows: seq<Row>, maxGap: nat)
    ensures LongGaps(b, rows, maxGap) == 0 <==> GapsWithin(b, rows, maxGap)
  {
    if rows != [] {
      LongGapsZeroIff(b, rows[..|rows| - 1], maxGap);
      GapsWithinSplit(b, rows, maxGap);
    }
  }

  lemma GapsWithinSplit(b: Book, rows: seq<Row>, maxGap: nat)
    requires rows != []
    ensures var init := rows[..|rows| - 1];
            GapsWithin(b, rows, maxGap) <==> GapsWithin(b, init, maxGap) && GapAt(b, rows, |rows| - 1) <= maxGap
  {
    var init := rows[..|rows| - 1];
    assert forall i :: 0 <= i < |init| ==> init[..i] == rows[..i];
    assert forall i :: 0 <= i < |init| ==> GapAt(b, init, i) == GapAt(b, rows, i);
  }

  /** The token was replayed completely: bootstrapped, not crossed at the end, without a long gap. */
  ghost predicate Replayed(input: Input, t: TokenId) {
    var s, rows := LatestSnap(input.snaps, t), RowsFor(input.rows, t);
    && s.Some?
    && !IsCrossed(BookAfter(Bootstrap(s.value), rows).bids, BookAfter(Bootstrap(s.value), rows).asks)
    && GapsWithin(Bootstrap(s.value), rows, input.maxGapMs)
  }

  /** Nothing to report so far. */
  predicate Flawless(st: State) { st.reasons == [] && st.gapCount == 0 }

  lemma TokenReplayed(input: Input, st: State, t: TokenId)
    ensures var st' := ReconstructToken(st, t, LatestSnap(input.snaps, t), RowsFor(input.rows, t), input.maxGapMs);
            Flawless(st') <==> Flawless(st) && Replayed(input, t)
  {
    var s := LatestSnap(input.snaps, t);
    if s.Some? {
      LongGapsZeroIff(Bootstrap(s.value), RowsFor(input.rows, t), input.maxGapMs);
    }
  }

  function FinalBook(input: Input, t: TokenId): Book
    requires LatestSnap(input.snaps, t).Some?
  {
    Flagged(BookAfter(Bootstrap(LatestSnap(input.snaps, t).value), RowsFor(input.rows, t)))
  }

  /** From `st` to `st'` the token `t` was booked with its book in `finals`, unless there is a reason to doubt. */
  predicate Booked(st: State, st': State, t: TokenId, finals: map<TokenId, Book>) {
    st'.reasons == [] ==> st.reasons == [] && t in finals && st'.books == st.books[t := finals[t]]
  }

  lemma {:induction false} BookedStays(sts: seq<State>, tokens: seq<TokenId>, finals: map<TokenId, Book>, i: nat)
    requires |sts| == |tokens| + 1 && i < |tokens| && sts[|tokens|].reasons == []
    requires forall k :: 0 <= k < |tokens| ==> Booked(sts[k], sts[k + 1], tokens[k], finals)
    ensures tokens[i] in finals && tokens[i] in sts[|tokens|].books && sts[|tokens|].books[tokens[i]] == finals[tokens[i]]
  {
    var n := |tokens| - 1;
    assert Booked(sts[n], sts[n + 1], tokens[n], finals);
    if i < n { BookedStays(sts[..n + 1], tokens[..n], finals, i); }
  }

  ghost function Finals(input: Input): map<TokenId, Book> {
    map t | t in input.tokens && LatestSnap(input.snaps, t).Some? :: FinalBook(input, t)
  }

  lemma TokenBooked(input: Input, n: nat)
    requires n < |input.tokens|
    ensures Booked(ReconstructTokens(input, n), ReconstructTokens(input, n + 1), input.tokens[n], Finals(input))
  {
    TokensStep(input, n);
  }

  ghost function States(input: Input): (sts: seq<State>)
    ensures |sts| == |input.tokens| + 1
  {
    seq(|input.tokens| + 1, n requires 0 <= n <= |input.tokens| => ReconstructTokens(input, n))
  }

  lemma StateAt(input: Input, k: nat)
    requires k <= |input.tokens|
    ensures States(input)[k] == ReconstructTokens(input, k)
  {
  }

  lemma BookedAt(input: Input, k: nat, st: State, st': State, finals: map<TokenId, Book>)
    requires k < |input.tokens| && st == ReconstructTokens(input, k) && st' == ReconstructTokens(input, k + 1)
    requires finals == Finals(input)
    ensures Booked(st, st', input.tokens[k], finals)
  {
    TokenBooked(input, k);
  }

  /** Without a reason to doubt, the report holds the final book of every token. */
  lemma BooksComplete(input: Input, i: nat)
    requires i < |input.tokens| && ReconstructTokens(input, |input.tokens|).reasons == []
    ensures var t, books := input.tokens[i], ReconstructTokens(input, |input.tokens|).books;
            LatestSnap(input.snaps, t).Some? && t in books && books[t] == FinalBook(input, t)
  {
    BookedThrough(input, i, ReconstructTokens(input, |input.tokens|), Finals(input));
  }

  lemma BookedThrough(input: Input, i: nat, last: State, finals: map<TokenId, Book>)
    requires i < |input.tokens| && last == ReconstructTokens(input, |input.tokens|) && last.reasons == [] && finals == Finals(input)
    ensures var t := input.tokens[i]; t in finals && t in last.books && last.books[t] == finals[t]
  {
    EveryTokenBooked(input, finals);
    LastState(input, last);
    BookedInLast(States(input), input.tokens, finals, i, last);
  }

  ghost predicate AllBooked(sts: seq<State>, tokens: seq<TokenId>, finals: map<TokenId, Book>) {
    |sts| == |tokens| + 1 && forall k :: 0 <= k < |tokens| ==> Booked(sts[k], sts[k + 1], tokens[k], finals)
  }

  lemma EveryTokenBooked(input: Input, finals: map<TokenId, Book>)
    requires finals == Finals(input)
    ensures AllBooked(States(input), input.tokens, finals)
  {
    forall k | 0 <= k < |input.tokens| ensures Booked(States(input)[k], States(input)[k + 1], input.tokens[k], finals) {
      StateAt(input, k);
      StateAt(input, k + 1);
      BookedAt(input, k, States(input)[k], States(input)[k + 1], finals);
    }
  }

  lemma BookedInLast(sts: seq<State>, tokens: seq<TokenId>, finals: map<TokenId, Book>, i: nat, last: State)
    requires AllBooked(sts, tokens, finals) && i < |tokens| && last == sts[|tokens|] && last.reasons == []
    ensures tokens[i] in finals && tokens[i] in last.books && last.books[tokens[i]] == finals[tokens[i]]
  {
    BookedStays(sts, tokens, finals, i);
  }

  lemma LastState(input: Input, last: State)
    requires last == ReconstructTokens(input, |input.tokens|)
    ensures States(input)[|input.tokens|] == last
  {
    StateAt(input, |input.tokens|);
  }

  lemma {:induction false} ReplaySorted(b: Book, rows: seq<Row>)
    requires SortedBy(b.bids, Better(true)) && SortedBy(b.asks, Better(false))
    ensures SortedBy(BookAfter(b, rows).bids, Better(true)) && SortedBy(BookAfter(b, rows).asks, Better(false))
  {
    if rows != [] {
      var row, c := rows[|rows| - 1], BookAfter(b, rows[..|rows| - 1]);
      ReplaySorted(b, rows[..|rows| - 1]);
      SideSorted(c.bids, row.bidPrices, row.bidSizes, row, true);
      SideSorted(c.asks, row.askPrices, row.askSizes, row, false);
    }
  }

  lemma SideSorted(ls: seq<Level>, ps: seq<int>, ss: seq<int>, row: Row, bids: bool)
    requires SortedBy(ls, Better(bids))
    ensures SortedBy(ApplySide(ls, ps, ss, row, bids), Better(bids))
  {
    SortSideCorrect(ParseLevels(Changes(ps, ss, false)), bids, map[]);
    SortSideCorrect(ApplyAll(ls, Changes(ps, ss, true)), bids, map[]);
  }

  ghost predicate Uncrossed(b: Book) {
    forall i, j :: 0 <= i < |b.bids| && 0 <= j < |b.asks| ==> b.bids[i].price < b.asks[j].price
  }

  /** The report stays flawless over a token exactly when it was and the token is among the clean ones. */
  predicate Kept(st: State, st': State, t: TokenId, clean: set<TokenId>) {
    Flawless(st') <==> Flawless(st) && t in clean
  }

  lemma {:induction false} KeptThrough(sts: seq<State>, tokens: seq<TokenId>, clean: set<TokenId>)
    requires |sts| == |tokens| + 1 && Flawless(sts[0])
    requires forall k :: 0 <= k < |tokens| ==> Kept(sts[k], sts[k + 1], tokens[k], clean)
    ensures Flawless(sts[|tokens|]) <==> forall k :: 0 <= k < |tokens| ==> tokens[k] in clean
  {
    if tokens != [] {
      var n := |tokens| - 1;
      KeptThrough(sts[..n + 1], tokens[..n], clean);
      assert Kept(sts[n], sts[n + 1], tokens[n], clean);
    }
  }

  ghost function ReplayedTokens(input: Input): set<TokenId> { set t | t in input.tokens && Replayed(input, t) }

  lemma TokenKept(input: Input, n: nat)
    requires n < |input.tokens|
    ensures Kept(ReconstructTokens(input, n), ReconstructTokens(input, n + 1), input.tokens[n], ReplayedTokens(input))
  {
    TokensStep(input, n);
    TokenReplayed(input, ReconstructTokens(input, n), input.tokens[n]);
  }

  lemma FlawlessStart(input: Input)
    ensures Flawless(States(input)[0]) && States(input)[|input.tokens|] == ReconstructTokens(input, |input.tokens|)
  {
    assert States(input)[0] == ReconstructTokens(input, 0) == START;
  }

  lemma KeptAt(input: Input, k: nat, st: State, st': State, clean: set<TokenId>)
    requires k < |input.tokens| && st == ReconstructTokens(input, k) && st' == ReconstructTokens(input, k + 1)
    requires clean == ReplayedTokens(input)
    ensures Kept(st, st', input.tokens[k], clean)
  {
    TokenKept(input, k);
  }

  lemma TokensKept(input: Input, clean: set<TokenId>)
    requires clean == ReplayedTokens(input)
    ensures Flawless(ReconstructTokens(input, |input.tokens|)) <==> forall k :: 0 <= k < |input.tokens| ==> input.tokens[k] in clean
  {
    FlawlessStart(input);
    forall k | 0 <= k < |input.tokens| ensures Kept(States(input)[k], States(input)[k + 1], input.tokens[k], clean) {
      StateAt(input, k);
      StateAt(input, k + 1);
      KeptAt(input, k, States(input)[k], States(input)[k + 1], clean);
    }
    KeptThrough(States(input), input.tokens, clean);
  }

  lemma TokensReplayed(input: Input)
    ensures Flawless(ReconstructTokens(input, |input.tokens|)) <==>
      forall i :: 0 <= i < |input.tokens| ==> Replayed(input, input.tokens[i])
  {
    TokensKept(input, ReplayedTokens(input));
  }

  /** The report says ExactReplay if and only if every expected token was replayed completely.  Then
      every token has a book and every bid of it is below every ask, on any input, clean or not. */
  lemma ExactReplayIff(input: Input)
    ensures ExactReplay(input) <==> forall i :: 0 <= i < |input.tokens| ==> Replayed(input, input.tokens[i])
    ensures ExactReplay(input) ==> forall i :: 0 <= i < |input.tokens| ==>
      input.tokens[i] in Reconstruct(input).books && Uncrossed(Reconstruct(input).books[input.tokens[i]])
  {
    TokensReplayed(input);
    if ExactReplay(input) {
      forall i | 0 <= i < |input.tokens|
        ensures input.tokens[i] in Reconstruct(input).books && Uncrossed(Reconstruct(input).books[input.tokens[i]])
      {
        var t := input.tokens[i];
        BooksComplete(input, i);
        var s, rows := LatestSnap(input.snaps, t).value, RowsFor(input.rows, t);
        SortSideCorrect(ParseLevels(s.bids), true, map[]);
        SortSideCorrect(ParseLevels(s.asks), false, map[]);
        ReplaySorted(Bootstrap(s), rows);
        CrossedIffOverlap(BookAfter(Bootstrap(s), rows).bids, BookAfter(Bootstrap(s), rows).asks);
      }
    }
  }

  // ── A crossed book inside an exact replay ──────────────────────────────────

  lemma SortOne<T>(a: T, leq: (T, T) -> bool)
    ensures Sort([a], leq) == [a]
  {
    assert [a][..0] == [];
  }

  lemma SortTwo<T>(a: T, b: T, leq: (T, T) -> bool)
    ensures Sort([a, b], leq) == if leq(a, b) then [a, b] else [b, a]
  {
    SortOne(a, leq);
    assert [a, b][..1] == [a] && [a][..0] == [];
    assert Insert([], b, leq) == [b];
    assert Insert([a], b, leq) == if leq(a, b) then [a] + [b] else [b] + [a];
  }

  function Cents(n: int): int { n * 10_000 * UNITS_PER_MICRO }

  /** A stored level of one share. */
  function Share(cents: int): Level { Level(cents * 10_000, 1_000_000) }

  lemma ParseShare(cents: int)
    requires 0 < cents <= 100
    ensures ParseLevels([Change(Cents(cents), ONE)]) == [Share(cents)]
  {
    var c := Change(Cents(cents), ONE);
    assert [c][..0] == [];
    assert TryLevel(c.price, c.size) == Some(Share(cents));
  }

  /** A delta of the 96-cent bid at `at`: one share, or its deletion. */
  function BidRow(token: TokenId, delete: bool, at: nat): Row {
    Row(token, DeltaKind, false, [96_000_000], [if delete then 0 else 1_000_000_000_000_000_000], [], [], at, at, at)
  }

  function NarrowSnap(token: TokenId): Snap {
    Snap(token, [Change(Cents(94), ONE)], [Change(Cents(95), ONE)], 0, 0, 0)
  }

  lemma NarrowBook(token: TokenId)
    ensures Bootstrap(NarrowSnap(token)) == Book([Share(94)], [Share(95)], 0, 0, false)
  {
    ParseShare(94);
    ParseShare(95);
    SortOne(Share(94), Better(true));
    SortOne(Share(95), Better(false));
  }

  lemma BidChange(delete: bool)
    ensures Changes([96_000_000], [if delete then 0 else 1_000_000_000_000_000_000], true)
      == [Change(Cents(96), if delete then 0 else ONE)]
    ensures Changes([], [], true) == []
  {
    var ps, ss := [96_000_000], [if delete then 0 else 1_000_000_000_000_000_000];
    assert ColumnChanges(ps, ss, true, 0) == [];
    assert ColumnChange(ps[0], ss[0]) == Change(Cents(96), if delete then 0 else ONE);
  }

  lemma ApplyOne(ls: seq<Level>, c: Change)
    ensures ApplyAll(ls, [c]) == ApplyChange(ls, c)
  {
    assert [c][..0] == [];
  }

  lemma RetainOne(l: Level, p: int)
    ensures Retain([l], p) == if l.price * UNITS_PER_MICRO != p then [l] else []
  {
    assert [l][..0] == [];
  }

  lemma BidAdded()
    ensures ApplyLevelChanges([Share(94)], [Change(Cents(96), ONE)], true) == [Share(96), Share(94)]
  {
    var c := Change(Cents(96), ONE);
    ApplyOne([Share(94)], c);
    RetainOne(Share(94), c.price);
    assert TryLevel(c.price, c.size) == Some(Share(96));
    assert ApplyChange([Share(94)], c) == [Share(94), Share(96)];
    SortTwo(Share(94), Share(96), Better(true));
  }

  lemma BidDeleted()
    ensures ApplyLevelChanges([Share(96), Share(94)], [Change(Cents(96), 0)], true) == [Share(94)]
  {
    var c, ls := Change(Cents(96), 0), [Share(96), Share(94)];
    ApplyOne(ls, c);
    assert ls[..1] == [Share(96)];
    RetainOne(Share(96), c.price);
    assert Retain(ls, c.price) == [Share(94)];
    SortOne(Share(94), Better(true));
  }

  lemma AskKept()
    ensures ApplyLevelChanges([Share(95)], [], false) == [Share(95)]
  {
    assert ApplyAll([Share(95)], []) == [Share(95)];
    SortOne(Share(95), Better(false));
  }

  lemma CrossingRow(token: TokenId)
    ensures ApplyEvent(Book([Share(94)], [Share(95)], 0, 0, false), BidRow(token, false, 1))
      == Book([Share(96), Share(94)], [Share(95)], 1, 1, false)
  {
    BidChange(false);
    BidAdded();
    AskKept();
  }

  lemma RestoringRow(token: TokenId)
    ensures ApplyEvent(Book([Share(96), Share(94)], [Share(95)], 1, 1, false), BidRow(token, true, 2))
      == Book([Share(94)], [Share(95)], 2, 1, false)
  {
    BidChange(true);
    BidDeleted();
    AskKept();
  }

  /** One crossing bid and its deletion a millisecond later, over a 94/95 book. */
  function CrossingInput(token: TokenId): Input {
    Input([token], [NarrowSnap(token)], [BidRow(token, false, 1), BidRow(token, true, 2)], 1)
  }

  lemma CrossingSelection(token: TokenId)
    ensures LatestSnap(CrossingInput(token).snaps, token) == Some(NarrowSnap(token))
    ensures RowsFor(CrossingInput(token).rows, token) == CrossingInput(token).rows
  {
    OneSnap(NarrowSnap(token), token);
    TwoRows(BidRow(token, false, 1), BidRow(token, true, 2), token);
  }

  lemma OneSnap(s: Snap, token: TokenId)
    requires s.token == token
    ensures LatestSnap([s], token) == Some(s)
  {
    assert [s][..0] == [];
    assert SnapsOf([s], token) == [s];
    SortOne(s, NewestFirst());
  }

  lemma TwoRows(a: Row, b: Row, token: TokenId)
    requires a.token == b.token == token && RowOrder()(a, b)
    ensures RowsFor([a, b], token) == [a, b]
  {
    assert [a, b][..1] == [a] && [a][..0] == [];
    assert OfToken([a], token) == [a];
    assert OfToken([a, b], token) == [a] + [b];
    SortTwo(a, b, RowOrder());
  }

  lemma CrossingTimeline(token: TokenId)
    ensures var b := Bootstrap(NarrowSnap(token));
            var rows := CrossingInput(token).rows;
      && BookAfter(b, rows[..1]) == Book([Share(96), Share(94)], [Share(95)], 1, 1, false)
      && BookAfter(b, rows) == Book([Share(94)], [Share(95)], 2, 1, false)
      && BookAt(Timeline(b, rows), 1) == Some(BookAfter(b, rows[..1]))
  {
    var b, rows := Bootstrap(NarrowSnap(token)), CrossingInput(token).rows;
    var r1, r2 := rows[0], rows[1];
    NarrowBook(token);
    CrossingRow(token);
    RestoringRow(token);
    assert rows[..1] == [r1] && [r1][..0] == [] && rows[..2] == rows;
    assert BookAfter(b, [r1]) == ApplyEvent(b, r1);
    assert BookAfter(b, rows) == ApplyEvent(BookAfter(b, [r1]), r2);
    BookAtIsAsOf(b, rows, 1);
    assert CountUpTo([r1], 1) == 1;
    assert CountUpTo(rows, 1) == 1;
  }

  /** The report says ExactReplay, and as of the millisecond between the two rows its book is crossed and
      not flagged. */
  lemma ExactReplayHidesCrossedBook(token: TokenId)
    ensures ExactReplay(CrossingInput(token))
    ensures var b := BookAt(Timeline(Bootstrap(NarrowSnap(token)), CrossingInput(token).rows), 1);
            b.Some? && IsCrossed(b.value.bids, b.value.asks) && !b.value.crossed
  {
    CrossingReplayed(token);
    ExactReplayIff(CrossingInput(token));
    CrossingTimeline(token);
    NarrowBook(token);
  }

  lemma CrossingReplayed(token: TokenId)
    ensures Replayed(CrossingInput(token), token)
  {
    var b, rows := Bootstrap(NarrowSnap(token)), CrossingInput(token).rows;
    CrossingSelection(token);
    CrossingTimeline(token);
    NarrowBook(token);
    assert rows[..0] == [];
    assert GapAt(b, rows, 0) == 1 && GapAt(b, rows, 1) == 1;
  }

  /** An eight-decimal column price over an existing level: the edit leaves two levels at one stored price. */
  lemma OffGridDuplicates()
    ensures var ls, m, c := [Share(94)], map[940_000 := 1_000_000], ColumnChange(94_000_050, 2_000_000_000_000_000_000);
      && Denotes(ls, m) && InRange(c)
      && ApplyChange(ls, c) == [Share(94), Level(940_000, 2_000_000)] && !Denotes(ApplyChange(ls, c), MapChange(m, c))
  {
    var c := ColumnChange(94_000_050, 2_000_000_000_000_000_000);
    RetainOne(Share(94), c.price);
    assert TryLevel(c.price, c.size) == Some(Level(940_000, 2_000_000));
    var r := ApplyChange([Share(94)], c);
    assert r[0].price == r[1].price;
  }

  // ── The in-place replay ────────────────────────────────────────────────────

  lemma SaturateTwice(x: nat, y: nat)
    ensures SaturateU64(SaturateU64(x) + y) == SaturateU64(x + y)
  {
  }

  /** The counter after the rows' long gaps, saturating. */
  predicate GapsCounted(count: u64, before: nat, b: Book, rows: seq<Row>, maxGap: nat) {
    count == SaturateU64(before + LongGaps(b, rows, maxGap))
  }

  lemma ReplayStart(b: Book, rows: seq<Row>, maxGap: nat, gaps: u64)
    ensures BookAfter(b, rows[..0]) == b && Timeline(b, rows[..0]) == [b]
    ensures GapsCounted(gaps, gaps, b, rows[..0], maxGap)
  {
  }

  lemma TimelineStep(b: Book, rows: seq<Row>, i: nat)
    requires i < |rows|
    ensures Timeline(b, rows[..i + 1]) == Timeline(b, rows[..i]) + [BookAfter(b, rows[..i + 1])]
  {
    assert rows[..i + 1][..i] == rows[..i];
  }

  lemma ReplayStep(b: Book, rows: seq<Row>, i: nat, maxGap: nat, gaps: nat)
    requires i < |rows|
    ensures BookAfter(b, rows[..i + 1]) == ApplyEvent(BookAfter(b, rows[..i]), rows[i])
    ensures SaturateU64(gaps + LongGaps(b, rows[..i + 1], maxGap)) ==
      SaturateU64(SaturateU64(gaps + LongGaps(b, rows[..i], maxGap))
                  + if Gap(BookAfter(b, rows[..i]), rows[i]) > maxGap then 1 else 0)
  {
    assert rows[..i + 1][..i] == rows[..i];
    SaturateTwice(gaps + LongGaps(b, rows[..i], maxGap), if Gap(BookAfter(b, rows[..i]), rows[i]) > maxGap then 1 else 0);
  }

  lemma ParseAppend(cs: seq<Change>, c: Change)
    ensures ParseLevels(cs + [c])
      == ParseLevels(cs) + if c.size > 0 && TryLevel(c.price, c.size).Some? then [TryLevel(c.price, c.size).value] else []
  {
    assert (cs + [c])[..|cs|] == cs;
  }

  method LevelsFromColumns(ps: seq<int>, ss: seq<int>, zeroDeletes: bool) returns (levels: seq<Level>, changes: seq<Change>)
    ensures changes == Changes(ps, ss, zeroDeletes)
    ensures levels == ParseLevels(changes)
  {
    levels, changes := [], [];
    for i := 0 to Shorter(ps, ss)
      invariant changes == ColumnChanges(ps, ss, zeroDeletes, i)
      invariant levels == ParseLevels(changes)
    {
      var c := ColumnChange(ps[i], ss[i]);
      if KeepsChange(c, zeroDeletes) {
        ParseAppend(changes, c);
        changes := changes + [c];
        if c.size > 0 && TryLevel(c.price, c.size).Some? {
          levels := levels + [TryLevel(c.price, c.size).value];
        }
      }
    }
  }

  method ApplyChangesTo(ls: seq<Level>, cs: seq<Change>, bids: bool) returns (r: seq<Level>)
    ensures r == ApplyLevelChanges(ls, cs, bids)
  {
    r := ls;
    for i := 0 to |cs|
      invariant r == ApplyAll(ls, cs[..i])
    {
      assert cs[..i + 1][..i] == cs[..i];
      r := Retain(r, cs[i].price);
      if cs[i].size > 0 {
        var level := TryLevel(cs[i].price, cs[i].size);
        if level.Some? {
          r := r + [level.value];
        }
      }
    }
    assert cs[..|cs|] == cs;
    r := Sort(r, Better(bids));
  }

  class TokenBook {
    var bids: seq<Level>
    var asks: seq<Level>
    var eventTime: int
    var maxGapMs: nat
    var crossed: bool

    ghost function Value(): Book
      reads this
    {
      Book(bids, asks, eventTime, maxGapMs, crossed)
    }

    constructor (s: Snap)
      ensures Value() == Bootstrap(s)
    {
      bids := Sort(ParseLevels(s.bids), Better(true));
      asks := Sort(ParseLevels(s.asks), Better(false));
      eventTime := s.eventTime;
      maxGapMs := 0;
      crossed := false;
    }

    method Copy() returns (b: Book)
      ensures b == Value()
    {
      b := Book(bids, asks, eventTime, maxGapMs, crossed);
    }

    method FlagCrossed()
      modifies this`crossed
      ensures Value() == Flagged(old(Value())) && FlagIsTrue(Value())
    {
      crossed := IsCrossed(bids, asks);
    }

    method ApplyL2Event(row: Row)
      modifies this
      ensures Value() == ApplyEvent(old(Value()), row)
    {
      maxGapMs := Max(maxGapMs, Max(row.eventTime - eventTime, 0));
      var full := row.isFullSnapshot || row.kind.SnapshotKind?;
      var bidLevels, bidChanges := LevelsFromColumns(row.bidPrices, row.bidSizes, !full);
      var askLevels, askChanges := LevelsFromColumns(row.askPrices, row.askSizes, !full);
      if full {
        bids := Sort(bidLevels, Better(true));
        asks := Sort(askLevels, Better(false));
      } else if row.kind.DeltaKind? {
        bids := ApplyChangesTo(bids, bidChanges, true);
        asks := ApplyChangesTo(asks, askChanges, false);
      }
      eventTime := row.eventTime;
    }
  }

  class Reconstruction {
    var books: map<TokenId, Book>
    var timelines: map<TokenId, seq<Book>>
    var gapCount: u64
    var reasons: seq<Reason>

    ghost function Value(): State
      reads this
    {
      State(books, timelines, gapCount, reasons)
    }

    constructor ()
      ensures Value() == START
    {
      books, timelines, gapCount, reasons := map[], map[], 0, [];
    }

    method NoteGap(gap: nat, maxGap: nat)
      modifies this`gapCount
      ensures gapCount == SaturateU64(old(gapCount) + if gap > maxGap then 1 else 0)
    {
      if gap > maxGap {
        gapCount := SaturateU64(gapCount + 1);
      }
    }

    method Replay(s: Snap, rows: seq<Row>, maxGap: nat) returns (last: Book, timeline: seq<Book>)
      modifies this`gapCount
      ensures last == Flagged(BookAfter(Bootstrap(s), rows)) && timeline == Timeline(Bootstrap(s), rows)
      ensures gapCount == SaturateU64(old(gapCount) + LongGaps(Bootstrap(s), rows, maxGap))
    {
      var book := new TokenBook(s);
      timeline := ReplayRows(book, rows, maxGap);
      book.FlagCrossed();
      last := book.Copy();
    }

    method ReplayRows(book: TokenBook, rows: seq<Row>, maxGap: nat) returns (timeline: seq<Book>)
      modifies this`gapCount, book
      ensures book.Value() == BookAfter(old(book.Value()), rows) && timeline == Timeline(old(book.Value()), rows)
      ensures GapsCounted(gapCount, old(gapCount), old(book.Value()), rows, maxGap)
    {
      ghost var b := book.Value();
      var last := book.Copy();
      timeline := [last];
      ReplayStart(b, rows, maxGap, gapCount);
      for i := 0 to |rows|
        invariant book.Value() == last
        invariant last == BookAfter(b, rows[..i]) && timeline == Timeline(b, rows[..i])
        invariant GapsCounted(gapCount, old(gapCount), b, rows[..i], maxGap)
      {
        last := ReplayNext(book, rows, i, maxGap, b, old(gapCount));
        TimelineStep(b, rows, i);
        timeline := timeline + [last];
      }
      assert rows[..|rows|] == rows;
    }

    /** Row `i` of a replay from book `b` that had counted `gaps` long gaps before. */
    method ReplayNext(book: TokenBook, rows: seq<Row>, i: nat, maxGap: nat, ghost b: Book, ghost gaps: nat) returns (next: Book)
      requires i < |rows| && book.Value() == BookAfter(b, rows[..i])
      requires GapsCounted(gapCount, gaps, b, rows[..i], maxGap)
      modifies this`gapCount, book
      ensures book.Value() == next == BookAfter(b, rows[..i + 1])
      ensures GapsCounted(gapCount, gaps, b, rows[..i + 1], maxGap)
    {
      ReplayStep(b, rows, i, maxGap, gaps);
      next := ReplayRow(book, rows[i], maxGap);
    }

    method ReplayRow(book: TokenBook, row: Row, maxGap: nat) returns (next: Book)
      modifies this`gapCount, book
      ensures book.Value() == next == ApplyEvent(old(book.Value()), row)
      ensures gapCount == SaturateU64(old(gapCount) + if Gap(old(book.Value()), row) > maxGap then 1 else 0)
    {
      var before := book.Copy();
      NoteGap(Gap(before, row), maxGap);
      book.ApplyL2Event(row);
      next := book.Copy();
    }

    method Token(token: TokenId, snap: Option<Snap>, rows: seq<Row>, maxGap: nat)
      modifies this
      ensures Value() == ReconstructToken(old(Value()), token, snap, rows, maxGap)
    {
      if snap.None? {
        reasons := reasons + [MissingSnapshot(token)];
        return;
      }
      var last, timeline := Replay(snap.value, rows, maxGap);
      if last.crossed {
        reasons := reasons + [CrossedBook(token)];
        return;
      }
      books := books[token := last];
      timelines := timelines[token := timeline];
    }

    method All(input: Input)
      requires Value() == START
      modifies this
      ensures Value() == Reconstruct(input)
    {
      for i := 0 to |input.tokens|
        invariant Value() == ReconstructTokens(input, i)
      {
        var t := input.tokens[i];
        TokensStep(input, i);
        Token(t, LatestSnap(input.snaps, t), RowsFor(input.rows, t), input.maxGapMs);
      }
      if gapCount > 0 {
        reasons := reasons + [GapTooLong];
      }
    }
  }
}
