/** Decoding on the raw columns: which entries become levels, at which micro-units, and which times the gaps
    between rows compare. */
module ReplayDecoding {
  import opened MachineInts
  import opened BookLevels
  import opened BookReplay

  // ── Units ──────────────────────────────────────────────────────────────────

  lemma Rescale(n: int, a: int, b: int)
    requires a > 0 && b > 0
    ensures b * a > 0 && n * a / (b * a) == n / b
  {
    var q, r := n / b, n % b;
    assert n == q * b + r;
    Product(b, a);
    Product(b - r, a);
    assert n * a == q * (b * a) + r * a by { Expand(q, b, r, a, n); }
    Within(q, r * a, b * a, n * a);
  }

  lemma Product(x: int, y: int)
    requires x > 0 && y > 0
    ensures x * y >= y
  {
  }

  lemma Expand(q: int, b: int, r: int, a: int, n: int)
    requires n == q * b + r
    ensures n * a == q * (b * a) + r * a
  {
    assert n * a == (q * b) * a + r * a;
    assert (q * b) * a == q * (b * a);
  }

  lemma Within(q: int, r: int, d: int, n: int)
    requires d > 0 && n == q * d + r && 0 <= r < d
    ensures n / d == q
  {
    var k := n / d;
    assert k * d <= n < (k + 1) * d;
    if k < q { Order(k + 1, q, d); assert false; }
    if k > q { Order(q + 1, k, d); assert false; }
  }

  lemma Order(x: int, y: int, d: int)
    requires x <= y && d > 0
    ensures x * d <= y * d
  {
  }

  /** A column entry is valid: a price in hundred-millionths above zero and at most one, and no negative size. */
  predicate ValidEntry(price: int, size: int) { 0 < price <= 100_000_000 && size >= 0 }

  /** A valid entry stores its price to millionths and its size to millionths of a share, both rounded down. */
  lemma EntryInMicros(price: int, size: int)
    requires ValidEntry(price, size) && size / 1_000_000_000_000 <= I64_MAX
    ensures var c := ColumnChange(price, size);
            TryLevel(c.price, c.size) == Some(Level(price / 100, size / 1_000_000_000_000))
  {
    Rescale(price, UNITS_PER_COLUMN_PRICE, 100);
    Rescale(size, UNITS_PER_COLUMN_SIZE, 1_000_000_000_000);
  }

  lemma KeepsIff(price: int, size: int, zeroDeletes: bool)
    ensures KeepsChange(ColumnChange(price, size), zeroDeletes) <==> ValidEntry(price, size) && (zeroDeletes || size > 0)
  {
  }

  // ── Which entries ──────────────────────────────────────────────────────────

  /** Entry `i` of the columns survives. */
  predicate Survives(ps: seq<int>, ss: seq<int>, zeroDeletes: bool, i: nat)
    requires i < |ps| && i < |ss|
  {
    ValidEntry(ps[i], ss[i]) && (zeroDeletes || ss[i] > 0)
  }

  /** How many of the first `n` entries survive. */
  function Survivors(ps: seq<int>, ss: seq<int>, zeroDeletes: bool, n: nat): nat
    requires n <= |ps| && n <= |ss|
  {
    if n == 0 then 0 else Survivors(ps, ss, zeroDeletes, n - 1) + if Survives(ps, ss, zeroDeletes, n - 1) then 1 else 0
  }

  lemma {:induction false} ChangesCount(ps: seq<int>, ss: seq<int>, zeroDeletes: bool, n: nat)
    requires n <= |ps| && n <= |ss|
    ensures |ColumnChanges(ps, ss, zeroDeletes, n)| == Survivors(ps, ss, zeroDeletes, n)
  {
    if n > 0 {
      ChangesCount(ps, ss, zeroDeletes, n - 1);
      KeepsIff(ps[n - 1], ss[n - 1], zeroDeletes);
    }
  }

  lemma {:induction false} ChangeAt(ps: seq<int>, ss: seq<int>, zeroDeletes: bool, n: nat, i: nat)
    requires i < n <= |ps| && n <= |ss| && Survives(ps, ss, zeroDeletes, i)
    ensures var cs, k := ColumnChanges(ps, ss, zeroDeletes, n), Survivors(ps, ss, zeroDeletes, i);
            k < |cs| && cs[k] == ColumnChange(ps[i], ss[i])
  {
    KeepsIff(ps[n - 1], ss[n - 1], zeroDeletes);
    if i < n - 1 { ChangeAt(ps, ss, zeroDeletes, n - 1, i); } else { ChangesCount(ps, ss, zeroDeletes, n - 1); }
  }

  /** The changes of a row are exactly the surviving entries of both columns up to the shorter one, in order. */
  lemma ColumnsDecode(ps: seq<int>, ss: seq<int>, zeroDeletes: bool, i: nat)
    requires i < |ps| && i < |ss|
    ensures |Changes(ps, ss, zeroDeletes)| == Survivors(ps, ss, zeroDeletes, if |ps| < |ss| then |ps| else |ss|)
    ensures Survives(ps, ss, zeroDeletes, i) ==>
      var cs, k := Changes(ps, ss, zeroDeletes), Survivors(ps, ss, zeroDeletes, i);
      k < |cs| && cs[k] == ColumnChange(ps[i], ss[i])
  {
    ChangesCount(ps, ss, zeroDeletes, Shorter(ps, ss));
    if Survives(ps, ss, zeroDeletes, i) { ChangeAt(ps, ss, zeroDeletes, Shorter(ps, ss), i); }
  }

  // ── Gaps ───────────────────────────────────────────────────────────────────

  /** The instant the row is compared with: that of the row before it, or of the bootstrap. */
  function Before(b: Book, rows: seq<Row>, i: nat): int
    requires i < |rows|
  {
    if i == 0 then b.eventTime else rows[i - 1].eventTime
  }

  lemma TimeAfter(b: Book, rows: seq<Row>)
    ensures BookAfter(b, rows).eventTime == if rows == [] then b.eventTime else rows[|rows| - 1].eventTime
  {
  }

  /** The gap at a row is its distance from the row before, counted as none when time runs backwards. */
  lemma GapIsDistance(b: Book, rows: seq<Row>, i: nat)
    requires i < |rows|
    ensures var d := rows[i].eventTime - Before(b, rows, i); GapAt(b, rows, i) == if d > 0 then d else 0
  {
    TimeAfter(b, rows[..i]);
  }

  /** A book records the largest gap of its rows. */
  lemma {:induction false} LargestGapRecorded(b: Book, rows: seq<Row>)
    ensures BookAfter(b, rows).maxGapMs >= b.maxGapMs
    ensures forall i :: 0 <= i < |rows| ==> GapAt(b, rows, i) <= BookAfter(b, rows).maxGapMs
    ensures BookAfter(b, rows).maxGapMs == b.maxGapMs || exists i :: 0 <= i < |rows| && GapAt(b, rows, i) == BookAfter(b, rows).maxGapMs
  {
    if rows != [] {
      var n := |rows| - 1;
      var init := rows[..n];
      LargestGapRecorded(b, init);
      forall i | 0 <= i < n ensures GapAt(b, rows, i) == GapAt(b, init, i) {
        assert init[..i] == rows[..i];
      }
      assert GapAt(b, rows, n) <= BookAfter(b, rows).maxGapMs;
    }
  }
}
