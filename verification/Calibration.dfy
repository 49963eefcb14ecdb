/** Calibration buckets with their incrementally maintained fallback aggregates. */
module Calibration {
  import opened MachineInts
  import opened Sums

  datatype Category = Geopolitics | Sports | Politics | Finance | Tech | Culture | Weather | Economics | Crypto | Other

  datatype Zone = Z95 | Z96 | Z97 | Z98 | Z99

  datatype Duration = Short | Medium | Long | VeryLong

  datatype Key = Key(category: Category, zone: Zone, duration: Duration)

  datatype Entry = Entry(total: u32, correct: u32, alpha: real, beta: real)

  /** The two secondary indexes share one map: tier 2 is keyed by category and zone, tier 3 by zone. */
  datatype Group = CategoryZone(category: Category, zone: Zone) | AnyCategory(zone: Zone)

  datatype Aggregate = Aggregate(total: u32, correct: u32, alpha: real, beta: real, buckets: nat)

  datatype Config = Config(minSamples: u32, bootstrapAlpha: real, bootstrapBeta: real)

  /** The answer to a lookup, with the tier that produced it. */
  datatype Found = Found(key: Key, total: u32, correct: u32, alpha: real, beta: real, tier: nat)

  type Buckets = map<Key, Entry>
  type Indexes = map<Group, Aggregate>

  datatype Calibrator = Calibrator(buckets: Buckets, indexes: Indexes, config: Config)

  function Tier2(k: Key): Group { CategoryZone(k.category, k.zone) }

  function Tier3(k: Key): Group { AnyCategory(k.zone) }

  predicate Matches(g: Group, k: Key) { g == Tier2(k) || g == Tier3(k) }

  // ── Operations on the value ────────────────────────────────────────────────

  function Merged(a: Aggregate, e: Entry): Aggregate {
    var n := a.buckets;
    Aggregate(
      SaturateU32(a.total + e.total),
      SaturateU32(a.correct + e.correct),
      (a.alpha * (n as real) + e.alpha) / ((n + 1) as real),
      (a.beta * (n as real) + e.beta) / ((n + 1) as real),
      n + 1)
  }

  function MergeInto(ix: Indexes, g: Group, e: Entry): Indexes {
    ix[g := if g in ix then Merged(ix[g], e) else Aggregate(e.total, e.correct, e.alpha, e.beta, 1)]
  }

  function AddEntry(ix: Indexes, k: Key, e: Entry): Indexes { MergeInto(MergeInto(ix, Tier2(k), e), Tier3(k), e) }

  function Bumped(a: Aggregate, correct: bool): Aggregate {
    a.(total := SaturateU32(a.total + 1), correct := if correct then SaturateU32(a.correct + 1) else a.correct)
  }

  function BumpOne(ix: Indexes, g: Group, correct: bool): Indexes {
    if g in ix then ix[g := Bumped(ix[g], correct)] else ix
  }

  function Bump(ix: Indexes, k: Key, correct: bool): Indexes { BumpOne(BumpOne(ix, Tier2(k), correct), Tier3(k), correct) }

  function BumpEntry(e: Entry, correct: bool): Entry {
    e.(total := SaturateU32(e.total + 1), correct := if correct then SaturateU32(e.correct + 1) else e.correct)
  }

  function Record(c: Calibrator, k: Key, correct: bool): Calibrator {
    if k in c.buckets
    then c.(buckets := c.buckets[k := BumpEntry(c.buckets[k], correct)], indexes := Bump(c.indexes, k, correct))
    else
      var e := Entry(1, if correct then 1 else 0, c.config.bootstrapAlpha, c.config.bootstrapBeta);
      c.(buckets := c.buckets[k := e], indexes := AddEntry(c.indexes, k, e))
  }

  /** Later entries of the same bucket overwrite earlier ones. */
  function Collect(es: seq<(Key, Entry)>): Buckets {
    if es == [] then map[] else Collect(es[..|es| - 1])[es[|es| - 1].0 := es[|es| - 1].1]
  }

  /** Index the buckets in the order `ks` in which the map is visited. */
  function Rebuild(bs: Buckets, ks: seq<Key>): Indexes
    requires forall i :: 0 <= i < |ks| ==> ks[i] in bs
  {
    if ks == [] then map[] else AddEntry(Rebuild(bs, ks[..|ks| - 1]), ks[|ks| - 1], bs[ks[|ks| - 1]])
  }

  /** `ks` visits every bucket once. */
  ghost predicate Visits(ks: seq<Key>, bs: Buckets) {
    && (forall i :: 0 <= i < |ks| ==> ks[i] in bs)
    && (forall i, j :: 0 <= i < j < |ks| ==> ks[i] != ks[j])
    && (forall k :: k in bs ==> k in ks)
  }

  /** Rewriting the priors of sparse buckets, which leaves the indexes alone. */
  function UpdatePriors(c: Calibrator, minSamples: u32, alpha: real, beta: real): Calibrator {
    c.(buckets := map k | k in c.buckets ::
         if c.buckets[k].total < minSamples then c.buckets[k].(alpha := alpha, beta := beta) else c.buckets[k])
  }

  function Lookup(c: Calibrator, k: Key): Found {
    if k in c.buckets && c.buckets[k].total >= c.config.minSamples then
      var e := c.buckets[k];
      Found(k, e.total, e.correct, e.alpha, e.beta, 1)
    else if Tier2(k) in c.indexes && c.indexes[Tier2(k)].total >= c.config.minSamples then
      var a := c.indexes[Tier2(k)];
      Found(k, a.total, a.correct, a.alpha, a.beta, 2)
    else if Tier3(k) in c.indexes && c.indexes[Tier3(k)].total >= c.config.minSamples then
      var a := c.indexes[Tier3(k)];
      Found(k, a.total, a.correct, a.alpha, a.beta, 3)
    else Found(k, 0, 0, c.config.bootstrapAlpha, c.config.bootstrapBeta, 4)
  }

  // ── Aggregation from scratch ───────────────────────────────────────────────

  datatype Field = Total | Correct | Alpha | Beta

  function Get(e: Entry, f: Field): real {
    match f
    case Total => e.total as real
    case Correct => e.correct as real
    case Alpha => e.alpha
    case Beta => e.beta
  }

  ghost function Members(bs: Buckets, g: Group): Buckets { map k | k in bs && Matches(g, k) :: bs[k] }

  ghost function Column(m: Buckets, f: Field): map<Key, real> { map k | k in m :: Get(m[k], f) }

  ghost function ColumnSum(m: Buckets, f: Field): real { Sum(Column(m, f)) }

  ghost function GroupSum(bs: Buckets, g: Group, f: Field): real { ColumnSum(Members(bs, g), f) }

  ghost function GroupSize(bs: Buckets, g: Group): nat { |Members(bs, g)| }

  /** The clauses of agreement for the members `m` of one group. */
  ghost predicate Counted(m: Buckets, a: Aggregate) {
    && |m| == a.buckets
    && a.total as real == MinR(ColumnSum(m, Total), U32_MAX as real)
    && a.correct as real == MinR(ColumnSum(m, Correct), U32_MAX as real)
  }

  ghost predicate Averaged(m: Buckets, a: Aggregate) {
    && a.alpha * (a.buckets as real) == ColumnSum(m, Alpha)
    && a.beta * (a.buckets as real) == ColumnSum(m, Beta)
  }

  /** An indexed group has members, and the aggregate's counts are their saturated sums. */
  ghost predicate CountsAgree(bs: Buckets, ix: Indexes, g: Group) {
    if g in ix then ix[g].buckets > 0 && Counted(Members(bs, g), ix[g]) else Members(bs, g) == map[]
  }

  /** The aggregate's priors are the exact mean of the bucket priors. */
  ghost predicate MeansAgree(bs: Buckets, ix: Indexes, g: Group) { g in ix ==> Averaged(Members(bs, g), ix[g]) }

  ghost predicate Agrees(bs: Buckets, ix: Indexes) {
    forall g :: CountsAgree(bs, ix, g) && MeansAgree(bs, ix, g)
  }

  // ── Preservation ───────────────────────────────────────────────────────────

  lemma MembersUpdate(bs: Buckets, k: Key, e: Entry, g: Group)
    ensures Members(bs[k := e], g) == if Matches(g, k) then Members(bs, g)[k := e] else Members(bs, g)
    ensures k in Members(bs, g) <==> k in bs && Matches(g, k)
  {
  }

  lemma ColumnInsert(m: Buckets, k: Key, e: Entry, f: Field)
    requires k !in m
    ensures ColumnSum(m[k := e], f) == ColumnSum(m, f) + Get(e, f)
    ensures |m[k := e]| == |m| + 1
  {
    SumInsert(Column(m, f), k, Get(e, f));
    assert Column(m[k := e], f) == Column(m, f)[k := Get(e, f)];
  }

  lemma ColumnReplace(m: Buckets, k: Key, e: Entry, f: Field)
    requires k in m
    ensures ColumnSum(m[k := e], f) == ColumnSum(m, f) + Get(e, f) - Get(m[k], f)
    ensures |m[k := e]| == |m|
  {
    SumInsert(Column(m, f), k, Get(e, f));
    assert Column(m[k := e], f) == Column(m, f)[k := Get(e, f)];
    assert m[k := e].Keys == m.Keys;
    assert |m[k := e].Keys| == |m.Keys|;
  }

  lemma CountColumn(m: Buckets, f: Field)
    requires f.Total? || f.Correct?
    ensures ColumnSum(m, f) >= 0.0
    ensures forall k :: k in m ==> Get(m[k], f) <= ColumnSum(m, f)
  {
    SumNonNegative(Column(m, f));
    forall k | k in m ensures Get(m[k], f) <= ColumnSum(m, f) {
      assert Column(m, f)[k] == Get(m[k], f);
    }
  }

  lemma SaturatingSum(x: u32, s: real, y: u32)
    requires s >= 0.0 && x as real == MinR(s, U32_MAX as real)
    ensures SaturateU32(x + y) as real == MinR(s + (y as real), U32_MAX as real)
  {
  }

  lemma MeanStep(mean: real, n: nat, sum: real, x: real)
    requires mean * (n as real) == sum
    ensures (mean * (n as real) + x) / ((n + 1) as real) * ((n + 1) as real) == sum + x
  {
  }

  lemma EmptyColumn(f: Field)
    ensures ColumnSum(map[], f) == 0.0
  {
    assert Column(map[], f) == map[];
  }

  lemma MergedCounts(m: Buckets, a: Aggregate, k: Key, e: Entry)
    requires k !in m && Counted(m, a)
    ensures Counted(m[k := e], Merged(a, e))
  {
    ColumnInsert(m, k, e, Total);
    ColumnInsert(m, k, e, Correct);
    CountColumn(m, Total);
    CountColumn(m, Correct);
    SaturatingSum(a.total, ColumnSum(m, Total), e.total);
    SaturatingSum(a.correct, ColumnSum(m, Correct), e.correct);
  }

  lemma MergedMean(a: Aggregate, e: Entry, alphas: real, betas: real)
    requires a.alpha * (a.buckets as real) == alphas && a.beta * (a.buckets as real) == betas
    ensures Merged(a, e).alpha * (Merged(a, e).buckets as real) == alphas + e.alpha
    ensures Merged(a, e).beta * (Merged(a, e).buckets as real) == betas + e.beta
  {
    MeanStep(a.alpha, a.buckets, alphas, e.alpha);
    MeanStep(a.beta, a.buckets, betas, e.beta);
  }

  lemma MergedMeans(m: Buckets, a: Aggregate, k: Key, e: Entry)
    requires k !in m && Averaged(m, a)
    ensures Averaged(m[k := e], Merged(a, e))
  {
    ColumnInsert(m, k, e, Alpha);
    ColumnInsert(m, k, e, Beta);
    MergedMean(a, e, ColumnSum(m, Alpha), ColumnSum(m, Beta));
  }

  lemma FirstMember(k: Key, e: Entry)
    ensures Counted(map[k := e], Aggregate(e.total, e.correct, e.alpha, e.beta, 1))
    ensures Averaged(map[k := e], Aggregate(e.total, e.correct, e.alpha, e.beta, 1))
  {
    var none: Buckets := map[];
    ColumnInsert(none, k, e, Total);
    ColumnInsert(none, k, e, Correct);
    ColumnInsert(none, k, e, Alpha);
    ColumnInsert(none, k, e, Beta);
    EmptyColumn(Total);
    EmptyColumn(Correct);
    EmptyColumn(Alpha);
    EmptyColumn(Beta);
    assert none[k := e] == map[k := e];
  }

  /** Merging a new bucket into the aggregate of a group it belongs to. */
  lemma MergeAgrees(bs: Buckets, ix: Indexes, g: Group, k: Key, e: Entry)
    requires k !in bs && Matches(g, k) && CountsAgree(bs, ix, g) && MeansAgree(bs, ix, g)
    ensures var a := if g in ix then Merged(ix[g], e) else Aggregate(e.total, e.correct, e.alpha, e.beta, 1);
            Counted(Members(bs[k := e], g), a) && Averaged(Members(bs[k := e], g), a) && a.buckets > 0
  {
    MembersUpdate(bs, k, e, g);
    var m := Members(bs, g);
    if g in ix {
      MergedCounts(m, ix[g], k, e);
      MergedMeans(m, ix[g], k, e);
    } else {
      assert m == map[];
      FirstMember(k, e);
    }
  }

  lemma AddEntryAt(ix: Indexes, k: Key, e: Entry, g: Group)
    ensures var ix' := AddEntry(ix, k, e);
      && (g in ix' <==> g in ix || Matches(g, k))
      && (Matches(g, k) && g in ix ==> ix'[g] == Merged(ix[g], e))
      && (Matches(g, k) && g !in ix ==> ix'[g] == Aggregate(e.total, e.correct, e.alpha, e.beta, 1))
      && (!Matches(g, k) && g in ix ==> ix'[g] == ix[g])
  {
  }

  lemma AddEntryAgrees(bs: Buckets, ix: Indexes, k: Key, e: Entry)
    requires k !in bs && Agrees(bs, ix)
    ensures Agrees(bs[k := e], AddEntry(ix, k, e))
  {
    var ix' := AddEntry(ix, k, e);
    var bs' := bs[k := e];
    forall g ensures CountsAgree(bs', ix', g) && MeansAgree(bs', ix', g) {
      assert CountsAgree(bs, ix, g) && MeansAgree(bs, ix, g);
      AddEntryAt(ix, k, e, g);
      MembersUpdate(bs, k, e, g);
      if Matches(g, k) {
        MergeAgrees(bs, ix, g, k, e);
      }
    }
  }

  /** A bucket already at `u32::MAX` no longer grows, and then the aggregate is saturated too. */
  lemma BumpCounts(total: u32, agg: u32, sum: real)
    requires total as real <= sum && agg as real == MinR(sum, U32_MAX as real)
    ensures SaturateU32(agg + 1) as real
      == MinR(sum + (SaturateU32(total + 1) as real) - (total as real), U32_MAX as real)
  {
  }

  lemma BumpedCounts(m: Buckets, a: Aggregate, k: Key, correct: bool)
    requires k in m && Counted(m, a)
    ensures Counted(m[k := BumpEntry(m[k], correct)], Bumped(a, correct))
  {
    var e := BumpEntry(m[k], correct);
    ColumnReplace(m, k, e, Total);
    ColumnReplace(m, k, e, Correct);
    CountColumn(m, Total);
    CountColumn(m, Correct);
    BumpCounts(m[k].total, a.total, ColumnSum(m, Total));
    BumpCounts(m[k].correct, a.correct, ColumnSum(m, Correct));
  }

  lemma BumpedMeans(m: Buckets, a: Aggregate, k: Key, correct: bool)
    requires k in m && Averaged(m, a)
    ensures Averaged(m[k := BumpEntry(m[k], correct)], Bumped(a, correct))
  {
    ColumnReplace(m, k, BumpEntry(m[k], correct), Alpha);
    ColumnReplace(m, k, BumpEntry(m[k], correct), Beta);
  }

  lemma BumpAgrees(bs: Buckets, ix: Indexes, k: Key, correct: bool)
    requires k in bs && Agrees(bs, ix)
    ensures Agrees(bs[k := BumpEntry(bs[k], correct)], Bump(ix, k, correct))
  {
    var bs', ix' := bs[k := BumpEntry(bs[k], correct)], Bump(ix, k, correct);
    forall g ensures CountsAgree(bs', ix', g) && MeansAgree(bs', ix', g) {
      assert CountsAgree(bs, ix, g) && MeansAgree(bs, ix, g);
      var m := Members(bs, g);
      MembersUpdate(bs, k, BumpEntry(bs[k], correct), g);
      if Matches(g, k) {
        assert m != map[];
        BumpedCounts(m, ix[g], k, correct);
        BumpedMeans(m, ix[g], k, correct);
        assert ix'[g] == Bumped(ix[g], correct);
      } else {
        assert g in ix ==> ix'[g] == ix[g];
      }
    }
  }

  /** Recording an outcome keeps every aggregate in agreement with its buckets. */
  lemma RecordAgrees(c: Calibrator, k: Key, correct: bool)
    requires Agrees(c.buckets, c.indexes)
    ensures Agrees(Record(c, k, correct).buckets, Record(c, k, correct).indexes)
  {
    if k in c.buckets {
      BumpAgrees(c.buckets, c.indexes, k, correct);
    } else {
      AddEntryAgrees(c.buckets, c.indexes, k, Record(c, k, correct).buckets[k]);
    }
  }

  ghost function Restrict(bs: Buckets, ks: seq<Key>): Buckets { map k | k in bs && k in ks :: bs[k] }

  lemma {:induction false} RebuildAgrees(bs: Buckets, ks: seq<Key>)
    requires forall i :: 0 <= i < |ks| ==> ks[i] in bs
    requires forall i, j :: 0 <= i < j < |ks| ==> ks[i] != ks[j]
    ensures Agrees(Restrict(bs, ks), Rebuild(bs, ks))
  {
    if ks == [] {
      assert Restrict(bs, ks) == map[];
      assert forall g :: Members(map[], g) == map[];
    } else {
      var init, k := ks[..|ks| - 1], ks[|ks| - 1];
      RebuildAgrees(bs, init);
      AddEntryAgrees(Restrict(bs, init), Rebuild(bs, init), k, bs[k]);
      assert Restrict(bs, ks) == Restrict(bs, init)[k := bs[k]];
    }
  }

  /** Rebuilding agrees with aggregation from scratch whatever order the buckets are visited in. */
  lemma RebuildCorrect(bs: Buckets, ks: seq<Key>)
    requires Visits(ks, bs)
    ensures Agrees(bs, Rebuild(bs, ks))
  {
    RebuildAgrees(bs, ks);
    assert Restrict(bs, ks) == bs;
  }

  // ── Runs ───────────────────────────────────────────────────────────────────

  datatype Op =
    | LoadOp(entries: seq<(Key, Entry)>, order: seq<Key>)
    | RecordOp(key: Key, correct: bool)
    | ReloadOp(config: Config)
    | PriorsOp(minSamples: u32, alpha: real, beta: real)

  ghost predicate PossibleOp(op: Op) { op.LoadOp? ==> Visits(op.order, Collect(op.entries)) }

  ghost function Step(c: Calibrator, op: Op): Calibrator
    requires PossibleOp(op)
  {
    match op
    case LoadOp(es, order) => c.(buckets := Collect(es), indexes := Rebuild(Collect(es), order))
    case RecordOp(k, correct) => Record(c, k, correct)
    case ReloadOp(config) => c.(config := config)
    case PriorsOp(min, alpha, beta) => UpdatePriors(c, min, alpha, beta)
  }

  ghost function Run(c: Calibrator, ops: seq<Op>): Calibrator
    requires forall i :: 0 <= i < |ops| ==> PossibleOp(ops[i])
  {
    if ops == [] then c else Step(Run(c, ops[..|ops| - 1]), ops[|ops| - 1])
  }

  /** Through every run of loads, records, replacements and configuration reloads, each aggregate is
      the saturated sum and the exact mean of its buckets. */
  lemma {:induction false} IndexesAgree(c: Calibrator, ops: seq<Op>)
    requires Agrees(c.buckets, c.indexes)
    requires forall i :: 0 <= i < |ops| ==> PossibleOp(ops[i]) && !ops[i].PriorsOp?
    ensures Agrees(Run(c, ops).buckets, Run(c, ops).indexes)
  {
    if ops != [] {
      IndexesAgree(c, ops[..|ops| - 1]);
      match ops[|ops| - 1] {
        case LoadOp(es, order) => RebuildCorrect(Collect(es), order);
        case RecordOp(k, correct) => RecordAgrees(Run(c, ops[..|ops| - 1]), k, correct);
        case ReloadOp(_) =>
      }
    }
  }

  lemma RecordCounts(c: Calibrator, k: Key, correct: bool, g: Group)
    requires CountsAgree(c.buckets, c.indexes, g)
    ensures CountsAgree(Record(c, k, correct).buckets, Record(c, k, correct).indexes, g)
  {
    if k in c.buckets { BumpKeepsCounts(c, k, correct, g); } else { FreshKeepsCounts(c, k, correct, g); }
  }

  lemma BumpAt(ix: Indexes, k: Key, correct: bool, g: Group)
    ensures var ix' := Bump(ix, k, correct);
      && (g in ix' <==> g in ix)
      && (g in ix ==> ix'[g] == if Matches(g, k) then Bumped(ix[g], correct) else ix[g])
  {
  }

  lemma BumpKeepsCounts(c: Calibrator, k: Key, correct: bool, g: Group)
    requires CountsAgree(c.buckets, c.indexes, g) && k in c.buckets
    ensures CountsAgree(Record(c, k, correct).buckets, Record(c, k, correct).indexes, g)
  {
    MembersUpdate(c.buckets, k, BumpEntry(c.buckets[k], correct), g);
    BumpAt(c.indexes, k, correct, g);
    if Matches(g, k) {
      assert k in Members(c.buckets, g);
      BumpedCounts(Members(c.buckets, g), c.indexes[g], k, correct);
    }
  }

  lemma FreshKeepsCounts(c: Calibrator, k: Key, correct: bool, g: Group)
    requires CountsAgree(c.buckets, c.indexes, g) && k !in c.buckets
    ensures CountsAgree(Record(c, k, correct).buckets, Record(c, k, correct).indexes, g)
  {
    var e := Record(c, k, correct).buckets[k];
    MembersUpdate(c.buckets, k, e, g);
    AddEntryAt(c.indexes, k, e, g);
    if Matches(g, k) {
      if g in c.indexes {
        MergedCounts(Members(c.buckets, g), c.indexes[g], k, e);
      } else {
        FirstMember(k, e);
      }
    }
  }

  /** The counts stay in agreement through prior updates as well. */
  lemma {:induction false} CountsAlwaysAgree(c: Calibrator, ops: seq<Op>, g: Group)
    requires CountsAgree(c.buckets, c.indexes, g)
    requires forall i :: 0 <= i < |ops| ==> PossibleOp(ops[i])
    ensures CountsAgree(Run(c, ops).buckets, Run(c, ops).indexes, g)
  {
    if ops != [] {
      var before := Run(c, ops[..|ops| - 1]);
      CountsAlwaysAgree(c, ops[..|ops| - 1], g);
      match ops[|ops| - 1] {
        case LoadOp(es, order) => RebuildCorrect(Collect(es), order);
        case RecordOp(k, correct) => RecordCounts(before, k, correct, g);
        case ReloadOp(_) =>
        case PriorsOp(min, alpha, beta) => CountsUntouched(before, g, min, alpha, beta);
      }
    }
  }

  // ── Lookups ────────────────────────────────────────────────────────────────

  /** The answer of a group computed from its buckets alone. */
  ghost predicate IsGroupAnswer(bs: Buckets, g: Group, r: Found) {
    var a := Aggregate(r.total, r.correct, r.alpha, r.beta, GroupSize(bs, g));
    Counted(Members(bs, g), a) && Averaged(Members(bs, g), a)
  }

  /** The group has buckets, and enough samples in them. */
  ghost predicate Credible(bs: Buckets, g: Group, min: u32) {
    GroupSize(bs, g) > 0 && GroupSum(bs, g, Total) >= min as real
  }

  lemma CredibleIff(c: Calibrator, g: Group)
    requires Agrees(c.buckets, c.indexes)
    ensures g in c.indexes && c.indexes[g].total >= c.config.minSamples
      <==> Credible(c.buckets, g, c.config.minSamples)
    ensures g in c.indexes ==>
      Counted(Members(c.buckets, g), c.indexes[g]) && Averaged(Members(c.buckets, g), c.indexes[g])
  {
    assert CountsAgree(c.buckets, c.indexes, g) && MeansAgree(c.buckets, c.indexes, g);
  }

  predicate ExactCredible(c: Calibrator, k: Key) { k in c.buckets && c.buckets[k].total >= c.config.minSamples }

  /** `r` answers from the lowest tier with enough samples, with that tier's saturated counts and mean priors
      computed from the buckets, and from the bootstrap prior when no tier has. */
  ghost predicate IsScan(c: Calibrator, k: Key, r: Found) {
    var bs, min := c.buckets, c.config.minSamples;
    if ExactCredible(c, k) then r == Found(k, bs[k].total, bs[k].correct, bs[k].alpha, bs[k].beta, 1)
    else if Credible(bs, Tier2(k), min) then r.key == k && r.tier == 2 && IsGroupAnswer(bs, Tier2(k), r)
    else if Credible(bs, Tier3(k), min) then r.key == k && r.tier == 3 && IsGroupAnswer(bs, Tier3(k), r)
    else r == Found(k, 0, 0, c.config.bootstrapAlpha, c.config.bootstrapBeta, 4)
  }

  /** A lookup is a scan of the buckets. */
  lemma LookupIsScan(c: Calibrator, k: Key)
    requires Agrees(c.buckets, c.indexes)
    ensures IsScan(c, k, Lookup(c, k))
  {
    CredibleIff(c, Tier2(k));
    CredibleIff(c, Tier3(k));
  }

  // ── Prior updates ──────────────────────────────────────────────────────────

  /** The group's buckets whose priors an update rewrites. */
  ghost function Sparse(bs: Buckets, g: Group, min: u32): Buckets {
    map k | k in Members(bs, g) && bs[k].total < min :: bs[k]
  }

  /** The old priors of the sparse buckets already sum to what the update writes. */
  ghost predicate SparseMatch(bs: Buckets, g: Group, min: u32, alpha: real, beta: real) {
    var sparse := Sparse(bs, g, min);
    ColumnSum(sparse, Alpha) == Repeat(|sparse|, alpha) && ColumnSum(sparse, Beta) == Repeat(|sparse|, beta)
  }

  ghost function Pick(m: Buckets, keys: set<Key>): Buckets { map k | k in m && k in keys :: m[k] }

  lemma ColumnSplit(m: Buckets, keys: set<Key>, f: Field)
    ensures ColumnSum(m, f) == ColumnSum(Pick(m, keys), f) + ColumnSum(m - keys, f)
  {
    SumSplit(Column(m, f), keys);
    assert Column(m - keys, f) == Column(m, f) - keys;
    assert Column(Pick(m, keys), f) == map k | k in Column(m, f) && k in keys :: Column(m, f)[k];
  }

  lemma ColumnConstant(m: Buckets, f: Field, x: real)
    requires forall k :: k in m ==> Get(m[k], f) == x
    ensures ColumnSum(m, f) == Repeat(|m|, x)
  {
    SumConstant(Column(m, f), x);
    assert Column(m, f).Keys == m.Keys;
    assert |Column(m, f).Keys| == |m.Keys|;
  }

  lemma SameKeys(m: Buckets, n: Buckets)
    requires m.Keys == n.Keys
    ensures |m| == |n|
  {
    assert |m| == |m.Keys| && |n| == |n.Keys|;
  }

  /** Rewriting the priors of the buckets `keys` inside `m` moves a column sum by the difference. */
  lemma PriorSumMoves(m: Buckets, m': Buckets, keys: set<Key>, f: Field, x: real)
    requires m'.Keys == m.Keys
    requires forall k :: k in m && k in keys ==> Get(m'[k], f) == x
    requires m - keys == m' - keys
    ensures ColumnSum(m', f) == ColumnSum(m, f) - ColumnSum(Pick(m, keys), f) + Repeat(|Pick(m, keys)|, x)
  {
    ColumnSplit(m, keys, f);
    ColumnSplit(m', keys, f);
    ColumnConstant(Pick(m', keys), f, x);
    assert Pick(m', keys).Keys == Pick(m, keys).Keys;
    SameKeys(Pick(m', keys), Pick(m, keys));
  }

  lemma CountsUntouched(c: Calibrator, g: Group, min: u32, alpha: real, beta: real)
    ensures var m, m' := Members(c.buckets, g), Members(UpdatePriors(c, min, alpha, beta).buckets, g);
            Column(m', Total) == Column(m, Total) && Column(m', Correct) == Column(m, Correct) && |m'| == |m|
  {
    SameKeys(Members(c.buckets, g), Members(UpdatePriors(c, min, alpha, beta).buckets, g));
  }

  lemma PriorColumns(c: Calibrator, g: Group, min: u32, alpha: real, beta: real)
    ensures var m, m' := Members(c.buckets, g), Members(UpdatePriors(c, min, alpha, beta).buckets, g);
            var sparse := Sparse(c.buckets, g, min);
      && ColumnSum(m', Alpha) == ColumnSum(m, Alpha) - ColumnSum(sparse, Alpha) + Repeat(|sparse|, alpha)
      && ColumnSum(m', Beta) == ColumnSum(m, Beta) - ColumnSum(sparse, Beta) + Repeat(|sparse|, beta)
  {
    PriorColumn(c, g, min, alpha, beta, Alpha, alpha);
    PriorColumn(c, g, min, alpha, beta, Beta, beta);
  }

  lemma PriorColumn(c: Calibrator, g: Group, min: u32, alpha: real, beta: real, f: Field, x: real)
    requires (f == Alpha && x == alpha) || (f == Beta && x == beta)
    ensures var m, m' := Members(c.buckets, g), Members(UpdatePriors(c, min, alpha, beta).buckets, g);
            var sparse := Sparse(c.buckets, g, min);
            ColumnSum(m', f) == ColumnSum(m, f) - ColumnSum(sparse, f) + Repeat(|sparse|, x)
  {
    var m, m' := Members(c.buckets, g), Members(UpdatePriors(c, min, alpha, beta).buckets, g);
    var sparse := Sparse(c.buckets, g, min);
    assert m'.Keys == m.Keys;
    assert Pick(m, sparse.Keys) == sparse;
    assert m - sparse.Keys == m' - sparse.Keys;
    PriorSumMoves(m, m', sparse.Keys, f, x);
  }

  /** Rewriting sparse priors keeps every count in agreement.  It keeps a group's mean priors in
      agreement if and only if the sparse buckets' old priors already summed to the new ones; otherwise
      the aggregate shows stale priors until the next reload. */
  lemma PriorUpdateAgreement(c: Calibrator, g: Group, min: u32, alpha: real, beta: real)
    requires Agrees(c.buckets, c.indexes) && g in c.indexes
    ensures var c' := UpdatePriors(c, min, alpha, beta);
      && CountsAgree(c'.buckets, c'.indexes, g)
      && (MeansAgree(c'.buckets, c'.indexes, g) <==> SparseMatch(c.buckets, g, min, alpha, beta))
  {
    assert CountsAgree(c.buckets, c.indexes, g) && MeansAgree(c.buckets, c.indexes, g);
    CountsUntouched(c, g, min, alpha, beta);
    PriorMeans(c, g, min, alpha, beta);
  }

  lemma PriorMeans(c: Calibrator, g: Group, min: u32, alpha: real, beta: real)
    requires g in c.indexes && MeansAgree(c.buckets, c.indexes, g)
    ensures var c' := UpdatePriors(c, min, alpha, beta);
            MeansAgree(c'.buckets, c'.indexes, g) <==> SparseMatch(c.buckets, g, min, alpha, beta)
  {
    PriorColumns(c, g, min, alpha, beta);
    var m, m', sparse := Members(c.buckets, g), Members(UpdatePriors(c, min, alpha, beta).buckets, g), Sparse(c.buckets, g, min);
    AveragesMove(m, m', c.indexes[g], ColumnSum(sparse, Alpha), Repeat(|sparse|, alpha), ColumnSum(sparse, Beta),
                 Repeat(|sparse|, beta));
  }

  lemma AveragesMove(m: Buckets, m': Buckets, a: Aggregate, fromAlpha: real, toAlpha: real, fromBeta: real, toBeta: real)
    requires Averaged(m, a)
    requires ColumnSum(m', Alpha) == ColumnSum(m, Alpha) - fromAlpha + toAlpha
    requires ColumnSum(m', Beta) == ColumnSum(m, Beta) - fromBeta + toBeta
    ensures Averaged(m', a) <==> fromAlpha == toAlpha && fromBeta == toBeta
  {
  }

  /** The first bucket of a fresh calibrator is enough: any update to another prior leaves its group's mean
      stale. */
  lemma PriorUpdateGoesStale(config: Config, k: Key, correct: bool, min: u32, alpha: real, beta: real)
    requires min > 1 && alpha != config.bootstrapAlpha
    ensures var c := Record(Calibrator(map[], map[], config), k, correct);
            var c' := UpdatePriors(c, min, alpha, beta);
            Agrees(c.buckets, c.indexes) && !MeansAgree(c'.buckets, c'.indexes, Tier2(k))
  {
    var empty := Calibrator(map[], map[], config);
    var c := Record(empty, k, correct);
    var e := c.buckets[k];
    EmptyAgrees(empty);
    RecordAgrees(empty, k, correct);
    assert Sparse(c.buckets, Tier2(k), min) == map[k := e];
    FirstMember(k, e);
    OneColumn(k, e);
    assert Repeat(1, alpha) == alpha + Repeat(0, alpha);
    PriorUpdateAgreement(c, Tier2(k), min, alpha, beta);
  }

  lemma OneColumn(k: Key, e: Entry)
    ensures ColumnSum(map[k := e], Alpha) == e.alpha && |map[k := e]| == 1
  {
    ColumnInsert(map[], k, e, Alpha);
    EmptyColumn(Alpha);
  }

  lemma EmptyAgrees(c: Calibrator)
    requires c.buckets == map[] && c.indexes == map[]
    ensures Agrees(c.buckets, c.indexes)
  {
    forall g ensures Members(c.buckets, g) == map[] {
    }
  }

  lemma CredibleAfterPriors(c: Calibrator, g: Group, min: u32, alpha: real, beta: real)
    requires Agrees(c.buckets, c.indexes)
    ensures var c' := UpdatePriors(c, min, alpha, beta);
      && (Credible(c'.buckets, g, c.config.minSamples) <==> g in c.indexes && c.indexes[g].total >= c.config.minSamples)
      && (Credible(c'.buckets, g, c.config.minSamples) <==> Credible(c.buckets, g, c.config.minSamples))
  {
    CredibleIff(c, g);
    CountsUntouched(c, g, min, alpha, beta);
  }

  /** The aggregate still answers for its group exactly when the sparse priors match. */
  lemma GroupAnswerAfterPriors(c: Calibrator, g: Group, min: u32, alpha: real, beta: real, r: Found)
    requires Agrees(c.buckets, c.indexes) && g in c.indexes
    requires Reports(r, c.indexes[g])
    ensures IsGroupAnswer(UpdatePriors(c, min, alpha, beta).buckets, g, r) <==> SparseMatch(c.buckets, g, min, alpha, beta)
  {
    assert CountsAgree(c.buckets, c.indexes, g);
    CountsUntouched(c, g, min, alpha, beta);
    PriorUpdateAgreement(c, g, min, alpha, beta);
  }

  /** The group that answers a lookup, if one does. */
  ghost function AnsweringGroup(c: Calibrator, k: Key): Option<Group> {
    if ExactCredible(c, k) then None
    else if Credible(c.buckets, Tier2(k), c.config.minSamples) then Some(Tier2(k))
    else if Credible(c.buckets, Tier3(k), c.config.minSamples) then Some(Tier3(k))
    else None
  }

  /** A lookup after a prior update reports the answering group's aggregate. */
  predicate Reports(r: Found, a: Aggregate) {
    r.total == a.total && r.correct == a.correct && r.alpha == a.alpha && r.beta == a.beta
  }

  lemma AnsweredByGroup(c: Calibrator, k: Key, min: u32, alpha: real, beta: real)
    requires Agrees(c.buckets, c.indexes)
    ensures var c' := UpdatePriors(c, min, alpha, beta);
            var r, g := Lookup(c', k), AnsweringGroup(c, k);
            IsScan(c', k, r) <==> g.None? || IsGroupAnswer(c'.buckets, g.value, r)
  {
    CredibleAfterPriors(c, Tier2(k), min, alpha, beta);
    CredibleAfterPriors(c, Tier3(k), min, alpha, beta);
  }

  lemma GroupReported(c: Calibrator, k: Key, min: u32, alpha: real, beta: real)
    requires Agrees(c.buckets, c.indexes) && AnsweringGroup(c, k).Some?
    ensures var g := AnsweringGroup(c, k).value;
            g in c.indexes && Reports(Lookup(UpdatePriors(c, min, alpha, beta), k), c.indexes[g])
  {
    CredibleIndex(c, Tier2(k));
    CredibleIndex(c, Tier3(k));
  }

  lemma CredibleIndex(c: Calibrator, g: Group)
    requires Agrees(c.buckets, c.indexes)
    ensures Credible(c.buckets, g, c.config.minSamples) <==> g in c.indexes && c.indexes[g].total >= c.config.minSamples
  {
    CredibleIff(c, g);
  }

  /** After a prior update a lookup is still the scan of the buckets exactly when no group answers it, or the
      sparse priors of the answering group match the new ones. */
  lemma LookupAfterPriors(c: Calibrator, k: Key, min: u32, alpha: real, beta: real)
    requires Agrees(c.buckets, c.indexes)
    ensures var c' := UpdatePriors(c, min, alpha, beta);
            var r := Lookup(c', k);
            var g := AnsweringGroup(c, k);
            IsScan(c', k, r) <==> g.None? || SparseMatch(c.buckets, g.value, min, alpha, beta)
  {
    AnsweredByGroup(c, k, min, alpha, beta);
    var g := AnsweringGroup(c, k);
    if g.Some? {
      GroupReported(c, k, min, alpha, beta);
      GroupAnswerAfterPriors(c, g.value, min, alpha, beta, Lookup(UpdatePriors(c, min, alpha, beta), k));
    }
  }

  // ── The in-place object ────────────────────────────────────────────────────

  class ResolutionCalibrator {
    var buckets: Buckets
    var indexes: Indexes
    var config: Config

    ghost function Value(): Calibrator
      reads this
    {
      Calibrator(buckets, indexes, config)
    }

    ghost predicate Valid()
      reads this
    {
      Agrees(buckets, indexes)
    }

    constructor (c: Config)
      ensures Valid() && Value() == Calibrator(map[], map[], c)
    {
      buckets, indexes, config := map[], map[], c;
      new;
      RebuildCorrect(map[], []);
    }

    method Reload(c: Config)
      requires Valid()
      modifies this
      ensures Valid() && Value() == old(Value()).(config := c)
    {
      config := c;
    }

    method RecordOutcome(k: Key, correct: bool)
      requires Valid()
      modifies this
      ensures Valid() && Value() == Record(old(Value()), k, correct)
    {
      RecordAgrees(Value(), k, correct);
      if k in buckets {
        buckets := buckets[k := BumpEntry(buckets[k], correct)];
        BumpOutcome(Tier2(k), correct);
        BumpOutcome(Tier3(k), correct);
      } else {
        var e := Entry(1, if correct then 1 else 0, config.bootstrapAlpha, config.bootstrapBeta);
        buckets := buckets[k := e];
        MergeBucket(Tier2(k), e);
        MergeBucket(Tier3(k), e);
      }
    }

    method BumpOutcome(g: Group, correct: bool)
      modifies this`indexes
      ensures indexes == BumpOne(old(indexes), g, correct)
    {
      if g in indexes {
        var a := indexes[g];
        a := a.(total := SaturateU32(a.total + 1));
        if correct {
          a := a.(correct := SaturateU32(a.correct + 1));
        }
        indexes := indexes[g := a];
      }
    }

    method MergeBucket(g: Group, e: Entry)
      modifies this`indexes
      ensures indexes == MergeInto(old(indexes), g, e)
    {
      if g in indexes {
        indexes := indexes[g := Merged(indexes[g], e)];
      } else {
        indexes := indexes[g := Aggregate(e.total, e.correct, e.alpha, e.beta, 1)];
      }
    }

    /** Clear, load, then index the buckets in an arbitrary order. */
    method ReplaceEntries(es: seq<(Key, Entry)>)
      modifies this`buckets, this`indexes
      ensures Valid() && buckets == Collect(es)
    {
      buckets, indexes := map[], map[];
      for i := 0 to |es|
        invariant buckets == Collect(es[..i]) && indexes == map[]
      {
        assert es[..i + 1][..i] == es[..i];
        buckets := buckets[es[i].0 := es[i].1];
      }
      assert es[..|es|] == es;
      var rest := buckets.Keys;
      ghost var order: seq<Key> := [];
      while rest != {}
        invariant rest <= buckets.Keys && buckets == Collect(es)
        invariant forall k :: k in order <==> k in buckets.Keys - rest
        invariant forall i :: 0 <= i < |order| ==> order[i] in buckets
        invariant forall i, j :: 0 <= i < j < |order| ==> order[i] != order[j]
        invariant indexes == Rebuild(buckets, order)
        decreases |rest|
      {
        var k :| k in rest;
        MergeBucket(Tier2(k), buckets[k]);
        MergeBucket(Tier3(k), buckets[k]);
        ghost var before := order;
        assert k !in order;
        order := order + [k];
        assert order[..|order| - 1] == before;
        rest := rest - {k};
      }
      RebuildCorrect(buckets, order);
    }
  }
}
