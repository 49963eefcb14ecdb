/** What the calibration buckets hold after a run, counted on the operations: loads set them, records count in
    them, prior updates rewrite the sparse ones. */
module CalibrationCounts {
  import opened MachineInts
  import opened Calibration

  ghost predicate PossibleOps(ops: seq<Op>) { forall i :: 0 <= i < |ops| ==> PossibleOp(ops[i]) }

  /** The buckets of the last load, or those of the start. */
  ghost function Base(bs: Buckets, ops: seq<Op>): Buckets {
    if ops == [] then bs
    else
      match ops[|ops| - 1]
      case LoadOp(es, _) => Collect(es)
      case _ => Base(bs, ops[..|ops| - 1])
  }

  /** Outcomes recorded for the bucket since the last load. */
  function Records(ops: seq<Op>, k: Key): nat {
    if ops == [] then 0
    else
      match ops[|ops| - 1]
      case LoadOp(_, _) => 0
      case RecordOp(j, _) => Records(ops[..|ops| - 1], k) + if j == k then 1 else 0
      case _ => Records(ops[..|ops| - 1], k)
  }

  /** The correct ones among them. */
  function CorrectRecords(ops: seq<Op>, k: Key): nat {
    if ops == [] then 0
    else
      match ops[|ops| - 1]
      case LoadOp(_, _) => 0
      case RecordOp(j, correct) => CorrectRecords(ops[..|ops| - 1], k) + if j == k && correct then 1 else 0
      case _ => CorrectRecords(ops[..|ops| - 1], k)
  }

  /** The configuration in force. */
  function ConfigAfter(config: Config, ops: seq<Op>): Config {
    if ops == [] then config
    else
      match ops[|ops| - 1]
      case ReloadOp(next) => next
      case _ => ConfigAfter(config, ops[..|ops| - 1])
  }

  ghost predicate Known(c: Calibrator, ops: seq<Op>, k: Key) { k in Base(c.buckets, ops) || Records(ops, k) > 0 }

  ghost function TotalOf(c: Calibrator, ops: seq<Op>, k: Key): nat {
    var base := Base(c.buckets, ops);
    Min((if k in base then base[k].total else 0) + Records(ops, k), U32_MAX)
  }

  ghost function CorrectOf(c: Calibrator, ops: seq<Op>, k: Key): nat {
    var base := Base(c.buckets, ops);
    Min((if k in base then base[k].correct else 0) + CorrectRecords(ops, k), U32_MAX)
  }

  /** The bucket's priors: loaded, from the bootstrap in force at its first record, or from the last update that
      found it sparse. */
  ghost function PriorsOf(c: Calibrator, ops: seq<Op>, k: Key): (real, real)
    requires Known(c, ops, k)
  {
    if ops == [] then (c.buckets[k].alpha, c.buckets[k].beta)
    else
      var init, op := ops[..|ops| - 1], ops[|ops| - 1];
      if op.LoadOp? then (Base(c.buckets, ops)[k].alpha, Base(c.buckets, ops)[k].beta)
      else if !Known(c, init, k) then
        (ConfigAfter(c.config, init).bootstrapAlpha, ConfigAfter(c.config, init).bootstrapBeta)
      else if op.PriorsOp? && TotalOf(c, init, k) < op.minSamples then (op.alpha, op.beta)
      else PriorsOf(c, init, k)
  }

  /** The bucket as the operations say it is. */
  ghost predicate Counts(c: Calibrator, ops: seq<Op>, k: Key, r: Calibrator) {
    && (k in r.buckets <==> Known(c, ops, k))
    && (Known(c, ops, k) ==>
         r.buckets[k] == Entry(TotalOf(c, ops, k), CorrectOf(c, ops, k), PriorsOf(c, ops, k).0, PriorsOf(c, ops, k).1))
    && r.config == ConfigAfter(c.config, ops)
  }

  lemma SaturateNext(base: nat, n: nat, one: bool)
    ensures (if one then SaturateU32(Min(base + n, U32_MAX) + 1) else Min(base + n, U32_MAX))
      == Min(base + (n + if one then 1 else 0), U32_MAX)
  {
  }

  lemma RecordCounts(c: Calibrator, ops: seq<Op>, k: Key, r: Calibrator)
    requires PossibleOps(ops) && ops != [] && ops[|ops| - 1].RecordOp? && Counts(c, ops[..|ops| - 1], k, r)
    ensures Counts(c, ops, k, Step(r, ops[|ops| - 1]))
  {
    var init, op := ops[..|ops| - 1], ops[|ops| - 1];
    var base := Base(c.buckets, init);
    SaturateNext(if k in base then base[k].total else 0, Records(init, k), op.key == k);
    SaturateNext(if k in base then base[k].correct else 0, CorrectRecords(init, k), op.key == k && op.correct);
    CorrectAtMost(init, k);
  }

  lemma {:induction false} CorrectAtMost(ops: seq<Op>, k: Key)
    ensures CorrectRecords(ops, k) <= Records(ops, k)
  {
    if ops != [] { CorrectAtMost(ops[..|ops| - 1], k); }
  }

  lemma OtherCounts(c: Calibrator, ops: seq<Op>, k: Key, r: Calibrator)
    requires PossibleOps(ops) && ops != [] && !ops[|ops| - 1].RecordOp? && Counts(c, ops[..|ops| - 1], k, r)
    ensures Counts(c, ops, k, Step(r, ops[|ops| - 1]))
  {
  }

  /** Over every run each bucket exists exactly when it was loaded or recorded; its total and its correct count
      are the saturated numbers of outcomes counted on the operations; its priors are the loaded, the bootstrap or
      the updated ones; and records of other buckets leave it alone. */
  lemma {:induction false} BucketsCountRecords(c: Calibrator, ops: seq<Op>, k: Key)
    requires PossibleOps(ops)
    ensures Counts(c, ops, k, Run(c, ops))
  {
    if ops != [] {
      var init := ops[..|ops| - 1];
      assert PossibleOps(init);
      BucketsCountRecords(c, init, k);
      if ops[|ops| - 1].RecordOp? { RecordCounts(c, ops, k, Run(c, init)); } else { OtherCounts(c, ops, k, Run(c, init)); }
    }
  }

  /** Over every run a lookup answers from the bucket itself exactly when its counted outcomes reach the minimum
      in force, and then with those counts and priors. */
  lemma LookupCountsRecords(c: Calibrator, ops: seq<Op>, k: Key)
    requires PossibleOps(ops)
    ensures var r := Lookup(Run(c, ops), k);
      && (r.tier == 1 <==> Known(c, ops, k) && TotalOf(c, ops, k) >= ConfigAfter(c.config, ops).minSamples)
      && (r.tier == 1 ==>
           r == Found(k, TotalOf(c, ops, k), CorrectOf(c, ops, k), PriorsOf(c, ops, k).0, PriorsOf(c, ops, k).1, 1))
  {
    BucketsCountRecords(c, ops, k);
  }

  /** Loading keeps the last entry of every bucket in the list. */
  lemma {:induction false} LoadKeepsLast(es: seq<(Key, Entry)>, i: nat)
    requires i < |es| && forall j :: i < j < |es| ==> es[j].0 != es[i].0
    ensures es[i].0 in Collect(es) && Collect(es)[es[i].0] == es[i].1
  {
    if i < |es| - 1 {
      assert es[|es| - 1].0 != es[i].0;
      LoadKeepsLast(es[..|es| - 1], i);
    }
  }

  /** No bucket comes from anywhere else. */
  lemma {:induction false} LoadAddsNothing(es: seq<(Key, Entry)>, k: Key)
    requires k in Collect(es)
    ensures exists i :: 0 <= i < |es| && es[i].0 == k
  {
    if es[|es| - 1].0 != k {
      LoadAddsNothing(es[..|es| - 1], k);
      var i :| 0 <= i < |es| - 1 && es[..|es| - 1][i].0 == k;
      assert es[i].0 == k;
    }
  }
}
