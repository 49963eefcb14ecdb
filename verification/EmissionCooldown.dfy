/** Per-market emission cooldown with exponential back-off in a time-to-live cache, and the gate
    sequence of the opportunity pipeline that consults, resets and starts it.  Instants and durations
    are seconds. */
module EmissionCooldowns {
  import opened MachineInts

  type MarketId = string

  datatype CooldownConfig = CooldownConfig(baseSecs: u64, maxMultiplier: real, maxCapacity: u64)

  /** What configuration validation admits. */
  predicate Validated(c: CooldownConfig) { c.baseSecs >= 1 && c.maxMultiplier >= 1.0 }

  datatype Params = Params(baseSecs: u64, maxMultiplier: real, maxCapacity: u64, ttlSecs: u64)

  datatype CoolEntry = CoolEntry(emittedAt: real, hits: u32)

  type Cache = map<MarketId, CoolEntry>

  function Ceiling(x: real): int { -((-x).Floor) }

  /** `to_u64` of the rounded-up multiplier, or 16 when it does not fit. */
  function WholeMultiplier(x: real): u64 { if 0 <= Ceiling(x) <= U64_MAX then Ceiling(x) else 16 }

  function FromConfig(c: CooldownConfig): Params {
    Params(c.baseSecs, c.maxMultiplier, c.maxCapacity, SaturateU64(c.baseSecs * WholeMultiplier(c.maxMultiplier)))
  }

  function EffectiveMultiplier(hits: u32, max: real): real { MinR(Pow2(Min(hits, 30)) as real, max) }

  function CooldownOf(p: Params, hits: u32): real { (p.baseSecs as real) * EffectiveMultiplier(hits, p.maxMultiplier) }

  /** An entry is visible until its time to live has passed. */
  predicate Live(p: Params, e: CoolEntry, now: real) { now - e.emittedAt < p.ttlSecs as real }

  function Peek(c: Cache, p: Params, m: MarketId, now: real): Option<CoolEntry> {
    if m in c && Live(p, c[m], now) then Some(c[m]) else None
  }

  predicate MayEmit(c: Cache, p: Params, m: MarketId, now: real) {
    var e := Peek(c, p, m, now);
    e.Some? ==> now - e.value.emittedAt >= CooldownOf(p, e.value.hits)
  }

  function RecordEmission(c: Cache, p: Params, m: MarketId, now: real): Cache {
    var e := Peek(c, p, m, now);
    c[m := CoolEntry(now, WrapU32((if e.Some? then e.value.hits else 0) + 1))]
  }

  function Reset(c: Cache, m: MarketId): Cache { c - {m} }

  // ── The pipeline ───────────────────────────────────────────────────────────

  /** One scan of a market: the verdicts of the gates, and the instant. */
  datatype Scan = Scan(
    market: MarketId,
    anomaly: bool,
    tradeable: bool,
    direction: bool,
    outsideWindow: bool,
    detected: bool,
    bucketRiskPasses: bool,
    profitable: bool,
    depthOk: bool,
    scoreOk: bool,
    at: real)
  {
    /** No deadline, outside the settlement window, or no convergence direction. */
    predicate ResetsState() { outsideWindow || !direction }
  }

  datatype Outcome =
    | Emitted
    | MarketAnomaly
    | EmissionCooldown
    | StalenessExpired
    | NoConvergenceDirection
    | NotDetected
    | BucketRisk
    | MinProfitThreshold
    | MaxDepthUsage
    | MinScore

  function Process(c: Cache, p: Params, s: Scan): (Cache, Outcome) {
    if s.anomaly then (c, MarketAnomaly)
    else if !MayEmit(c, p, s.market, s.at) then (c, EmissionCooldown)
    else if !s.tradeable then (c, StalenessExpired)
    else
      var c1 := if s.ResetsState() then Reset(c, s.market) else c;
      if !s.direction then (c1, NoConvergenceDirection)
      else if !s.detected then (c1, NotDetected)
      else if !s.bucketRiskPasses then (c1, BucketRisk)
      else if !s.profitable then (c1, MinProfitThreshold)
      else if !s.depthOk then (c1, MaxDepthUsage)
      else if !s.scoreOk then (c1, MinScore)
      else (RecordEmission(c1, p, s.market, s.at), Emitted)
  }

  function Run(c: Cache, p: Params, ss: seq<Scan>): Cache {
    if ss == [] then c else Process(Run(c, p, ss[..|ss| - 1]), p, ss[|ss| - 1]).0
  }

  /** The outcome of scan `i` of the run. */
  function OutcomeAt(c: Cache, p: Params, ss: seq<Scan>, i: nat): Outcome
    requires i < |ss|
  {
    Process(Run(c, p, ss[..i]), p, ss[i]).1
  }

  predicate EmitsAt(c: Cache, p: Params, ss: seq<Scan>, i: nat, m: MarketId)
    requires i < |ss|
  {
    ss[i].market == m && OutcomeAt(c, p, ss, i) == Emitted
  }

  ghost predicate ClockMonotone(ss: seq<Scan>) { forall i, j :: 0 <= i < j < |ss| ==> ss[i].at <= ss[j].at }

  // ── Expiry never cuts a cooldown short ─────────────────────────────────────

  /** The time to live covers the longest cooldown. */
  predicate TtlCovers(p: Params) { p.ttlSecs as real >= (p.baseSecs as real) * p.maxMultiplier }

  lemma CeilingBounds(x: real)
    ensures x <= Ceiling(x) as real < x + 1.0
  {
  }

  /** The derived time to live covers the longest cooldown if and only if that cooldown fits `u64`
      seconds; beyond that the saturating product, or the fallback multiplier 16, is too short. */
  lemma TtlCoversIff(c: CooldownConfig)
    requires Validated(c)
    ensures TtlCovers(FromConfig(c)) <==> (c.baseSecs as real) * c.maxMultiplier <= U64_MAX as real
  {
    var b, m, n := c.baseSecs as real, c.maxMultiplier, Ceiling(c.maxMultiplier);
    CeilingBounds(m);
    if n <= U64_MAX {
      assert b * (n as real) >= b * m;
      assert (c.baseSecs * n) as real == b * (n as real);
    } else {
      assert m > 16.0;
      assert b * m > b * 16.0;
      assert b * m >= 1.0 * m;
    }
  }

  /** The parameters are the configured ones; the time to live is the base times the multiplier rounded up, or times
      sixteen when that does not fit 64 bits, and never more than 64 bits hold. */
  lemma ConfiguredTtl(c: CooldownConfig, whole: nat)
    requires whole as real - 1.0 < c.maxMultiplier <= whole as real
    ensures var p := FromConfig(c);
      && p.baseSecs == c.baseSecs && p.maxMultiplier == c.maxMultiplier && p.maxCapacity == c.maxCapacity
      && (whole <= U64_MAX ==> p.ttlSecs == Min(c.baseSecs * whole, U64_MAX))
      && (whole > U64_MAX ==> p.ttlSecs == Min(c.baseSecs * 16, U64_MAX))
  {
    CeilingBounds(c.maxMultiplier);
    assert Ceiling(c.maxMultiplier) == whole;
  }

  lemma CooldownBounded(p: Params, hits: u32)
    ensures CooldownOf(p, hits) <= (p.baseSecs as real) * p.maxMultiplier
  {
    CapScale(p.baseSecs as real, Pow2(Min(hits, 30)) as real, p.maxMultiplier);
  }

  lemma CapScale(a: real, x: real, max: real)
    requires a >= 0.0
    ensures a * MinR(x, max) <= a * max
    ensures x >= max ==> a * MinR(x, max) == a * max
  {
    Scale(a, MinR(x, max), max);
  }

  lemma Scale(a: real, x: real, y: real)
    requires a >= 0.0 && x <= y
    ensures a * x <= a * y
  {
  }

  // ── Spacing ────────────────────────────────────────────────────────────────

  /** The market's last emission `e` still stands in the cache, or its cooldown is over. */
  predicate Guarded(c: Cache, p: Params, m: MarketId, e: CoolEntry, now: real) {
    (m in c && c[m] == e) || now - e.emittedAt >= CooldownOf(p, e.hits)
  }

  /** Passing the cooldown gate means the cooldown is over, whether the entry was seen, had expired or
      had been reset. */
  lemma GatePassed(c: Cache, p: Params, m: MarketId, e: CoolEntry, now: real)
    requires TtlCovers(p) && Guarded(c, p, m, e, now) && MayEmit(c, p, m, now)
    ensures now - e.emittedAt >= CooldownOf(p, e.hits)
  {
    CooldownBounded(p, e.hits);
  }

  lemma StepKeepsGuard(c: Cache, p: Params, s: Scan, m: MarketId, e: CoolEntry, before: real)
    requires TtlCovers(p) && Guarded(c, p, m, e, before) && before <= s.at
    requires !(s.market == m && Process(c, p, s).1 == Emitted)
    ensures Guarded(Process(c, p, s).0, p, m, e, s.at)
  {
    if s.market == m && MayEmit(c, p, m, s.at) {
      GatePassed(c, p, m, e, s.at);
    }
  }

  /** After the emission at `i`, every later point without another one of the market is guarded. */
  lemma {:induction false} GuardHolds(c: Cache, p: Params, ss: seq<Scan>, i: nat, j: nat, m: MarketId)
    requires TtlCovers(p) && ClockMonotone(ss) && i < j <= |ss| && EmitsAt(c, p, ss, i, m)
    requires forall k :: i < k < j ==> !EmitsAt(c, p, ss, k, m)
    ensures m in Run(c, p, ss[..i + 1])
    ensures Guarded(Run(c, p, ss[..j]), p, m, Run(c, p, ss[..i + 1])[m], ss[j - 1].at)
    decreases j
  {
    assert ss[..i + 1][..i] == ss[..i];
    if j > i + 1 {
      GuardHolds(c, p, ss, i, j - 1, m);
      assert ss[..j][..j - 1] == ss[..j - 1];
      assert !EmitsAt(c, p, ss, j - 1, m);
      StepKeepsGuard(Run(c, p, ss[..j - 1]), p, ss[j - 1], m, Run(c, p, ss[..i + 1])[m], ss[j - 2].at);
    }
  }

  /** Any two consecutive emissions of a market are at least `base * min(2^hits, max)` apart, where
      `hits` is the count recorded at the first one, through every run of scans: neither expiry of the
      cache entry nor a reset lets one out early. */
  lemma EmissionSpacing(c: Cache, p: Params, ss: seq<Scan>, i: nat, j: nat, m: MarketId)
    requires TtlCovers(p) && ClockMonotone(ss) && i < j < |ss|
    requires EmitsAt(c, p, ss, i, m) && EmitsAt(c, p, ss, j, m)
    requires forall k :: i < k < j ==> !EmitsAt(c, p, ss, k, m)
    ensures m in Run(c, p, ss[..i + 1])
    ensures ss[j].at - ss[i].at >= CooldownOf(p, Run(c, p, ss[..i + 1])[m].hits)
  {
    GuardHolds(c, p, ss, i, j, m);
    var e := Run(c, p, ss[..i + 1])[m];
    assert ss[..i + 1][..i] == ss[..i];
    assert e.emittedAt == ss[i].at;
    var before := Run(c, p, ss[..j]);
    assert MayEmit(before, p, m, ss[j].at);
    GatePassed(before, p, m, e, ss[j].at);
  }

  /** The time to live is exactly the longest cooldown, as for every whole multiplier. */
  predicate TtlIsLongest(p: Params) { p.ttlSecs as real == (p.baseSecs as real) * p.maxMultiplier }

  /** A whole multiplier is never sustained: once an entry waits out the full multiplier it has also
      outlived its cache entry, so the next emission counts from one again. */
  lemma FullBackoffStartsOver(c: Cache, p: Params, m: MarketId, now: real)
    requires TtlIsLongest(p) && m in c && Pow2(Min(c[m].hits, 30)) as real >= p.maxMultiplier
    requires MayEmit(c, p, m, now)
    ensures m in RecordEmission(c, p, m, now) && RecordEmission(c, p, m, now)[m].hits == 1
  {
    FullCooldown(p, c[m].hits);
    ExpiredStartsOver(c, p, m, now);
  }

  lemma FullCooldown(p: Params, hits: u32)
    requires Pow2(Min(hits, 30)) as real >= p.maxMultiplier
    ensures CooldownOf(p, hits) == (p.baseSecs as real) * p.maxMultiplier
  {
    CapScale(p.baseSecs as real, Pow2(Min(hits, 30)) as real, p.maxMultiplier);
  }

  lemma ExpiredStartsOver(c: Cache, p: Params, m: MarketId, now: real)
    requires m in c && CooldownOf(p, c[m].hits) == p.ttlSecs as real && MayEmit(c, p, m, now)
    ensures m in RecordEmission(c, p, m, now) && RecordEmission(c, p, m, now)[m].hits == 1
  {
  }

  lemma WholeTtl(c: CooldownConfig)
    requires Validated(c) && (c.baseSecs as real) * c.maxMultiplier <= U64_MAX as real
    requires Ceiling(c.maxMultiplier) as real == c.maxMultiplier
    ensures TtlIsLongest(FromConfig(c))
  {
    var b, n := c.baseSecs, Ceiling(c.maxMultiplier);
    assert (b * n) as real == (b as real) * (n as real);
    assert n <= b * n;
  }

  // ── The in-place objects ───────────────────────────────────────────────────

  class InMemoryEmissionCooldown {
    var entries: Cache
    var params: Params
    var suppressed: nat

    constructor (c: CooldownConfig)
      ensures entries == map[] && params == FromConfig(c) && suppressed == 0
    {
      entries := map[];
      params := FromConfig(c);
      suppressed := 0;
    }

    /** A change of the capacity or the time to live rebuilds the cache and so clears every cooldown. */
    method ReloadConfig(c: CooldownConfig)
      modifies this`entries, this`params
      ensures params == FromConfig(c)
      ensures entries ==
        if FromConfig(c).ttlSecs != old(params.ttlSecs) || c.maxCapacity != old(params.maxCapacity) then map[]
        else old(entries)
    {
      var next := FromConfig(c);
      if next.maxCapacity != params.maxCapacity || next.ttlSecs != params.ttlSecs {
        entries := map[];
      }
      params := next;
    }

    method MayEmitNow(m: MarketId, now: real) returns (allowed: bool)
      modifies this`suppressed
      ensures allowed == MayEmit(entries, params, m, now)
      ensures suppressed == old(suppressed) + if allowed then 0 else 1
    {
      if m !in entries || now - entries[m].emittedAt >= params.ttlSecs as real {
        return true;
      }
      var e := entries[m];
      if now - e.emittedAt >= CooldownOf(params, e.hits) {
        return true;
      }
      suppressed := suppressed + 1;
      return false;
    }

    method RecordAt(m: MarketId, now: real)
      modifies this`entries
      ensures entries == RecordEmission(old(entries), params, m, now)
    {
      var hits: nat := 0;
      if m in entries && now - entries[m].emittedAt < params.ttlSecs as real {
        hits := entries[m].hits;
      }
      entries := entries[m := CoolEntry(now, WrapU32(hits + 1))];
    }

    method ResetMarket(m: MarketId)
      modifies this`entries
      ensures entries == Reset(old(entries), m)
    {
      entries := entries - {m};
    }

    /** The gate sequence of one scan. */
    method ProcessScan(s: Scan) returns (o: Outcome)
      modifies this`entries, this`suppressed
      ensures (entries, o) == Process(old(entries), params, s)
      ensures suppressed == old(suppressed) + if o == EmissionCooldown then 1 else 0
    {
      if s.anomaly {
        return MarketAnomaly;
      }
      var allowed := MayEmitNow(s.market, s.at);
      if !allowed {
        return EmissionCooldown;
      }
      if !s.tradeable {
        return StalenessExpired;
      }
      if s.ResetsState() {
        ResetMarket(s.market);
      }
      if !s.direction {
        return NoConvergenceDirection;
      }
      if !s.detected {
        return NotDetected;
      }
      if !s.bucketRiskPasses {
        return BucketRisk;
      }
      if !s.profitable {
        return MinProfitThreshold;
      }
      if !s.depthOk {
        return MaxDepthUsage;
      }
      if !s.scoreOk {
        return MinScore;
      }
      RecordAt(s.market, s.at);
      return Emitted;
    }
  }
}
