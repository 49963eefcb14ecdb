/** The back-off of a market counted on its scans: which of them emitted, which reset the market, and when. */
module EmissionBackoff {
  import opened MachineInts
  import opened EmissionCooldowns

  /** The market's emissions since its last reset or expiry, and the instant of the latest; nothing when there is
      none. */
  datatype Streak = Idle | Streak(count: nat, last: real)

  /** The scan got past the gates that come before the reset. */
  predicate Reached(o: Outcome) { !o.MarketAnomaly? && !o.EmissionCooldown? && !o.StalenessExpired? }

  /** The streak that an emission at `at` adds to: none once the entry's time to live is over. */
  function Unexpired(k: Streak, ttl: real, at: real): nat {
    if k.Streak? && at - k.last < ttl then k.count else 0
  }

  function Next(k: Streak, ttl: real, s: Scan, o: Outcome): Streak {
    if !Reached(o) then k
    else
      var kept := if s.ResetsState() then Idle else k;
      if o.Emitted? then Streak(Unexpired(kept, ttl, s.at) + 1, s.at) else kept
  }

  /** The outcomes of all scans of a run. */
  function Outcomes(c: Cache, p: Params, ss: seq<Scan>): (os: seq<Outcome>)
    ensures |os| == |ss|
  {
    if ss == [] then [] else Outcomes(c, p, ss[..|ss| - 1]) + [OutcomeAt(c, p, ss, |ss| - 1)]
  }

  function Count(k: Streak, ttl: real, ss: seq<Scan>, os: seq<Outcome>, m: MarketId): Streak
    requires |ss| == |os|
  {
    if ss == [] then k
    else
      var n := |ss| - 1;
      var before := Count(k, ttl, ss[..n], os[..n], m);
      if ss[n].market == m then Next(before, ttl, ss[n], os[n]) else before
  }

  function InCache(c: Cache, m: MarketId): Streak { if m in c then Streak(c[m].hits, c[m].emittedAt) else Idle }

  /** The streak of the market after the run. */
  function StreakAfter(c: Cache, p: Params, ss: seq<Scan>, m: MarketId): Streak {
    Count(InCache(c, m), p.ttlSecs as real, ss, Outcomes(c, p, ss), m)
  }

  // ── The cache holds the streak ─────────────────────────────────────────────

  predicate Holds(c: Cache, m: MarketId, k: Streak) {
    if k.Idle? then m !in c else m in c && c[m] == CoolEntry(k.last, WrapU32(k.count))
  }

  lemma HitsNext(n: nat)
    ensures WrapU32(WrapU32(n) + 1) == WrapU32(n + 1)
  {
    WrapSuccessor(n);
  }

  lemma EmissionHolds(c: Cache, p: Params, m: MarketId, at: real, k: Streak)
    requires Holds(c, m, k)
    ensures Holds(RecordEmission(c, p, m, at), m, Streak(Unexpired(k, p.ttlSecs as real, at) + 1, at))
  {
    if k.Streak? { HitsNext(k.count); }
  }

  lemma ScanHolds(c: Cache, p: Params, s: Scan, m: MarketId, k: Streak)
    requires Holds(c, m, k)
    ensures var (c', o) := Process(c, p, s);
            Holds(c', m, if s.market == m then Next(k, p.ttlSecs as real, s, o) else k)
  {
    if s.market == m {
      EmissionHolds(c, p, m, s.at, k);
      EmissionHolds(Reset(c, m), p, m, s.at, Idle);
    }
  }

  lemma {:induction false} CacheHoldsStreak(c: Cache, p: Params, ss: seq<Scan>, m: MarketId)
    ensures Holds(Run(c, p, ss), m, StreakAfter(c, p, ss, m))
  {
    if ss != [] {
      var n := |ss| - 1;
      CacheHoldsStreak(c, p, ss[..n], m);
      assert Outcomes(c, p, ss)[..n] == Outcomes(c, p, ss[..n]);
      ScanHolds(Run(c, p, ss[..n]), p, ss[n], m, StreakAfter(c, p, ss[..n], m));
    }
  }

  // ── When a scan emits ──────────────────────────────────────────────────────

  /** The cooldown after `n` emissions in a row; the hit counter is 32 bits wide. */
  function Backoff(p: Params, n: nat): real {
    Doubled(p, n % (U32_MAX + 1))
  }

  /** The base doubled `hits` times, at most thirty, and at most the maximum multiple of it. */
  function Doubled(p: Params, hits: nat): real { (p.baseSecs as real) * Multiple(hits, p.maxMultiplier) }

  function Multiple(hits: nat, max: real): real { MinR(Pow2(Min(hits, 30)) as real, max) }

  lemma MultipleIs(hits: u32, max: real)
    ensures Multiple(hits, max) == EffectiveMultiplier(hits, max)
  {
  }

  lemma DoubledIsCooldown(p: Params, hits: u32)
    ensures Doubled(p, hits) == CooldownOf(p, hits)
  {
    MultipleIs(hits, p.maxMultiplier);
  }

  lemma BackoffIsCooldown(p: Params, n: nat)
    ensures Backoff(p, n) == CooldownOf(p, WrapU32(n))
  {
    DoubledIsCooldown(p, WrapU32(n));
  }

  /** The market is still cooling down from its last emission. */
  predicate Cooling(p: Params, k: Streak, at: real) {
    k.Streak? && at - k.last < p.ttlSecs as real && at - k.last < Backoff(p, k.count)
  }

  /** Every gate besides the cooldown lets the scan through. */
  predicate OtherGatesPass(s: Scan) {
    && !s.anomaly && s.tradeable && s.direction && s.detected
    && s.bucketRiskPasses && s.profitable && s.depthOk && s.scoreOk
  }

  lemma GateShuts(c: Cache, p: Params, m: MarketId, now: real, k: Streak)
    requires Holds(c, m, k)
    ensures MayEmit(c, p, m, now) <==> !Cooling(p, k, now)
  {
    if k.Streak? { BackoffIsCooldown(p, k.count); }
  }

  /** At every scan of every run: it is suppressed exactly when the market is not anomalous and its emissions,
      counted on the scans, are still cooling down; and it emits exactly when they are not and every other gate
      lets it through. */
  lemma EmitsIff(c: Cache, p: Params, ss: seq<Scan>, i: nat)
    requires i < |ss|
    ensures var s, k := ss[i], StreakAfter(c, p, ss[..i], ss[i].market);
      && (OutcomeAt(c, p, ss, i) == EmissionCooldown <==> !s.anomaly && Cooling(p, k, s.at))
      && (OutcomeAt(c, p, ss, i) == Emitted <==> OtherGatesPass(s) && !Cooling(p, k, s.at))
  {
    CacheHoldsStreak(c, p, ss[..i], ss[i].market);
    GateShuts(Run(c, p, ss[..i]), p, ss[i].market, ss[i].at, StreakAfter(c, p, ss[..i], ss[i].market));
  }

  /** At every scan of every run the outcome names the first gate that stops it. */
  lemma OutcomeNamesFirstGate(c: Cache, p: Params, ss: seq<Scan>, i: nat)
    requires i < |ss|
    ensures var s, o := ss[i], OutcomeAt(c, p, ss, i);
            var open := !s.anomaly && !Cooling(p, StreakAfter(c, p, ss[..i], s.market), s.at);
      && (o == MarketAnomaly <==> s.anomaly)
      && (o == StalenessExpired <==> open && !s.tradeable)
      && (o == NoConvergenceDirection <==> open && s.tradeable && !s.direction)
      && (o == NotDetected <==> open && s.tradeable && s.direction && !s.detected)
      && (o == BucketRisk <==> open && s.tradeable && s.direction && s.detected && !s.bucketRiskPasses)
      && (o == MinProfitThreshold <==>
           open && s.tradeable && s.direction && s.detected && s.bucketRiskPasses && !s.profitable)
      && (o == MaxDepthUsage <==>
           open && s.tradeable && s.direction && s.detected && s.bucketRiskPasses && s.profitable && !s.depthOk)
      && (o == MinScore <==>
           && open && s.tradeable && s.direction && s.detected && s.bucketRiskPasses && s.profitable && s.depthOk
           && !s.scoreOk)
  {
    CacheHoldsStreak(c, p, ss[..i], ss[i].market);
    GateShuts(Run(c, p, ss[..i]), p, ss[i].market, ss[i].at, StreakAfter(c, p, ss[..i], ss[i].market));
  }

  /** When the time to live covers the longest cooldown, expiry decides nothing: a scan that the other gates let
      through emits exactly when the market has no streak or its back-off is over. */
  lemma EmitsOnceBackoffIsOver(c: Cache, p: Params, ss: seq<Scan>, i: nat)
    requires i < |ss| && TtlCovers(p) && OtherGatesPass(ss[i])
    ensures var k := StreakAfter(c, p, ss[..i], ss[i].market);
            OutcomeAt(c, p, ss, i) == Emitted <==> k.Idle? || ss[i].at - k.last >= Backoff(p, k.count)
  {
    EmitsIff(c, p, ss, i);
    var k := StreakAfter(c, p, ss[..i], ss[i].market);
    if k.Streak? {
      BackoffIsCooldown(p, k.count);
      CooldownBounded(p, WrapU32(k.count));
    }
  }

  /** Two consecutive emissions of a market are at least the back-off apart that its streak had reached at the
      first one, counted on the scans, through expiry and resets. */
  lemma EmissionsBackOff(c: Cache, p: Params, ss: seq<Scan>, i: nat, j: nat, m: MarketId)
    requires TtlCovers(p) && ClockMonotone(ss) && i < j < |ss|
    requires EmitsAt(c, p, ss, i, m) && EmitsAt(c, p, ss, j, m)
    requires forall k :: i < k < j ==> !EmitsAt(c, p, ss, k, m)
    ensures var k := StreakAfter(c, p, ss[..i + 1], m);
            k.Streak? && k.last == ss[i].at && k.count >= 1 && ss[j].at - ss[i].at >= Backoff(p, k.count)
  {
    var k := StreakAfter(c, p, ss[..i + 1], m);
    EmissionSpacing(c, p, ss, i, j, m);
    CacheHoldsStreak(c, p, ss[..i + 1], m);
    EmissionCounts(c, p, ss, i, m);
    BackoffIsCooldown(p, k.count);
  }

  /** An emission adds one to the unexpired streak, or starts a new one after a reset. */
  lemma EmissionCounts(c: Cache, p: Params, ss: seq<Scan>, i: nat, m: MarketId)
    requires i < |ss| && EmitsAt(c, p, ss, i, m)
    ensures var before := StreakAfter(c, p, ss[..i], m);
            StreakAfter(c, p, ss[..i + 1], m) ==
              Streak((if ss[i].ResetsState() then 0 else Unexpired(before, p.ttlSecs as real, ss[i].at)) + 1, ss[i].at)
  {
    var run := ss[..i + 1];
    assert run[..i] == ss[..i];
    assert Outcomes(c, p, run)[..i] == Outcomes(c, p, ss[..i]);
  }
}
