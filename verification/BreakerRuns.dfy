/** What the circuit breaker guarantees over whole runs: the back-off law of Session trips, the
    bound on every cooldown, and the path from Open back to Closed. */
module BreakerRuns {
  import opened MachineInts
  import opened CircuitBreakers

  datatype Event =
    | TripEvent(level: Level, reason: string, at: int)
    | HaltEvent(level: Level, reason: string, at: int)
    | TickEvent(at: int)
    | TradeEvent(success: bool, at: int)
    | AckEvent(at: int)
    | ResetEvent(at: int)
    | HeartbeatEvent(maxFailures: u32, at: int)
    | HeartbeatOkEvent
    | ReloadEvent(config: BreakerConfig)

  function Step(b: Breaker, e: Event): Breaker {
    match e
    case TripEvent(level, reason, at) => Trip(b, level, reason, at)
    case HaltEvent(level, reason, at) => Halt(b, level, reason, at)
    case TickEvent(at) => Tick(b, at)
    case TradeEvent(success, at) => OnTradeResult(b, success, at)
    case AckEvent(at) => AcknowledgeAndResume(b, at)
    case ResetEvent(at) => Reset(b, at)
    case HeartbeatEvent(max, at) => HeartbeatFailure(b, max, at)
    case HeartbeatOkEvent => b.(heartbeatFailures := 0)
    case ReloadEvent(c) => b.(config := c)
  }

  function Run(b: Breaker, es: seq<Event>): Breaker {
    if es == [] then b else Step(Run(b, es[..|es| - 1]), es[|es| - 1])
  }

  lemma {:induction false} RunAppend(b: Breaker, xs: seq<Event>, ys: seq<Event>)
    ensures Run(b, xs + ys) == Run(Run(b, xs), ys)
  {
    if ys == [] {
      assert xs + ys == xs;
    } else {
      RunAppend(b, xs, ys[..|ys| - 1]);
      assert (xs + ys)[..|xs + ys| - 1] == xs + ys[..|ys| - 1];
    }
  }

  lemma RunOne(b: Breaker, e: Event)
    ensures Run(b, [e]) == Step(b, e)
  {
    assert Run(b, [e][..0]) == b;
  }

  // ── Calls that do not return ───────────────────────────────────────────────

  /** The step builds a duration or an instant that the calendar library cannot hold. */
  predicate Panics(b: Breaker, e: Event) {
    match e
    case TripEvent(level, _, at) => !Fits(at, CooldownForLevel(b, level))
    case TradeEvent(success, at) =>
      b.state.HalfOpen? &&
      if success
      then WrapU32(b.state.successfulProbes + 1) >= b.state.requiredProbes && !Fits(at, b.config.recoveryObservationSecs)
      else !Fits(at, ProbePenalty(b, b.state.level))
    case _ => false
  }

  /** Every step of the run returns. */
  ghost predicate Returns(b: Breaker, es: seq<Event>) {
    es == [] || (Returns(b, es[..|es| - 1]) && !Panics(Run(b, es[..|es| - 1]), es[|es| - 1]))
  }

  // ── Halting and fault levels ───────────────────────────────────────────────

  predicate HaltedAtLeast(b: Breaker, level: Level) { b.state.Halted? && b.state.level.AtLeast(level) }

  ghost predicate NoRelease(es: seq<Event>) {
    forall i :: 0 <= i < |es| ==> !es[i].AckEvent? && !es[i].ResetEvent?
  }

  /** Without an acknowledgement or a reset a halt stays, at a level that never drops. */
  lemma {:induction false} HaltStays(b: Breaker, es: seq<Event>, l: Level)
    requires HaltedAtLeast(b, l) && NoRelease(es)
    ensures HaltedAtLeast(Run(b, es), l)
  {
    if es != [] { HaltStays(b, es[..|es| - 1], l); }
  }

  /** Faults that the engine reports with `trip` are Session faults. */
  ghost predicate SessionFaults(es: seq<Event>) {
    forall i :: 0 <= i < |es| && es[i].TripEvent? ==> es[i].level == Session
  }

  predicate SessionOnly(b: Breaker) { (b.state.Open? || b.state.HalfOpen?) ==> b.state.level == Session }

  /** Open and HalfOpen, the states with an automatic way back, only ever carry a Session fault. */
  lemma {:induction false} SessionStays(b: Breaker, es: seq<Event>)
    requires SessionOnly(b) && SessionFaults(es)
    ensures SessionOnly(Run(b, es))
  {
    if es != [] { SessionStays(b, es[..|es| - 1]); }
  }

  // ── Back-off ───────────────────────────────────────────────────────────────

  /** The back-off as documented, over unbounded integers, with exponent `k`. */
  function IdealCooldown(c: BreakerConfig, k: nat): u64 {
    Min(c.maxCooldownSecs, c.l2CooldownSecs * Pow2(k))
  }

  lemma SaturationIsHidden(base: u64, p: nat, max: u64)
    ensures Min(SaturateU64(base * SaturateU64(p)), max) == Min(max, base * p)
  {
    if p > U64_MAX && base > 0 {
      assert base * p >= 1 * p;
      assert base * U64_MAX >= 1 * U64_MAX;
    }
  }

  /** Saturating `u64` arithmetic never shows: the cooldown is the unbounded formula. */
  lemma CooldownIsExact(b: Breaker)
    ensures CooldownForLevel(b, Session) == IdealCooldown(b.config, Max(b.l2TripCount - 1, 0))
  {
    SaturationIsHidden(b.config.l2CooldownSecs, Pow2(Max(b.l2TripCount - 1, 0)), b.config.maxCooldownSecs);
  }

  /** An event that puts the trip counter back to zero in state `s`. */
  predicate Zeroes(s: BreakerState, e: Event) {
    match e
    case ResetEvent(_) => true
    case AckEvent(_) => s.Halted?
    case TickEvent(at) => s.Recovered? && at >= s.observationUntil
    case _ => false
  }

  /** Session trips requested since the counter was last zero, counted on the trace. */
  ghost function SessionTrips(b: Breaker, es: seq<Event>): nat {
    if es == [] then b.l2TripCount
    else
      var before, e := es[..|es| - 1], es[|es| - 1];
      if Zeroes(Run(b, before).state, e) then 0
      else if e.TripEvent? && e.level == Session then SessionTrips(b, before) + 1
      else SessionTrips(b, before)
  }

  lemma StepCount(b: Breaker, e: Event)
    ensures Step(b, e).l2TripCount ==
      if Zeroes(b.state, e) then 0
      else if e.TripEvent? && e.level == Session then WrapU32(b.l2TripCount + 1)
      else b.l2TripCount
  {
  }

  lemma {:induction false} TripCountTracksTrace(b: Breaker, es: seq<Event>)
    ensures Run(b, es).l2TripCount == WrapU32(SessionTrips(b, es))
  {
    if es != [] {
      var before := es[..|es| - 1];
      TripCountTracksTrace(b, before);
      StepCount(Run(b, before), es[|es| - 1]);
      WrapSuccessor(SessionTrips(b, before));
    }
  }

  lemma TripOpens(b: Breaker, reason: string, at: int)
    requires TripTakesEffect(b.state, Session)
    ensures Trip(b, Session, reason, at).state
      == Open(Session, reason, at, Deadline(at, IdealCooldown(b.config, Max(b.l2TripCount - 1, 0))))
  {
    CooldownIsExact(b);
  }

  lemma WrapSmall(n: nat)
    requires n <= U32_MAX
    ensures WrapU32(n) == n
  {
  }

  lemma TripAfterRun(b: Breaker, es: seq<Event>, reason: string, at: int)
    requires TripTakesEffect(Run(b, es).state, Session)
    ensures Run(b, es + [TripEvent(Session, reason, at)]).state
      == Open(Session, reason, at,
              Deadline(at, IdealCooldown(Run(b, es).config, Max(WrapU32(SessionTrips(b, es)) - 1, 0))))
  {
    var e := TripEvent(Session, reason, at);
    assert (es + [e])[..|es + [e]| - 1] == es;
    assert Run(b, es + [e]) == Step(Run(b, es), e);
    TripOpens(Run(b, es), reason, at);
    TripCountTracksTrace(b, es);
  }

  /** The n-th Session trip since the counter was zero cools down for
      `min(max, base * 2^max(0, n - 2))`: the first two trips use the base duration, because the
      cooldown is taken before the counter is incremented.  It holds for every trip the `u32`
      counter can number, under the configuration in force at the trip. */
  lemma BackoffLaw(b: Breaker, es: seq<Event>, reason: string, at: int, n: nat)
    requires 1 <= n == SessionTrips(b, es) + 1
    requires n - 1 <= U32_MAX
    requires TripTakesEffect(Run(b, es).state, Session)
    ensures Run(b, es + [TripEvent(Session, reason, at)]).state
      == Open(Session, reason, at, Deadline(at, IdealCooldown(Run(b, es).config, Max(n - 2, 0))))
  {
    WrapSmall(SessionTrips(b, es));
    assert Max(WrapU32(SessionTrips(b, es)) - 1, 0) == Max(n - 2, 0);
    TripAfterRun(b, es, reason, at);
  }

  // ── Failed probes ──────────────────────────────────────────────────────────

  const HALF: int := 0x8000_0000_0000_0000

  lemma DoublingWraps(c: u64)
    ensures WrapU64(c * 2) == if c < HALF then 2 * c else 2 * c - (U64_MAX + 1)
  {
  }

  /** A failed probe that returns reopens for its penalty, never longer than the maximum.  The penalty is
      twice the Session cooldown, capped, exactly when that cooldown is below 2^63 seconds; from there on
      the doubling wraps. */
  lemma FailedProbeCooldown(b: Breaker, now: int)
    requires b.state.HalfOpen? && b.state.level == Session
    ensures var c, secs, b' := CooldownForLevel(b, Session), ProbePenalty(b, Session), OnTradeResult(b, false, now);
      && (secs == Min(2 * c, b.config.maxCooldownSecs) <==> c < HALF)
      && secs <= b.config.maxCooldownSecs
      && (!Panics(b, TradeEvent(false, now)) ==> b'.state == Open(Session, PROBE_FAILED, now, now + secs * NANOS_PER_SEC))
  {
    DoublingWraps(CooldownForLevel(b, Session));
  }

  /** Reloading a huge base cooldown while half open makes the wrap visible: the failed probe reopens for
      no time at all, and every step of the run returns. */
  lemma WrapShows(b: Breaker, reason: string, at: int)
    requires b.state == Closed && b.l2TripCount == 0 && b.config.l2CooldownSecs == 60 && b.config.maxCooldownSecs == 3600
    requires at + 60 * NANOS_PER_SEC <= LAST_INSTANT
    ensures var wake := at + 60 * NANOS_PER_SEC;
            var huge := b.config.(l2CooldownSecs := HALF, maxCooldownSecs := U64_MAX);
            var es := [TripEvent(Session, reason, at), TickEvent(wake), ReloadEvent(huge), TradeEvent(false, wake)];
            Returns(b, es) && Run(b, es).state == Open(Session, PROBE_FAILED, wake, wake)
  {
    var wake := at + 60 * NANOS_PER_SEC;
    var huge := b.config.(l2CooldownSecs := HALF, maxCooldownSecs := U64_MAX);
    var e1, e2, e3, e4 := TripEvent(Session, reason, at), TickEvent(wake), ReloadEvent(huge), TradeEvent(false, wake);
    assert Pow2(0) == 1;
    var b1 := Step(b, e1);
    var b2 := Step(b1, e2);
    var b3 := Step(b2, e3);
    assert b1.state == Open(Session, reason, at, wake) && b1.l2TripCount == 1;
    assert CooldownForLevel(b3, Session) == HALF;
    DoublingWraps(HALF);
    RunOne(b, e1);
    assert [e1, e2][..1] == [e1] && [e1, e2, e3][..2] == [e1, e2] && [e1, e2, e3, e4][..3] == [e1, e2, e3];
    assert [e1][..0] == [];
    assert Run(b, [e1, e2]) == b2 && Run(b, [e1, e2, e3]) == b3;
    assert Returns(b, []) && Returns(b, [e1]) && Returns(b, [e1, e2]) && Returns(b, [e1, e2, e3]);
  }

  /** While Open or HalfOpen the next Session cooldown is at most twice the longest duration there is. */
  predicate Tame(b: Breaker) {
    (b.state.Open? || b.state.HalfOpen?) ==> CooldownForLevel(b, Session) <= 2 * (I64_MAX / 1000)
  }

  lemma ExponentStep(n: u32)
    ensures Pow2(Max(WrapU32(n + 1) - 1, 0)) <= 2 * Pow2(Max(n - 1, 0))
  {
    if n == U32_MAX {
      assert WrapU32(n + 1) == 0;
      Pow2Monotone(0, n - 1);
    } else {
      WrapSmall(n + 1);
      if n > 0 { assert Pow2(n) == 2 * Pow2(n - 1); }
    }
  }

  lemma IdealGrows(c: BreakerConfig, j: nat, k: nat)
    requires Pow2(k) <= 2 * Pow2(j)
    ensures IdealCooldown(c, k) <= 2 * IdealCooldown(c, j)
  {
    CappedDouble(c.l2CooldownSecs, Pow2(j), Pow2(k), c.maxCooldownSecs);
  }

  lemma CappedDouble(base: u64, p: nat, q: nat, max: u64)
    requires q <= 2 * p
    ensures Min(max, base * q) <= 2 * Min(max, base * p)
  {
    ScaledUp(base, q, 2 * p);
    assert base * (2 * p) == 2 * (base * p);
  }

  lemma NextCooldown(b: Breaker)
    ensures CooldownForLevel(b.(l2TripCount := WrapU32(b.l2TripCount + 1)), Session) <= 2 * CooldownForLevel(b, Session)
  {
    CooldownIsExact(b);
    CooldownIsExact(b.(l2TripCount := WrapU32(b.l2TripCount + 1)));
    ExponentStep(b.l2TripCount);
    IdealGrows(b.config, Max(b.l2TripCount - 1, 0), Max(WrapU32(b.l2TripCount + 1) - 1, 0));
  }

  lemma ScaledUp(base: u64, p: nat, q: nat)
    requires p <= q
    ensures base * p <= base * q
  {
  }

  lemma TripTame(b: Breaker, reason: string, at: int)
    requires Tame(b) && !Panics(b, TripEvent(Session, reason, at))
    ensures Tame(Trip(b, Session, reason, at))
  {
    NextCooldown(b);
    assert CooldownForLevel(Trip(b, Session, reason, at), Session)
        == CooldownForLevel(b.(l2TripCount := WrapU32(b.l2TripCount + 1)), Session);
  }

  lemma StepTame(b: Breaker, e: Event)
    requires Tame(b) && !e.ReloadEvent? && (e.TripEvent? ==> e.level == Session) && !Panics(b, e)
    ensures Tame(Step(b, e))
  {
    if e.TripEvent? { TripTame(b, e.reason, e.at); }
  }

  lemma {:induction false} TameStays(b: Breaker, es: seq<Event>)
    requires Tame(b) && SessionFaults(es) && Returns(b, es)
    requires forall i :: 0 <= i < |es| ==> !es[i].ReloadEvent?
    ensures Tame(Run(b, es))
  {
    if es != [] {
      TameStays(b, es[..|es| - 1]);
      StepTame(Run(b, es[..|es| - 1]), es[|es| - 1]);
    }
  }

  lemma TamePenalty(b: Breaker)
    requires Tame(b) && b.state.HalfOpen?
    ensures ProbePenalty(b, Session) == Min(2 * CooldownForLevel(b, Session), b.config.maxCooldownSecs)
  {
    DoublingWraps(CooldownForLevel(b, Session));
  }

  /** Under a fixed configuration no run whose steps return ever reaches the wrap: every failed probe is
      penalised with the capped double. */
  lemma FixedConfigNeverWraps(b: Breaker, es: seq<Event>)
    requires Tame(b) && SessionFaults(es) && Returns(b, es)
    requires forall i :: 0 <= i < |es| ==> !es[i].ReloadEvent?
    ensures Tame(Run(b, es))
    ensures var c := Run(b, es);
            c.state.HalfOpen? ==> ProbePenalty(c, Session) == Min(2 * CooldownForLevel(c, Session), c.config.maxCooldownSecs)
  {
    TameStays(b, es);
    if Run(b, es).state.HalfOpen? { TamePenalty(Run(b, es)); }
  }

  // ── Bounds kept by every run ───────────────────────────────────────────────

  /** The largest maxima of all configurations a run has seen. */
  datatype Limits = Limits(cooldown: u64, observation: u64)

  ghost function LimitsAfter(b: Breaker, es: seq<Event>): Limits {
    if es == [] then Limits(b.config.maxCooldownSecs, b.config.recoveryObservationSecs)
    else
      var l, e := LimitsAfter(b, es[..|es| - 1]), es[|es| - 1];
      if e.ReloadEvent?
      then Limits(Max(l.cooldown, e.config.maxCooldownSecs), Max(l.observation, e.config.recoveryObservationSecs))
      else l
  }

  /** Open and HalfOpen carry the Session level, no cooldown or observation is longer than the limits, and
      a probe counter never reaches the value at which it would have left HalfOpen. */
  ghost predicate Bounded(b: Breaker, l: Limits) {
    match b.state
    case Open(level, _, at, until) => level == Session && at <= until <= at + l.cooldown * NANOS_PER_SEC
    case HalfOpen(level, _, done, required) => level == Session && done < Max(1, required)
    case Recovered(at, until) => at <= until <= at + l.observation * NANOS_PER_SEC
    case _ => true
  }

  ghost predicate Covers(l: Limits, c: BreakerConfig) {
    c.maxCooldownSecs <= l.cooldown && c.recoveryObservationSecs <= l.observation
  }

  lemma TripBounded(b: Breaker, l: Limits, reason: string, at: int)
    requires Bounded(b, l) && Covers(l, b.config)
    ensures Bounded(Trip(b, Session, reason, at), l)
  {
  }

  lemma TradeBounded(b: Breaker, l: Limits, success: bool, at: int)
    requires Bounded(b, l) && Covers(l, b.config)
    ensures Bounded(OnTradeResult(b, success, at), l)
    ensures b.state.HalfOpen? ==> b.state.successfulProbes < U32_MAX
  {
  }

  /** Bounded waits and Session-only recovery states hold at every point of every run, reloads included: a
      deadline set under an earlier configuration stays within the largest maximum seen. */
  lemma {:induction false} RunBounded(b: Breaker, es: seq<Event>)
    requires Bounded(b, LimitsAfter(b, [])) && SessionFaults(es)
    ensures Bounded(Run(b, es), LimitsAfter(b, es)) && Covers(LimitsAfter(b, es), Run(b, es).config)
  {
    if es != [] {
      var e, before := es[|es| - 1], es[..|es| - 1];
      RunBounded(b, before);
      var c, l := Run(b, before), LimitsAfter(b, before);
      match e {
        case TripEvent(_, reason, at) => TripBounded(c, l, reason, at);
        case TradeEvent(success, at) => TradeBounded(c, l, success, at);
        case _ =>
      }
    }
  }

  // ── Recovery ───────────────────────────────────────────────────────────────

  /** `times` reports of a successful probe. */
  function Probes(times: seq<int>): seq<Event> {
    seq(|times|, i requires 0 <= i < |times| => TradeEvent(true, times[i]))
  }

  /** `k` successes leave HalfOpen exactly when `k` reaches `max(1, required)`, and the observation
      window then starts at the last of them. */
  lemma {:induction false} ProbesRecover(b: Breaker, times: seq<int>)
    requires b.state.HalfOpen? && b.state.successfulProbes == 0
    requires |times| <= Max(1, b.state.requiredProbes)
    ensures var c := Run(b, Probes(times));
            && c.config == b.config && c.l2TripCount == b.l2TripCount
            && if |times| == Max(1, b.state.requiredProbes)
               then c.state == Recovered(times[|times| - 1],
                                         Deadline(times[|times| - 1], b.config.recoveryObservationSecs))
               else c.state == b.state.(successfulProbes := |times|)
  {
    if times != [] {
      var before := times[..|times| - 1];
      ProbesRecover(b, before);
      assert Probes(times)[..|times| - 1] == Probes(before);
    }
  }

  /** From any Open breaker, one tick past the deadline, `max(1, required)` successful probes and one
      tick past the observation window lead back to Closed with a zero trip count, whatever else the
      times are. */
  lemma RecoveryPath(b: Breaker, wake: int, times: seq<int>, done: int)
    requires b.state.Open? && wake >= b.state.cooldownUntil
    requires |times| == Max(1, b.config.halfOpenProbes)
    requires done >= Deadline(times[|times| - 1], b.config.recoveryObservationSecs)
    ensures var c := Run(b, [TickEvent(wake)] + Probes(times) + [TickEvent(done)]);
            c.state == Closed && c.l2TripCount == 0 && c.config == b.config
  {
    var woken := Step(b, TickEvent(wake));
    assert Run(b, [TickEvent(wake)]) == woken by { assert Run(b, []) == b; }
    ProbesRecover(woken, times);
    RunAppend(b, [TickEvent(wake)], Probes(times));
    RunAppend(b, [TickEvent(wake)] + Probes(times), [TickEvent(done)]);
    var observed := Run(b, [TickEvent(wake)] + Probes(times));
    assert Run(observed, [TickEvent(done)]) == Step(observed, TickEvent(done)) by {
      assert Run(observed, []) == observed;
    }
  }

  // ── When every run returns ─────────────────────────────────────────────────

  predicate NotAfter(e: Event, h: int) {
    match e
    case HeartbeatOkEvent => true
    case ReloadEvent(_) => true
    case _ => e.at <= h
  }

  /** A run of the breaker under one configuration, up to the instant `h`. */
  ghost predicate Ordinary(es: seq<Event>, h: int) {
    SessionFaults(es) && forall i :: 0 <= i < |es| ==> !es[i].ReloadEvent? && NotAfter(es[i], h)
  }

  ghost predicate NeverPanics(c: BreakerConfig, start: int, h: int) {
    forall es :: Ordinary(es, h) ==> Returns(New(c, start), es)
  }

  lemma {:induction false} OrdinaryReturns(b: Breaker, es: seq<Event>, h: int)
    requires SessionOnly(b) && Ordinary(es, h) && Fits(h, b.config.maxCooldownSecs) && Fits(h, b.config.recoveryObservationSecs)
    ensures Returns(b, es) && Run(b, es).config == b.config
  {
    if es != [] {
      var before, e := es[..|es| - 1], es[|es| - 1];
      OrdinaryReturns(b, before, h);
      SessionStays(b, before);
      assert NotAfter(e, h);
    }
  }

  function Trips(n: nat, at: int): (es: seq<Event>)
    ensures |es| == n
  {
    if n == 0 then [] else Trips(n - 1, at) + [TripEvent(Session, "", at)]
  }

  lemma NextTripCounted(b: Breaker, es: seq<Event>, n: nat, at: int)
    requires Run(b, es).l2TripCount + 1 == n <= U32_MAX
    ensures var r := Run(b, es + [TripEvent(Session, "", at)]); r.l2TripCount == n && r.config == Run(b, es).config
  {
    assert (es + [TripEvent(Session, "", at)])[..|es|] == es;
    WrapSmall(n);
  }

  lemma {:induction false} TripsOrdinary(n: nat, at: int)
    ensures Ordinary(Trips(n, at), at)
  {
    if n > 0 { TripsOrdinary(n - 1, at); }
  }

  lemma {:induction false} TripsCount(b: Breaker, n: nat, at: int)
    requires b.l2TripCount == 0 && n <= U32_MAX
    ensures Run(b, Trips(n, at)).l2TripCount == n && Run(b, Trips(n, at)).config == b.config
    ensures Ordinary(Trips(n, at), at)
  {
    TripsOrdinary(n, at);
    if n > 0 {
      TripsCount(b, n - 1, at);
      NextTripCounted(b, Trips(n - 1, at), n, at);
    }
  }

  /** Enough trips reach the maximum. */
  lemma TripsReachMaximum(c: BreakerConfig, start: int, h: int)
    requires c.l2CooldownSecs > 0 && !Fits(h, c.maxCooldownSecs)
    ensures Ordinary(Trips(66, h), h) && !Returns(New(c, start), Trips(66, h))
  {
    var b := New(c, start);
    TripsCount(b, 65, h);
    TripsCount(b, 66, h);
    assert Trips(66, h)[..65] == Trips(65, h);
    CooldownIsExact(Run(b, Trips(65, h)));
    HugePowers(64);
    ScaledUp(1, 1, c.l2CooldownSecs);
    AtMaximum(c.l2CooldownSecs, Pow2(64), c.maxCooldownSecs);
  }

  lemma AtMaximum(base: u64, p: nat, max: u64)
    requires base > 0 && p > U64_MAX
    ensures Min(max, base * p) == max
  {
    assert base * p >= 1 * p;
  }

  /** One trip, a tick past its deadline and successful probes reach the observation window. */
  lemma ProbesReachObservation(c: BreakerConfig, start: int, h: int) returns (es: seq<Event>)
    requires !Fits(h, c.recoveryObservationSecs)
    ensures Ordinary(es, h) && !Returns(New(c, start), es)
  {
    var b := New(c, start);
    var secs := CooldownForLevel(b, Session);
    var trip := TripEvent(Session, "", h - Min(secs, I64_MAX) * NANOS_PER_SEC);
    var woken := Step(Step(b, trip), TickEvent(h));
    assert woken.state == HalfOpen(Session, h, 0, c.halfOpenProbes);
    var k := Max(1, c.halfOpenProbes);
    var times := seq(k - 1, i => h);
    var lead := [trip, TickEvent(h)];
    RunOne(b, trip);
    assert lead[..1] == [trip];
    assert Run(b, lead) == woken;
    ProbesRecover(woken, times);
    RunAppend(b, lead, Probes(times));
    WrapSmall(k);
    es := lead + Probes(times) + [TradeEvent(true, h)];
    assert es[..|es| - 1] == lead + Probes(times);
  }

  /** With a positive base cooldown, every run up to the instant `h` returns exactly when the two configured
      maxima, counted from `h`, stay within what the calendar library holds. */
  lemma NeverPanicsIff(c: BreakerConfig, start: int, h: int)
    requires c.l2CooldownSecs > 0
    ensures NeverPanics(c, start, h) <==> Fits(h, c.maxCooldownSecs) && Fits(h, c.recoveryObservationSecs)
  {
    if !Fits(h, c.maxCooldownSecs) {
      TripsReachMaximum(c, start, h);
    } else if !Fits(h, c.recoveryObservationSecs) {
      var es := ProbesReachObservation(c, start, h);
    } else {
      forall es | Ordinary(es, h) ensures Returns(New(c, start), es) {
        OrdinaryReturns(New(c, start), es, h);
      }
    }
  }
}
