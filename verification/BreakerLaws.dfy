/** The breaker on the clock: how long a trip and an observation last in seconds, what the other fault levels
    wait, what heartbeats do, and what the operator's two releases do. */
module BreakerLaws {
  import opened MachineInts
  import opened CircuitBreakers
  import opened BreakerRuns

  // ── Time ───────────────────────────────────────────────────────────────────

  /** `secs` seconds have passed between the two instants. */
  predicate Passed(since: int, at: int, secs: nat) { at - since >= secs * 1_000_000_000 }

  /** Over every run, the n-th Session trip since the counter was zero stops trading until
      `min(max, base * 2^max(0, n - 2))` seconds have passed: the first tick from then on starts the probes, no
      earlier one does. */
  lemma TripLasts(b: Breaker, es: seq<Event>, reason: string, at: int, n: nat, tick: int)
    requires 1 <= n == SessionTrips(b, es) + 1 && n - 1 <= U32_MAX
    requires TripTakesEffect(Run(b, es).state, Session) && !Panics(Run(b, es), TripEvent(Session, reason, at))
    ensures var c, trip := Run(b, es).config, TripEvent(Session, reason, at);
            var ticked := Run(b, es + [trip] + [TickEvent(tick)]).state;
            var secs := Min(c.maxCooldownSecs, c.l2CooldownSecs * Pow2(if n >= 2 then n - 2 else 0));
      && (Passed(at, tick, secs) ==> ticked == HalfOpen(Session, tick, 0, c.halfOpenProbes))
      && (!Passed(at, tick, secs) ==> ticked.Open? && ticked.level == Session && ticked.trippedAt == at)
  {
    BackoffLaw(b, es, reason, at, n);
    CooldownFits(b, es, reason, at, n);
    RunAppend(b, es + [TripEvent(Session, reason, at)], [TickEvent(tick)]);
    RunOne(Run(b, es + [TripEvent(Session, reason, at)]), TickEvent(tick));
    TripKeepsConfig(b, es, reason, at);
  }

  lemma TripKeepsConfig(b: Breaker, es: seq<Event>, reason: string, at: int)
    ensures Run(b, es + [TripEvent(Session, reason, at)]).config == Run(b, es).config
  {
    RunAppend(b, es, [TripEvent(Session, reason, at)]);
    RunOne(Run(b, es), TripEvent(Session, reason, at));
  }

  lemma CooldownFits(b: Breaker, es: seq<Event>, reason: string, at: int, n: nat)
    requires 1 <= n == SessionTrips(b, es) + 1 && n - 1 <= U32_MAX && !Panics(Run(b, es), TripEvent(Session, reason, at))
    ensures IdealCooldown(Run(b, es).config, Max(n - 2, 0)) <= I64_MAX
  {
    TripCountTracksTrace(b, es);
    WrapSmall(SessionTrips(b, es));
    CooldownIsExact(Run(b, es));
  }

  /** The last probe of a recovery starts an observation that ends when its seconds have passed. */
  lemma ObservationLasts(b: Breaker, at: int, tick: int)
    requires b.state.HalfOpen? && !Panics(b, TradeEvent(true, at))
    requires WrapU32(b.state.successfulProbes + 1) >= b.state.requiredProbes
    ensures var ticked := Tick(OnTradeResult(b, true, at), tick);
      && (Passed(at, tick, b.config.recoveryObservationSecs) ==> ticked.state == Closed && ticked.l2TripCount == 0)
      && (!Passed(at, tick, b.config.recoveryObservationSecs) ==> ticked.state.Recovered? && ticked.l2TripCount == b.l2TripCount)
  {
  }

  // ── Fault levels ───────────────────────────────────────────────────────────

  /** A trip at another level waits for that level's own duration and does not count; no trip lowers the level of
      an open breaker or touches a halted one. */
  lemma LevelTrips(b: Breaker, level: Level, reason: string, now: int)
    requires !Panics(b, TripEvent(level, reason, now))
    ensures var r := Trip(b, level, reason, now);
            var secs := match level case Trade => b.config.l1CooldownSecs case Daily => b.config.l3CooldownSecs
                                    case System => b.config.l4CooldownSecs case Session => CooldownForLevel(b, Session);
      && (b.state.Halted? ==> r.state == b.state)
      && (b.state.Open? && b.state.level.Rank() > level.Rank() ==> r.state == b.state)
      && (!b.state.Halted? && !(b.state.Open? && b.state.level.Rank() > level.Rank()) ==>
           r.state == Open(level, reason, now, now + secs * 1_000_000_000))
      && (level != Session ==> r.l2TripCount == b.l2TripCount)
  {
  }

  // ── Heartbeats ─────────────────────────────────────────────────────────────

  function Heartbeats(max: u32, times: seq<int>): (es: seq<Event>)
    ensures |es| == |times|
  {
    if times == [] then [] else Heartbeats(max, times[..|times| - 1]) + [HeartbeatEvent(max, times[|times| - 1])]
  }

  /** Consecutive heartbeat failures halt the breaker at System exactly when they reach the limit, and change
      nothing but their count before. */
  lemma {:induction false} HeartbeatsHaltIff(b: Breaker, max: u32, times: seq<int>)
    requires !b.state.Halted? && b.heartbeatFailures == 0 && |times| <= U32_MAX
    ensures var r := Run(b, Heartbeats(max, times));
      && r.heartbeatFailures == |times|
      && (r.state.Halted? <==> times != [] && |times| >= max)
      && (r.state.Halted? ==> r.state.level == System)
      && (!r.state.Halted? ==> r == b.(heartbeatFailures := |times|))
  {
    if times != [] {
      var n := |times| - 1;
      HeartbeatsHaltIff(b, max, times[..n]);
      assert Heartbeats(max, times)[..n] == Heartbeats(max, times[..n]);
    }
  }

  // ── The operator's releases ────────────────────────────────────────────────

  /** A reset closes the breaker from every state; an acknowledgement closes exactly a halted one and leaves every
      other state alone.  Both start the trip count over, and neither touches the configuration. */
  lemma ReleasesClose(b: Breaker, now: int)
    ensures var r := Reset(b, now); r.state == Closed && r.l2TripCount == 0 && r.config == b.config
    ensures var a := AcknowledgeAndResume(b, now);
      && (b.state.Halted? ==> a.state == Closed && a.l2TripCount == 0 && a.config == b.config)
      && (!b.state.Halted? ==> a == b)
  {
  }
}
