/** The five-state circuit breaker of the risk engine.

    `Breaker` is the value the Rust struct holds; the functions below give the effect of each
    operation on it, and class `CircuitBreaker` performs the same operations by updating its
    fields in place.  Instants are nanoseconds, durations in configuration are seconds. */
module CircuitBreakers {
  import opened MachineInts

  datatype Level = Trade | Session | Daily | System {
    function Rank(): nat {
      match this
      case Trade => 1
      case Session => 2
      case Daily => 3
      case System => 4
    }

    predicate AtLeast(other: Level) { Rank() >= other.Rank() }
  }

  datatype BreakerState =
    | Closed
    | Open(level: Level, reason: string, trippedAt: int, cooldownUntil: int)
    | HalfOpen(level: Level, enteredAt: int, successfulProbes: u32, requiredProbes: u32)
    | Recovered(enteredAt: int, observationUntil: int)
    | Halted(level: Level, reason: string, haltedAt: int)
  {
    predicate AllowsTrading() { Closed? || HalfOpen? }

    predicate IsProbeMode() { HalfOpen? }
  }

  datatype BreakerConfig = BreakerConfig(
    l1CooldownSecs: u64,
    l2CooldownSecs: u64,
    l3CooldownSecs: u64,
    l4CooldownSecs: u64,
    halfOpenProbes: u32,
    recoveryObservationSecs: u64,
    maxCooldownSecs: u64)

  datatype Breaker = Breaker(
    config: BreakerConfig,
    state: BreakerState,
    l2TripCount: u32,
    heartbeatFailures: u32,
    lastTransitionAt: int)

  const PROBE_FAILED: string := "probe trade failed in HalfOpen"
  const HEARTBEATS_LOST: string := "consecutive heartbeat failures"

  /** The last instant the calendar type holds, in December of the year 262142. */
  const LAST_INSTANT: int := 8_210_266_876_799_999_999_999

  /** A duration of `secs` seconds can be built and added to `now`; otherwise the program panics. */
  predicate Fits(now: int, secs: u64) {
    secs <= I64_MAX / 1000 && now + secs * NANOS_PER_SEC <= LAST_INSTANT
  }

  /** `now + Duration::seconds(to_i64(secs).unwrap_or(i64::MAX))` */
  function Deadline(now: int, secs: u64): int { now + Min(secs, I64_MAX) * NANOS_PER_SEC }

  // ── Operations on the value ────────────────────────────────────────────────

  function New(config: BreakerConfig, now: int): Breaker { Breaker(config, Closed, 0, 0, now) }

  function CooldownForLevel(b: Breaker, level: Level): u64 {
    match level
    case Trade => b.config.l1CooldownSecs
    case Session =>
      var exponent := Max(b.l2TripCount - 1, 0);
      var multiplied := SaturateU64(b.config.l2CooldownSecs * SaturateU64(Pow2(exponent)));
      Min(multiplied, b.config.maxCooldownSecs)
    case Daily => b.config.l3CooldownSecs
    case System => b.config.l4CooldownSecs
  }

  predicate TripTakesEffect(s: BreakerState, level: Level) {
    match s
    case Halted(_, _, _) => false
    case Open(current, _, _, _) => level.AtLeast(current)
    case _ => true
  }

  function Trip(b: Breaker, level: Level, reason: string, now: int): Breaker {
    var until := Deadline(now, CooldownForLevel(b, level));
    var counted := if level == Session then b.(l2TripCount := WrapU32(b.l2TripCount + 1)) else b;
    if TripTakesEffect(b.state, level)
    then counted.(state := Open(level, reason, now, until), lastTransitionAt := now)
    else counted
  }

  function Halt(b: Breaker, level: Level, reason: string, now: int): Breaker {
    if b.state.Halted? && level.Rank() <= b.state.level.Rank() then b
    else b.(state := Halted(level, reason, now), lastTransitionAt := now)
  }

  function AcknowledgeAndResume(b: Breaker, now: int): Breaker {
    if b.state.Halted? then b.(state := Closed, l2TripCount := 0, lastTransitionAt := now) else b
  }

  function Tick(b: Breaker, now: int): Breaker {
    match b.state
    case Open(level, _, _, until) =>
      if now >= until
      then b.(state := HalfOpen(level, now, 0, b.config.halfOpenProbes), lastTransitionAt := now)
      else b
    case Recovered(_, until) =>
      if now >= until then b.(state := Closed, l2TripCount := 0, lastTransitionAt := now) else b
    case _ => b
  }

  predicate TickTransitions(s: BreakerState, now: int) {
    (s.Open? && now >= s.cooldownUntil) || (s.Recovered? && now >= s.observationUntil)
  }

  /** The cooldown after a failed probe: doubled with plain `u64` arithmetic, then capped. */
  function ProbePenalty(b: Breaker, level: Level): u64 {
    Min(WrapU64(CooldownForLevel(b, level) * 2), b.config.maxCooldownSecs)
  }

  function OnTradeResult(b: Breaker, success: bool, now: int): Breaker {
    match b.state
    case HalfOpen(level, enteredAt, successful, required) =>
      if success then
        var n := WrapU32(successful + 1);
        if n >= required
        then b.(state := Recovered(now, Deadline(now, b.config.recoveryObservationSecs)), lastTransitionAt := now)
        else b.(state := HalfOpen(level, enteredAt, n, required))
      else
        b.(state := Open(level, PROBE_FAILED, now, Deadline(now, ProbePenalty(b, level))), lastTransitionAt := now)
    case _ => b
  }

  function Reset(b: Breaker, now: int): Breaker {
    b.(state := Closed, l2TripCount := 0, lastTransitionAt := now)
  }

  function HeartbeatFailure(b: Breaker, maxFailures: u32, now: int): Breaker {
    var c := b.(heartbeatFailures := SaturateU32(b.heartbeatFailures + 1));
    if c.heartbeatFailures >= maxFailures then Halt(c, System, HEARTBEATS_LOST, now) else c
  }

  // ── The in-place object ────────────────────────────────────────────────────

  class CircuitBreaker {
    var config: BreakerConfig
    var state: BreakerState
    var l2TripCount: u32
    var heartbeatFailures: u32
    var lastTransitionAt: int

    ghost function Value(): Breaker
      reads this
    {
      Breaker(config, state, l2TripCount, heartbeatFailures, lastTransitionAt)
    }

    constructor (b: Breaker)
      ensures Value() == b
    {
      config := b.config;
      state := b.state;
      l2TripCount := b.l2TripCount;
      heartbeatFailures := b.heartbeatFailures;
      lastTransitionAt := b.lastTransitionAt;
    }

    /** The clone the engine keeps while a fill commit is pending. */
    method Capture() returns (b: Breaker)
      ensures b == Value()
    {
      b := Breaker(config, state, l2TripCount, heartbeatFailures, lastTransitionAt);
    }

    method Restore(b: Breaker)
      modifies this
      ensures Value() == b
    {
      config := b.config;
      state := b.state;
      l2TripCount := b.l2TripCount;
      heartbeatFailures := b.heartbeatFailures;
      lastTransitionAt := b.lastTransitionAt;
    }

    method SetConfig(c: BreakerConfig)
      modifies this
      ensures Value() == old(Value()).(config := c)
    {
      config := c;
    }

    method CooldownSecs(level: Level) returns (secs: u64)
      ensures secs == CooldownForLevel(Value(), level)
    {
      match level
      case Trade => secs := config.l1CooldownSecs;
      case Session =>
        var exponent: nat := Max(l2TripCount - 1, 0);
        secs := Min(SaturateU64(config.l2CooldownSecs * SaturateU64(Pow2(exponent))), config.maxCooldownSecs);
      case Daily => secs := config.l3CooldownSecs;
      case System => secs := config.l4CooldownSecs;
    }

    method TripTo(level: Level, reason: string, now: int)
      modifies this
      ensures Value() == Trip(old(Value()), level, reason, now)
    {
      var secs := CooldownSecs(level);
      if level == Session {
        l2TripCount := WrapU32(l2TripCount + 1);
      }
      var shouldTrip := !state.Halted? && (state.Open? ==> level.AtLeast(state.level));
      if shouldTrip {
        state := Open(level, reason, now, Deadline(now, secs));
        lastTransitionAt := now;
      }
    }

    method HaltAt(level: Level, reason: string, now: int)
      modifies this
      ensures Value() == Halt(old(Value()), level, reason, now)
    {
      if !state.Halted? || level.Rank() > state.level.Rank() {
        state := Halted(level, reason, now);
        lastTransitionAt := now;
      }
    }

    method Acknowledge(now: int) returns (wasHalted: bool)
      modifies this
      ensures Value() == AcknowledgeAndResume(old(Value()), now)
      ensures wasHalted == old(state.Halted?)
    {
      wasHalted := state.Halted?;
      if wasHalted {
        state := Closed;
        l2TripCount := 0;
        lastTransitionAt := now;
      }
    }

    method TickAt(now: int) returns (transitioned: bool)
      modifies this
      ensures Value() == Tick(old(Value()), now)
      ensures transitioned == TickTransitions(old(state), now)
      ensures transitioned <==> Value() != old(Value())
    {
      transitioned := false;
      match state {
        case Open(level, _, _, until) =>
          if now >= until {
            state := HalfOpen(level, now, 0, config.halfOpenProbes);
            lastTransitionAt := now;
            transitioned := true;
          }
        case Recovered(_, until) =>
          if now >= until {
            state := Closed;
            l2TripCount := 0;
            lastTransitionAt := now;
            transitioned := true;
          }
        case _ =>
      }
    }

    method ReportTrade(success: bool, now: int)
      modifies this
      ensures Value() == OnTradeResult(old(Value()), success, now)
    {
      match state {
        case HalfOpen(level, enteredAt, successful, required) =>
          if success {
            var n := WrapU32(successful + 1);
            state := HalfOpen(level, enteredAt, n, required);
            if n >= required {
              state := Recovered(now, Deadline(now, config.recoveryObservationSecs));
              lastTransitionAt := now;
            }
          } else {
            var secs := CooldownSecs(level);
            secs := Min(WrapU64(secs * 2), config.maxCooldownSecs);
            state := Open(level, PROBE_FAILED, now, Deadline(now, secs));
            lastTransitionAt := now;
          }
        case _ =>
      }
    }

    method ResetTo(now: int)
      modifies this
      ensures Value() == Reset(old(Value()), now)
    {
      state := Closed;
      l2TripCount := 0;
      lastTransitionAt := now;
    }

    method OnHeartbeatFailure(maxFailures: u32, now: int) returns (tripped: bool)
      modifies this
      ensures Value() == HeartbeatFailure(old(Value()), maxFailures, now)
      ensures tripped <==> heartbeatFailures >= maxFailures
      ensures tripped ==> state.Halted? && state.level == System
      ensures !tripped ==> state == old(state)
    {
      heartbeatFailures := SaturateU32(heartbeatFailures + 1);
      tripped := heartbeatFailures >= maxFailures;
      if tripped {
        HaltAt(System, HEARTBEATS_LOST, now);
      }
    }

    method OnHeartbeatSuccess()
      modifies this
      ensures Value() == old(Value()).(heartbeatFailures := 0)
    {
      heartbeatFailures := 0;
    }
  }
}
