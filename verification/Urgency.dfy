/** The urgency multiplier: a smoothstep from one to three as settlement approaches, in micro units. */
module Urgency {
  import opened MachineInts

  function Remaining(hours: int, window: u64): int { Min(Max(hours, 0), window) }

  function Progress(remaining: int, window: u64): int
    requires window > 0
  {
    (window - remaining) * MICRO / window
  }

  function Smoothstep(t: int): int { t * t * (3 * MICRO - 2 * t) / MICRO / MICRO }

  function Compute(hours: int, window: u64): int {
    if window == 0 then MICRO
    else
      var t := Max(0, Min(ToI64(Progress(Remaining(hours, window), window), MICRO), MICRO));
      Max(ToI64(MICRO + 2 * Smoothstep(t), MICRO), 0)
  }

  lemma QuotientMonotone(m: int, n: int, d: int)
    requires 0 <= m <= n && d > 0
    ensures 0 <= m / d <= n / d
  {
    var x, y := m / d, n / d;
    Quotient(m, d);
    Quotient(n, d);
    if x > y {
      Widen(y + 1, x, d);
      assert false;
    }
  }

  lemma Quotient(n: int, d: int)
    requires n >= 0 && d > 0
    ensures 0 <= n / d && n / d * d <= n < (n / d + 1) * d
  {
  }

  lemma Widen(x: int, y: int, d: int)
    requires 0 <= x <= y && d >= 0
    ensures 0 <= x * d <= y * d
  {
  }

  lemma ExactQuotient(q: int, d: int)
    requires q >= 0 && d > 0
    ensures d * q / d == q
  {
    Widen(0, q, d);
    Quotient(d * q, d);
    var r := d * q / d;
    if r < q {
      Widen(r + 1, q, d);
      assert false;
    }
    if r > q {
      Widen(q + 1, r, d);
      assert false;
    }
  }

  lemma ProgressBounds(r: int, s: int, window: u64)
    requires 0 <= r <= s <= window && window > 0
    ensures 0 <= Progress(s, window) <= Progress(r, window) <= MICRO
  {
    Widen(window - s, window - r, MICRO);
    QuotientMonotone((window - s) * MICRO, (window - r) * MICRO, window);
    Widen(window - r, window, MICRO);
    QuotientMonotone((window - r) * MICRO, window * MICRO, window);
    ExactQuotient(MICRO, window);
  }

  /** The cubic rises on the whole unit interval: its growth from `t` to `u` is a product of non-negatives. */
  lemma CubicRises(t: int, u: int)
    requires 0 <= t <= u <= MICRO
    ensures 0 <= t * t * (3 * MICRO - 2 * t) <= u * u * (3 * MICRO - 2 * u)
  {
    var grow := 3 * MICRO * (t + u) - 2 * (t * t + t * u + u * u);
    Factor(t, u);
    SlopeNonNegative(t, u);
    Widen(0, grow, u - t);
    Widen(0, t, t);
    Widen(0, t * t, 3 * MICRO - 2 * t);
  }

  lemma Factor(t: int, u: int)
    ensures u * u * (3 * MICRO - 2 * u) - t * t * (3 * MICRO - 2 * t)
         == (3 * MICRO * (t + u) - 2 * (t * t + t * u + u * u)) * (u - t)
  {
    Square(t, u);
    Cube(t, u);
  }

  lemma Square(t: int, u: int)
    ensures u * u - t * t == (t + u) * (u - t)
  {
  }

  lemma Cube(t: int, u: int)
    ensures u * u * u - t * t * t == (t * t + t * u + u * u) * (u - t)
  {
  }

  lemma SlopeNonNegative(t: int, u: int)
    requires 0 <= t <= u <= MICRO
    ensures 3 * MICRO * (t + u) - 2 * (t * t + t * u + u * u) >= 0
  {
    Widen(t, MICRO, t);
    Widen(u, MICRO, t);
    Widen(u, MICRO, u);
  }

  lemma SmoothstepBounds(t: int, u: int)
    requires 0 <= t <= u <= MICRO
    ensures 0 <= Smoothstep(t) <= Smoothstep(u) <= MICRO
  {
    CubicRises(t, u);
    CubicRises(u, MICRO);
    var x, y, z := t * t * (3 * MICRO - 2 * t), u * u * (3 * MICRO - 2 * u), MICRO * MICRO * (3 * MICRO - 2 * MICRO);
    QuotientMonotone(x, y, MICRO);
    QuotientMonotone(y, z, MICRO);
    QuotientMonotone(x / MICRO, y / MICRO, MICRO);
    QuotientMonotone(y / MICRO, z / MICRO, MICRO);
  }

  /** Without the clamps and conversions: they never take effect. */
  lemma FallbackNeverTaken(hours: int, window: u64)
    requires window > 0
    ensures Compute(hours, window) == MICRO + 2 * Smoothstep(Progress(Remaining(hours, window), window))
  {
    ProgressBounds(Remaining(hours, window), Remaining(hours, window), window);
    SmoothstepBounds(Progress(Remaining(hours, window), window), MICRO);
  }

  lemma WindowEnds(window: u64)
    requires window > 0
    ensures Progress(0, window) == MICRO && Progress(window, window) == 0
    ensures Smoothstep(MICRO) == MICRO && Smoothstep(0) == 0
  {
    ExactQuotient(MICRO, window);
  }

  lemma UrgencyFalls(hours: int, later: int, window: u64)
    requires hours <= later && window > 0
    ensures MICRO <= Compute(later, window) <= Compute(hours, window) <= 3 * MICRO
  {
    var r, s := Remaining(hours, window), Remaining(later, window);
    FallbackNeverTaken(hours, window);
    FallbackNeverTaken(later, window);
    ProgressBounds(r, s, window);
    SmoothstepBounds(Progress(s, window), Progress(r, window));
  }

  /** Between one and three; exactly three at or past the deadline, exactly one at or beyond the window;
      and never lower with less time left. */
  lemma UrgencyLaws(hours: int, later: int, window: u64)
    requires hours <= later
    ensures MICRO <= Compute(later, window) <= Compute(hours, window) <= 3 * MICRO
    ensures window > 0 && hours <= 0 ==> Compute(hours, window) == 3 * MICRO
    ensures later >= window ==> Compute(later, window) == MICRO
  {
    if window > 0 {
      UrgencyFalls(hours, later, window);
      WindowEnds(window);
      FallbackNeverTaken(hours, window);
      FallbackNeverTaken(later, window);
      assert later >= window ==> Remaining(later, window) == window;
    }
  }

  // ── The value ──────────────────────────────────────────────────────────────

  lemma TwiceDivided(x: int, d: int)
    requires x >= 0 && d > 0
    ensures x / d / d * (d * d) <= x < (x / d / d + 1) * (d * d)
  {
    var q := x / d;
    var r := q / d;
    Quotient(x, d);
    Quotient(q, d);
    Widen(r * d, q, d);
    Widen(q + 1, (r + 1) * d, d);
    Regroup(r, d);
    Regroup(r + 1, d);
  }

  lemma Regroup(r: int, d: int)
    ensures r * d * d == r * (d * d)
  {
  }

  lemma OnlyQuotient(n: int, d: int, q: int)
    requires n >= 0 && d > 0 && q * d <= n < (q + 1) * d
    ensures n / d == q
  {
    Quotient(n, d);
    var r := n / d;
    if r < q {
      Widen(r + 1, q, d);
      assert false;
    }
    if r > q {
      Widen(q + 1, r, d);
      assert false;
    }
  }

  /** With `t` the elapsed part of the window in millionths, rounded down, the multiplier is one plus twice the
      cubic `3t^2 - 2t^3`, rounded down to millionths. */
  lemma UrgencyIsCubic(hours: int, window: u64, t: int)
    requires window > 0
    requires var elapsed := window - (if hours < 0 then 0 else if hours > window then window else hours);
             t * window <= elapsed * MICRO < (t + 1) * window
    ensures var s := (Compute(hours, window) - MICRO) / 2;
      && Compute(hours, window) == MICRO + 2 * s
      && s * (MICRO * MICRO) <= t * t * (3 * MICRO - 2 * t) < (s + 1) * (MICRO * MICRO)
  {
    var r := Remaining(hours, window);
    Widen(0, window - r, MICRO);
    OnlyQuotient((window - r) * MICRO, window, t);
    ProgressBounds(r, r, window);
    FallbackNeverTaken(hours, window);
    SmoothstepIsCubic(t);
    HalfOf(Compute(hours, window), Smoothstep(t));
  }

  lemma HalfOf(x: int, s: int)
    requires x == MICRO + 2 * s
    ensures (x - MICRO) / 2 == s
  {
  }

  lemma SmoothstepIsCubic(t: int)
    requires 0 <= t <= MICRO
    ensures Smoothstep(t) * (MICRO * MICRO) <= t * t * (3 * MICRO - 2 * t) < (Smoothstep(t) + 1) * (MICRO * MICRO)
  {
    CubicRises(t, t);
    TwiceDivided(t * t * (3 * MICRO - 2 * t), MICRO);
  }
}
