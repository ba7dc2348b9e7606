/**
 Track frames and durations: `frames_to_duration`, `duration_to_frames` and
 what a trip through both loses. A duration is a count of nanoseconds.
*/
module FrameTime {
  import opened Arithmetic

  const NANOS: nat := 1_000_000_000
  const U64_MAX: nat := 0xFFFF_FFFF_FFFF_FFFF
  const U32_MAX: nat := 0xFFFF_FFFF

  /** Whole seconds and the nanoseconds of the rest, divided separately. */
  function FramesToDuration(frames: nat, rate: nat): nat {
    var r := if rate == 0 then 1 else rate;
    frames / r * NANOS + frames % r * NANOS / r
  }

  /** Saturates at the largest 64-bit count. */
  function DurationToFrames(duration: nat, rate: nat): nat {
    var frames := duration * rate / NANOS;
    if frames <= U64_MAX then frames else U64_MAX
  }

  /** Splitting off the seconds first changes nothing: the result is the exact
      duration, rounded down. No intermediate product leaves 64 bits. */
  lemma FramesToDurationIsExact(frames: nat, rate: nat)
    requires 0 < rate <= U32_MAX && frames <= U64_MAX
    ensures FramesToDuration(frames, rate) == frames * NANOS / rate
    ensures frames % rate * NANOS <= U64_MAX
  {
    SplitQuotient(frames, rate, NANOS);
    DivBounds(frames, rate);
    MulAtMost(frames % rate, rate, NANOS);
  }

  lemma SplitQuotient(f: nat, r: nat, n: nat)
    requires r > 0
    ensures f / r * n + f % r * n / r == f * n / r
  {
    var q, m := f / r, f % r;
    var d, e := m * n / r, m * n % r;
    DivBounds(f, r);
    DivBounds(m * n, r);
    Recombine(f, r, q, m, n, d, e);
    DivUnique(f * n, r, q * n + d, e);
  }

  lemma Recombine(f: nat, r: nat, q: nat, m: nat, n: nat, d: nat, e: nat)
    requires f == r * q + m && m * n == r * d + e
    ensures f * n == r * (q * n + d) + e
  {
    Spread(r * q, m, n);
    Regroup(r, q, n);
    Factor(r, q * n, d);
  }

  lemma Spread(a: nat, b: nat, c: nat)
    ensures (a + b) * c == a * c + b * c
  {
  }

  lemma Regroup(a: nat, b: nat, c: nat)
    ensures a * b * c == a * (b * c)
  {
  }

  lemma MulAtMost(a: nat, b: nat, c: nat)
    requires a <= b
    ensures a * c <= b * c
  {
    Spread(a, b - a, c);
  }

  lemma ConversionsAreMonotone(a: nat, b: nat, rate: nat)
    requires a <= b
    ensures FramesToDuration(a, rate) <= FramesToDuration(b, rate)
    ensures DurationToFrames(a, rate) <= DurationToFrames(b, rate)
  {
    var r := if rate == 0 then 1 else rate;
    SplitQuotient(a, r, NANOS);
    SplitQuotient(b, r, NANOS);
    ScaledMonotone(a, b, NANOS, r);
    ScaledMonotone(a, b, rate, NANOS);
  }

  lemma ScaledMonotone(a: nat, b: nat, c: nat, d: nat)
    requires a <= b && d > 0
    ensures a * c / d <= b * c / d
  {
    MulAtMost(a, b, c);
    DivMonotone(a * c, b * c, d);
  }

  /** Frames to a duration and back loses one frame exactly when the duration
      was rounded (for any rate up to one frame a nanosecond). */
  lemma RoundTripLosesAtMostOneFrame(frames: nat, rate: nat)
    requires 0 < rate <= NANOS && frames <= U64_MAX
    ensures var back := DurationToFrames(FramesToDuration(frames, rate), rate);
      back == if frames * NANOS % rate == 0 then frames else frames - 1
  {
    SplitQuotient(frames, rate, NANOS);
    BackAgain(frames, rate, NANOS);
  }

  lemma BackAgain(f: nat, r: nat, n: nat)
    requires 0 < r <= n
    ensures f * n / r * r / n == if f * n % r == 0 then f else f - 1
  {
    var d, e := f * n / r, f * n % r;
    DivBounds(f * n, r);
    Swap(r, d);
    Swap(f, n);
    if e == 0 {
      DivUnique(d * r, n, f, 0);
    } else {
      NotZero(f, n, r, d, e);
      Factor(n, f - 1, 1);
      DivUnique(d * r, n, f - 1, n - e);
    }
  }

  lemma Swap(a: nat, b: nat)
    ensures a * b == b * a
  {
  }

  lemma NotZero(f: nat, n: nat, r: nat, d: nat, e: nat)
    requires f * n == r * d + e && e > 0
    ensures f > 0
  {
  }

  /** At 44.1 kHz, frame 1 comes back as frame 0. */
  lemma RoundTripLosesAFrame()
    ensures DurationToFrames(FramesToDuration(1, 44_100), 44_100) == 0
  {
  }
}
