/**
 Interleaved samples: `channels` of them make a frame, and every buffer between
 the decoder and the speaker holds whole frames. Products and quotients by the
 number of channels are defined by counting frames, and proved equal to what
 the source computes.
*/
module Interleaved {
  import opened Arithmetic

  /** `n` samples are whole frames. */
  ghost predicate Whole(n: nat, channels: nat)
    requires channels > 0
  {
    n == 0 || (n >= channels && Whole(n - channels, channels))
  }

  /** The samples of `frames` frames. */
  ghost function Span(frames: nat, channels: nat): nat {
    if frames == 0 then 0 else channels + Span(frames - 1, channels)
  }

  /** The whole frames in `n` samples. */
  ghost function Frames(n: nat, channels: nat): nat
    requires channels > 0
  {
    if n < channels then 0 else 1 + Frames(n - channels, channels)
  }

  lemma {:induction false} SpanIsProduct(frames: nat, channels: nat)
    ensures Span(frames, channels) == frames * channels
  {
    if frames == 0 {
    } else {
      SpanIsProduct(frames - 1, channels);
    }
  }

  lemma {:induction false} FramesIsQuotient(n: nat, channels: nat)
    requires channels > 0
    ensures Frames(n, channels) == n / channels
  {
    if n < channels {
      DivUnique(n, channels, 0, n);
    } else {
      FramesIsQuotient(n - channels, channels);
      DivBounds(n - channels, channels);
      DivUnique(n, channels, (n - channels) / channels + 1, (n - channels) % channels);
    }
  }

  lemma {:induction false} WholeIsMultiple(n: nat, channels: nat)
    requires channels > 0
    ensures Whole(n, channels) <==> n % channels == 0
  {
    if n < channels {
      DivUnique(n, channels, 0, n);
    } else {
      WholeIsMultiple(n - channels, channels);
      DivBounds(n - channels, channels);
      DivUnique(n, channels, (n - channels) / channels + 1, (n - channels) % channels);
    }
  }

  lemma {:induction false} SpanSum(a: nat, b: nat, channels: nat)
    ensures Span(a + b, channels) == Span(a, channels) + Span(b, channels)
  {
    if a == 0 {
    } else {
      SpanSum(a - 1, b, channels);
    }
  }

  lemma SpanMonotone(a: nat, b: nat, channels: nat)
    requires a <= b
    ensures Span(b, channels) == Span(a, channels) + Span(b - a, channels)
  {
    SpanSum(a, b - a, channels);
  }

  lemma {:induction false} SpanPositive(frames: nat, channels: nat)
    requires channels > 0
    ensures frames <= Span(frames, channels)
  {
    if frames == 0 {
    } else {
      SpanPositive(frames - 1, channels);
    }
  }

  lemma {:induction false} FramesOfSpan(frames: nat, channels: nat)
    requires channels > 0
    ensures Whole(Span(frames, channels), channels)
    ensures Frames(Span(frames, channels), channels) == frames
  {
    if frames == 0 {
    } else {
      FramesOfSpan(frames - 1, channels);
    }
  }

  lemma {:induction false} SpanOfFrames(n: nat, channels: nat)
    requires channels > 0
    ensures Span(Frames(n, channels), channels) <= n
    ensures Whole(n, channels) <==> Span(Frames(n, channels), channels) == n
  {
    if n >= channels {
      SpanOfFrames(n - channels, channels);
    }
  }

  lemma {:induction false} FramesAtMost(n: nat, channels: nat)
    requires channels > 0
    ensures Frames(n, channels) <= n
  {
    if n < channels {
    } else {
      FramesAtMost(n - channels, channels);
    }
  }

  lemma {:induction false} WholeSum(a: nat, b: nat, channels: nat)
    requires channels > 0 && Whole(a, channels)
    ensures Whole(a + b, channels) <==> Whole(b, channels)
    ensures Frames(a + b, channels) == Frames(a, channels) + Frames(b, channels)
    decreases a
  {
    if a == 0 {
    } else {
      WholeSum(a - channels, b, channels);
    }
  }

  // The source's arithmetic, each result stated by counting.

  method FrameCount(n: nat, channels: nat) returns (frames: nat)
    requires channels > 0
    ensures frames == Frames(n, channels)
  {
    FramesIsQuotient(n, channels);
    frames := n / channels;
  }

  method SampleCount(frames: nat, channels: nat) returns (n: nat)
    ensures n == Span(frames, channels)
  {
    SpanIsProduct(frames, channels);
    n := frames * channels;
  }

  method IsMultipleOf(n: nat, channels: nat) returns (whole: bool)
    requires channels > 0
    ensures whole == Whole(n, channels)
  {
    WholeIsMultiple(n, channels);
    whole := n % channels == 0;
  }

  /** All of `s` after its first `n` elements, if it has that many. */
  function Drop<T>(s: seq<T>, n: nat): seq<T> {
    if n <= |s| then s[n..] else []
  }

  function Take<T>(s: seq<T>, n: nat): seq<T> {
    if n <= |s| then s[..n] else s
  }

  function Silence(n: nat): (s: seq<int>)
    ensures |s| == n
  {
    seq(n, _ => 0)
  }
}
