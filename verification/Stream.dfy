/**
 The worker's open stream: what it wrote, what of it has played, and the
 silence behind the track's last frame.
*/
module Streams {
  import opened Arithmetic
  import opened Interleaved
  import opened Wrappers
  import opened Seals
  import opened Output

  class Stream {
    const output: MemoryOutput
    /** All frames the output took, of the track and of silence. */
    var written: nat
    /** Frames known to have played. */
    var played: nat
    /** Samples of the track written but not known to have played. */
    var unplayed: seq<int>
    /** Frames of the track written, once its end is queued. */
    var end: Option<nat>
    /** What is left of the padding. */
    var pad: nat
    var started: bool
    /** The track's samples written: those known to have played, then
        `unplayed`. */
    ghost var sent: seq<int>
    ghost var heard: seq<int>
    /** Frames of silence written. */
    ghost var padded: nat

    /** Everything the output accepted is the track's samples, then silence;
        `unplayed` is what of the samples is not known to have played. */
    ghost predicate Valid()
      reads this, output, output.sink
    {
      var holds :=
      && output.Valid()
      && written == output.written && played <= output.played
      && TrackThenSilence(output.accepted, sent, Span(padded, output.channels))
      && |sent| == Span(TrackFrames(), output.channels)
      && Divides(sent, heard, unplayed) && |heard| == Span(Position(), output.channels)
      && (end.None? ==> padded == 0 && pad == 0)
      && (end.Some? ==> written == end.value + padded && Padded(end.value, written + pad))
      && (started ==> output.startedAt.Some?);
      holds
    }

    /** The frames of the track written so far. */
    ghost function TrackFrames(): nat
      reads this
    {
      if end.Some? then end.value else written
    }

    /** The padding fills the track's last period and one more. */
    ghost predicate Padded(end: nat, total: nat)
      requires output.sink.periodFrames > 0
    {
      Whole(total, output.sink.periodFrames) && total >= end + output.sink.periodFrames
    }

    /** The frames of the track known to have played: padding is not counted. */
    ghost function Position(): nat
      reads this
    {
      Min(played, TrackFrames())
    }

    method TrackPosition() returns (n: nat)
      requires Valid()
      ensures n == Position()
    {
      n := if end.Some? then Min(played, end.value) else played;
    }

    /** The track's last frame is known to have played. */
    ghost predicate Ended()
      reads this
    {
      end.Some? && played >= end.value
    }

    lemma NothingUnplayed()
      requires Valid() && Ended()
      ensures unplayed == []
    {
      Divided(sent, heard, unplayed);
    }

    /** The queue holds no more. */
    ghost predicate Full()
      reads this, output
    {
      output.written - output.played == output.sink.queueFrames
    }

    /** The output plays, and something for it to play is there. */
    ghost predicate Flowing()
      reads this, output
    {
      output.startedAt.Some? && (Full() || (end.Some? && pad == 0))
    }

    /** A stream that plays goes on, and what was due to play is known to have. */
    twostate predicate KeepsUp()
      reads this, output
      requires 0 < output.sink.periodFrames && old(allocated(output.sink.clock))
    {
      var holds :=
      && (old(output.startedAt).Some? ==> output.startedAt == old(output.startedAt))
      && played >= Max(old(output.played),
        Min(old(output.Due(output.sink.clock.now)), Playable(old(output.written), output.sink.periodFrames)));
      holds
    }

    constructor (output: MemoryOutput)
      requires output.Valid() && output.accepted == [] && output.written == output.played == 0
      ensures Valid() && this.output == output && played == 0 && end == None
      ensures sent == [] && heard == [] && unplayed == []
    {
      this.output := output;
      written, played, unplayed, end, pad, started := 0, 0, [], None, 0, false;
      sent, heard, padded := [], [], 0;
      NothingSent();
    }

    /** What the stream's part of the recording is. */
    lemma RecordedSoFar()
      requires Valid()
      ensures var n := Span(output.played, output.channels);
        && FrontThenSilence(output.sink.samples, output.before, sent, n)
        && (n > |sent| ==> end.Some?)
    {
      var track := TrackFrames();
      if output.played <= track {
        SpanMonotone(output.played, track, output.channels);
      } else {
        SpanMonotone(track, output.played, output.channels);
        SpanSum(track, padded, output.channels);
        SpanMonotone(output.played, output.written, output.channels);
      }
      FrontRecorded(output.sink.samples, output.before, output.accepted, output.queue, sent,
                    Span(padded, output.channels), Span(output.played, output.channels));
    }

    /** The recording of a stream whose playing is all accounted for: what was
        heard, and silence only behind the track's last frame. */
    lemma RecordedByNow(recorded: nat)
      requires Valid() && recorded == output.played && (played == output.played || played >= TrackFrames())
      ensures recorded >= Position()
      ensures output.sink.samples == output.before + heard + Silence(Span(recorded - Position(), output.channels))
      ensures recorded > Position() ==> end.Some? && unplayed == []
      ensures Whole(|unplayed|, output.channels)
    {
      RecordedSoFar();
      Divided(sent, heard, unplayed);
      RetireRecording(output.before, sent, heard, unplayed, padded, played, recorded, TrackFrames(), output.channels,
                      output.sink.samples);
      FramesOfSpan(Position(), output.channels);
      FramesOfSpan(TrackFrames(), output.channels);
      WholeSum(|heard|, |unplayed|, output.channels);
    }

    /** Before the track's end is queued, what is not known to have played. */
    lemma UnplayedFrames()
      requires Valid() && end == None
      ensures played <= written && |unplayed| == Span(written - played, output.channels)
      ensures written - played <= output.sink.queueFrames + (output.played - played)
    {
      Divided(sent, heard, unplayed);
      SpanMonotone(played, written, output.channels);
    }

    /** Asks the output how much has played: it catches up with the clock. */
    method Poll() returns (frames: nat)
      requires Valid()
      modifies output`queue, output`played, output.sink`samples, output.sink.clock
      ensures Valid() && frames == output.played >= old(output.played)
      ensures output.sink.clock.now >= old(output.sink.clock.now)
      ensures frames >= Min(old(output.Due(output.sink.clock.now)), Playable(output.written, output.sink.periodFrames))
    {
      frames := output.Played();
      if output.startedAt.Some? {
        ElapsedMonotone(old(output.sink.clock.now), output.sink.clock.now, output.startedAt.value);
      }
    }

    method SetVolume(gain: real)
      requires Valid()
      modifies output`queue, output`played, output`gain, output.sink`samples, output.sink.clock
      ensures Valid() && output.sink.clock.now >= old(output.sink.clock.now) && output.gain == gain
    {
      output.SetVolume(gain);
    }

    /** Counts what `frames` played so far adds. */
    method Note(frames: nat) returns (more: nat)
      requires Valid() && frames <= output.played
      modifies this`played, this`unplayed, this`heard
      ensures Valid() && played == Max(old(played), frames) && more == played - old(played)
      ensures heard + unplayed == old(heard + unplayed)
      ensures played >= TrackFrames() ==> unplayed == []
    {
      Divided(sent, heard, unplayed);
      NoteArithmetic(heard, unplayed, played, frames, TrackFrames(), output.channels);
      if frames <= played {
        return 0;
      }
      more := frames - played;
      var samples := SampleCount(more, output.channels);
      samples := Min(samples, |unplayed|);
      DividesLater(sent, heard, unplayed, samples);
      heard := heard + unplayed[..samples];
      unplayed := unplayed[samples..];
      played := frames;
    }

    /** Offers `carry` to the output, which takes its front. */
    method Write(carry: seq<int>) returns (taken: seq<int>, rest: seq<int>, ok: bool)
      requires Valid() && end == None && Whole(|carry|, output.channels)
      modifies this`unplayed, this`written, this`sent, output, output.sink`samples, output.sink.clock
      ensures output.gain == old(output.gain)
      ensures Valid() && ok && output.sink.clock.now >= old(output.sink.clock.now)
      ensures carry == taken + rest && Whole(|rest|, output.channels)
      ensures unplayed == old(unplayed) + taken && Position() == old(Position())
      ensures output.played >= old(output.played)
      ensures taken == [] && carry != [] ==> Full()
      ensures old(output.startedAt).Some? ==> output.startedAt == old(output.startedAt)
    {
      var frames;
      frames, ok := output.TryWrite(carry);
      var n := SampleCount(frames, output.channels);
      taken, rest := carry[..n], carry[n..];
      WriteRest(|carry|, frames, n, output.channels);
      SentGrows(old(output.accepted), sent, heard, unplayed, taken, output.channels, written, frames);
      unplayed := unplayed + taken;
      sent := sent + taken;
      written := written + frames;
    }

    /** The track is all written: the padding to write fills its last period,
        and one more. */
    method QueueEnd()
      requires Valid() && end == None
      modifies this`end, this`pad
      ensures Valid() && end == Some(written) && pad > 0
    {
      var period := Max(output.sink.periodFrames, 1);
      end := Some(written);
      pad := Padding(written, period);
    }

    /** Offers the silence still to write. */
    method WritePad() returns (ok: bool)
      requires Valid() && end.Some? && pad > 0
      modifies this`pad, this`written, this`padded, output, output.sink`samples, output.sink.clock
      ensures output.gain == old(output.gain)
      ensures Valid() && output.sink.clock.now >= old(output.sink.clock.now)
      ensures ok && pad <= old(pad) && output.played >= old(output.played)
      ensures pad > 0 ==> Full()
      ensures old(output.startedAt).Some? ==> output.startedAt == old(output.startedAt)
    {
      var n := SampleCount(pad, output.channels);
      FramesOfSpan(pad, output.channels);
      var frames;
      frames, ok := output.TryWrite(seq(n, _ => 0));
      SpansFit(frames, pad, output.channels);
      SilenceGrows(old(output.accepted), sent, padded, frames, pad, output.channels);
      written, pad, padded := written + frames, pad - frames, padded + frames;
      assert written + pad == old(written + pad);
    }

    method Start()
      requires Valid()
      modifies this`started, output`startedAt, output`playedAtStart, output.sink.clock
      ensures Valid() && output.sink.clock.now >= old(output.sink.clock.now) && output.startedAt.Some?
      ensures old(output.startedAt).Some? ==> output.startedAt == old(output.startedAt)
    {
      output.Start();
      started := true;
    }
  }

  /** The silence that fills the last period, and one period more. */
  method Padding(written: nat, period: nat) returns (pad: nat)
    requires period > 0
    ensures period <= pad < 2 * period && Whole(written + pad, period)
  {
    PaddingArithmetic(written, period);
    pad := (period - written % period) % period + period;
  }

  lemma PaddingArithmetic(written: nat, period: nat)
    requires period > 0
    ensures var fill := (period - written % period) % period;
      0 <= fill < period && Whole(written + fill + period, period)
  {
    var m := written % period;
    RemainderBySpan(written, period);
    FramesOfSpan(Frames(written, period), period);
    if m == 0 {
      DivUnique(period, period, 1, 0);
      WholeSum(Span(Frames(written, period), period), period, period);
    } else {
      DivUnique(period - m, period, 0, period - m);
      WholeSum(Span(Frames(written, period), period), 2 * period, period);
    }
  }

  lemma RemainderBySpan(n: nat, d: nat)
    requires d > 0
    ensures n == Span(Frames(n, d), d) + n % d
  {
    FramesIsQuotient(n, d);
    SpanIsProduct(n / d, d);
    DivBounds(n, d);
  }

  /** The frames that more playing adds to those heard, as samples. */
  lemma NoteArithmetic<T>(heard: seq<T>, unplayed: seq<T>, played: nat, frames: nat, track: nat, channels: nat)
    requires channels > 0 && |heard| == Span(Min(played, track), channels)
    requires |heard| + |unplayed| == Span(track, channels)
    ensures frames > played ==>
      |heard| + Min(Span(frames - played, channels), |unplayed|) == Span(Min(frames, track), channels)
    ensures frames > played && frames >= track ==> Span(frames - played, channels) >= |unplayed|
    ensures played >= track ==> unplayed == []
  {
    if played < track {
      SpanMonotone(played, track, channels);
      if played < frames {
        if frames <= track {
          SpanMonotone(played, frames, channels);
          SpanMonotone(frames, track, channels);
        } else {
          SpanMonotone(track - played, frames - played, channels);
        }
      }
    }
  }

  lemma RetireRecording(before: seq<int>, sent: seq<int>, heard: seq<int>, unplayed: seq<int>, padded: nat, played: nat,
                        recorded: nat, track: nat, channels: nat, samples: seq<int>)
    requires channels > 0 && |heard| == Span(Min(played, track), channels)
    requires sent == heard + unplayed && |sent| == Span(track, channels)
    requires played <= recorded <= track + padded && (played == recorded || played >= track)
    requires FrontThenSilence(samples, before, sent, Span(recorded, channels))
    ensures samples == before + heard + Silence(Span(recorded - Min(played, track), channels))
    ensures recorded > Min(played, track) ==> unplayed == []
  {
    SpanMonotone(Min(played, track), recorded, channels);
    FrontIs(samples, before, sent, heard, unplayed, Span(recorded, channels));
  }

  /** Of the track's samples the first `n` are recorded, and silence when there are
      fewer. */
  ghost predicate FrontThenSilence(recorded: seq<int>, before: seq<int>, sent: seq<int>, n: nat) {
    forall k {:trigger Look(Recording, k)} :: Look(Recording, k) ==>
      recorded == before + (Take(sent, n) + Silence(n - Min(n, |sent|)))
  }

  lemma FrontRecorded(recorded: seq<int>, before: seq<int>, accepted: seq<int>, queue: seq<int>, sent: seq<int>,
                      silence: nat, n: nat)
    requires CutAt(before, accepted, n, queue, recorded) && TrackThenSilence(accepted, sent, silence)
    requires n <= |sent| + silence
    ensures FrontThenSilence(recorded, before, sent, n)
  {
    assert Look(Cutting, 0) && Look(Silencing, 0);
    TakePadded(sent, silence, n);
  }

  lemma TakePadded(sent: seq<int>, silence: nat, n: nat)
    requires n <= |sent| + silence
    ensures Take(sent + Silence(silence), n) == Take(sent, n) + Silence(n - Min(n, |sent|))
  {
  }

  lemma FrontIs(recorded: seq<int>, before: seq<int>, sent: seq<int>, heard: seq<int>, unplayed: seq<int>, n: nat)
    requires FrontThenSilence(recorded, before, sent, n) && sent == heard + unplayed && |heard| <= n
    requires n == |heard| || unplayed == []
    ensures recorded == before + heard + Silence(n - |heard|)
  {
    assert Look(Recording, 0);
    assert Take(sent, n) == heard;
    assert before + (heard + Silence(n - |heard|)) == before + heard + Silence(n - |heard|);
  }

  lemma WriteRest(n: nat, frames: nat, written: nat, channels: nat)
    requires channels > 0 && Whole(n, channels) && written == Span(frames, channels) <= n
    ensures Whole(n - written, channels)
    ensures frames == Frames(n, channels) && n > 0 ==> written > 0
  {
    FramesOfSpan(frames, channels);
    WholeSum(written, n - written, channels);
    SpanOfFrames(n, channels);
  }

  /** What was accepted is the track's samples, then so much silence. */
  ghost predicate TrackThenSilence(accepted: seq<int>, sent: seq<int>, silence: nat) {
    forall n {:trigger Look(Silencing, n)} :: Look(Silencing, n) ==> accepted == sent + Silence(silence)
  }

  /** The track's samples are those heard, then the rest. */
  ghost predicate Divides(sent: seq<int>, heard: seq<int>, unplayed: seq<int>) {
    forall n {:trigger Look(Dividing, n)} :: Look(Dividing, n) ==> sent == heard + unplayed
  }

  lemma NothingSent()
    ensures TrackThenSilence([], [], 0) && Divides([], [], [])
  {
  }

  lemma Divided(sent: seq<int>, heard: seq<int>, unplayed: seq<int>)
    requires Divides(sent, heard, unplayed)
    ensures |sent| == |heard| + |unplayed| && sent == heard + unplayed
  {
    assert Look(Dividing, 0);
  }

  lemma DividesLater(sent: seq<int>, heard: seq<int>, unplayed: seq<int>, n: nat)
    requires Divides(sent, heard, unplayed) && n <= |unplayed|
    ensures Divides(sent, heard + unplayed[..n], unplayed[n..])
    ensures heard + unplayed[..n] + unplayed[n..] == heard + unplayed
  {
    assert Look(Dividing, 0);
  }

  lemma SentGrows(accepted: seq<int>, sent: seq<int>, heard: seq<int>, unplayed: seq<int>, taken: seq<int>,
                  channels: nat, written: nat, frames: nat)
    requires TrackThenSilence(accepted, sent, Span(0, channels)) && Divides(sent, heard, unplayed)
    requires |sent| == Span(written, channels) && |taken| == Span(frames, channels)
    ensures TrackThenSilence(accepted + taken, sent + taken, Span(0, channels))
    ensures Divides(sent + taken, heard, unplayed + taken)
    ensures Span(written + frames, channels) == |sent + taken|
  {
    assert Look(Silencing, 0) && Look(Dividing, 0);
    SpanSum(written, frames, channels);
  }

  lemma {:induction false} SpanStrict(a: nat, b: nat, channels: nat)
    requires a < b && channels > 0
    ensures Span(a, channels) < Span(b, channels)
  {
    if a == 0 {
    } else {
      SpanStrict(a - 1, b - 1, channels);
    }
  }

  lemma SpansFit(frames: nat, pad: nat, channels: nat)
    requires channels > 0 && Span(frames, channels) <= Span(pad, channels)
    ensures frames <= pad
  {
    if frames > pad {
      SpanStrict(pad, frames, channels);
    }
  }

  lemma SilenceGrows(accepted: seq<int>, sent: seq<int>, padded: nat, frames: nat, pad: nat, channels: nat)
    requires frames <= pad && TrackThenSilence(accepted, sent, Span(padded, channels))
    ensures TrackThenSilence(accepted + Take(seq(Span(pad, channels), _ => 0), Span(frames, channels)), sent,
                             Span(padded + frames, channels))
  {
    assert Look(Silencing, 0);
    SpanSum(padded, frames, channels);
    SpanMonotone(frames, pad, channels);
  }
}
