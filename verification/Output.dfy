/**
 `MemorySink` and its streams: a bounded queue whose frames leave it for the
 recording in whole periods, as the clock allows. The clock is the
 environment's: it shows the frames' worth of time gone by, and may move on by
 any amount whenever it is read.
*/
module Output {
  import opened Arithmetic
  import opened Interleaved
  import opened Wrappers
  import opened Seals

  class Clock {
    var now: real

    method Read() returns (t: real)
      modifies this
      ensures t == now >= old(now)
    {
      var step: real := *;
      now := if step > 0.0 then now + step else now;
      t := now;
    }
  }

  class MemorySink {
    const queueFrames: nat
    const periodFrames: nat
    const clock: Clock
    /** Every sample played, across all streams. */
    var samples: seq<int>
    /** Rate and channels of every stream there was. */
    var formats: seq<(nat, nat)>

    constructor (queueFrames: nat, periodFrames: nat, clock: Clock)
      ensures this.queueFrames == Max(queueFrames, 1) && 1 <= this.periodFrames <= this.queueFrames
      ensures 1 <= periodFrames <= queueFrames ==> this.periodFrames == periodFrames
      ensures this.clock == clock && samples == [] && formats == []
    {
      this.queueFrames := Max(queueFrames, 1);
      this.periodFrames := Min(Max(periodFrames, 1), Max(queueFrames, 1));
      this.clock := clock;
      samples, formats := [], [];
    }

    /** Opens a stream, unless its format has no rate or no channels. */
    method Open(rate: nat, channels: nat) returns (output: MemoryOutput?)
      requires 1 <= periodFrames <= queueFrames
      modifies this`formats
      ensures output == null <==> rate == 0 || channels == 0
      ensures output != null ==>
        && fresh(output) && output.Valid() && output.InTime() && output.sink == this && output.rate == rate && output.channels == channels
        && output.accepted == [] && output.written == output.played == 0 && output.startedAt == None
        && output.before == samples
        && formats == old(formats) + [(rate, channels)]
      ensures output == null ==> formats == old(formats)
    {
      if rate == 0 || channels == 0 {
        return null;
      }
      formats := formats + [(rate, channels)];
      output := new MemoryOutput(this, rate, channels);
    }
  }

  class MemoryOutput {
    const sink: MemorySink
    const rate: nat
    const channels: nat
    var queue: seq<int>
    var written: nat
    var played: nat
    var startedAt: Option<real>
    var playedAtStart: nat
    var gain: real
    /** Everything written since the stream opened. */
    ghost var accepted: seq<int>
    /** The recording when it opened. */
    ghost const before: seq<int>

    /** The queue and this stream's part of the recording are what was written,
        in order, cut where playing has come to. */
    ghost predicate Valid()
      reads this, sink
    {
      var holds :=
      && channels > 0 && 1 <= sink.periodFrames <= sink.queueFrames
      && played <= written && written - played <= sink.queueFrames
      && |accepted| == Span(written, channels)
      && CutAt(before, accepted, Span(played, channels), queue, sink.samples)
      && played <= Playable(written, sink.periodFrames)
      && (startedAt.None? ==> played == 0 && written < sink.queueFrames)
      && playedAtStart == 0;
      holds
    }

    /** It has not played more frames than time has gone by since it started. */
    ghost predicate InTime()
      reads this, sink.clock
    {
      startedAt.Some? ==> played as real <= sink.clock.now - startedAt.value
    }

    /** Frames due to have played when the clock shows `now`. */
    ghost function Due(now: real): nat
      reads this
    {
      match startedAt
      case None => 0
      case Some(start) => playedAtStart + Elapsed(now, start)
    }

    constructor (sink: MemorySink, rate: nat, channels: nat)
      requires channels > 0 && 1 <= sink.periodFrames <= sink.queueFrames
      ensures Valid() && InTime() && this.sink == sink && this.rate == rate && this.channels == channels
      ensures accepted == [] && written == played == 0 && startedAt == None && before == sink.samples
    {
      this.sink, this.rate, this.channels := sink, rate, channels;
      queue, written, played, startedAt, playedAtStart, gain := [], 0, 0, None, 0, 1.0;
      accepted, before := [], sink.samples;
      NothingAccepted(sink.samples);
    }

    /** Brings `played` up to what is due, as far as whole periods are written; the
        cut between recording and queue moves along. */
    method Advance()
      requires Valid()
      modifies this`queue, this`played, sink`samples, sink.clock
      ensures Valid() && sink.clock.now >= old(sink.clock.now)
      ensures played == Max(old(played), Min(Due(sink.clock.now), Playable(written, sink.periodFrames)))
      ensures startedAt == None ==> sink.samples == old(sink.samples)
      ensures old(InTime()) ==> InTime()
    {
      if startedAt == None {
        return;
      }
      var now := sink.clock.Read();
      var due := playedAtStart + Elapsed(now, startedAt.value);
      var periods := FrameCount(written, sink.periodFrames);
      var playable := SampleCount(periods, sink.periodFrames);
      var target := Min(due, playable);
      ElapsedIsWhole(now, startedAt.value);
      if target <= played {
        return;
      }
      var n := SampleCount(target - played, channels);
      SpanOfFrames(written, sink.periodFrames);
      SpanMonotone(played, target, channels);
      SpanMonotone(target, written, channels);
      MoveCut(before, accepted, Span(played, channels), n, queue, sink.samples);
      sink.samples := sink.samples + queue[..n];
      queue := queue[n..];
      played := target;
    }

    /** Queues as many whole frames as fit; refuses part of a frame. A queue
        that fills starts playing. */
    method TryWrite(samples: seq<int>) returns (frames: nat, ok: bool)
      requires Valid()
      modifies this, sink`samples, sink.clock
      ensures Valid() && sink.clock.now >= old(sink.clock.now) && gain == old(gain)
      ensures ok == Whole(|samples|, channels)
      ensures !ok ==> frames == 0 && written == old(written) && accepted == old(accepted) && played == old(played)
      ensures ok ==>
        && written == old(written) + frames && Span(frames, channels) <= |samples|
        && accepted == old(accepted) + Take(samples, Span(frames, channels))
        && old(played) <= played
        && (frames == Frames(|samples|, channels) || written - played == sink.queueFrames)
      ensures old(startedAt.Some?) ==> startedAt == old(startedAt)
      ensures old(startedAt.None?) ==> (startedAt.Some? <==> ok && written - played == sink.queueFrames)
      ensures old(InTime()) ==> InTime()
    {
      ok := IsMultipleOf(|samples|, channels);
      if !ok {
        return 0, false;
      }
      Advance();
      var free := sink.queueFrames - (written - played);
      var offered := FrameCount(|samples|, channels);
      frames := Min(free, offered);
      var n := SampleCount(frames, channels);
      SpanMonotone(frames, offered, channels);
      SpanOfFrames(|samples|, channels);
      Queue(samples[..n], frames);
    }

    /** Puts `frames` frames for which there is room behind the queue. */
    method Queue(block: seq<int>, frames: nat)
      requires Valid() && |block| == Span(frames, channels) && frames <= sink.queueFrames - (written - played)
      modifies this`queue, this`accepted, this`written, this`startedAt, this`playedAtStart, sink.clock
      ensures Valid() && sink.clock.now >= old(sink.clock.now)
      ensures written == old(written) + frames && accepted == old(accepted) + block
      ensures old(startedAt.Some?) ==> startedAt == old(startedAt)
      ensures old(startedAt.None?) ==> (startedAt.Some? <==> written - played == sink.queueFrames)
      ensures old(InTime()) ==> InTime()
    {
      WriteArithmetic(frames, written, played, channels, sink.periodFrames);
      AppendBehindCut(before, accepted, block, Span(played, channels), queue, sink.samples);
      queue := queue + block;
      accepted := accepted + block;
      written := written + frames;
      if startedAt == None && written - played >= sink.queueFrames {
        Start();
      }
    }

    method Start()
      requires startedAt.None? ==> played == 0
      modifies this`startedAt, this`playedAtStart, sink.clock
      ensures startedAt.Some? && sink.clock.now >= old(sink.clock.now)
      ensures old(startedAt).Some? ==> startedAt == old(startedAt) && playedAtStart == old(playedAtStart)
      ensures old(startedAt).None? ==> startedAt.value <= sink.clock.now && playedAtStart == 0
      ensures old(InTime()) ==> InTime()
    {
      if startedAt == None {
        var now := sink.clock.Read();
        startedAt := Some(now);
        playedAtStart := played;
      }
    }

    method Played() returns (frames: nat)
      requires Valid()
      modifies this`queue, this`played, sink`samples, sink.clock
      ensures Valid() && sink.clock.now >= old(sink.clock.now) && frames == played
      ensures played == Max(old(played), Min(Due(sink.clock.now), Playable(written, sink.periodFrames)))
      ensures old(InTime()) ==> InTime()
    {
      Advance();
      frames := played;
    }

    method SetVolume(gain: real)
      requires Valid()
      modifies this`queue, this`played, this`gain, sink`samples, sink.clock
      ensures Valid() && sink.clock.now >= old(sink.clock.now) && this.gain == gain && played >= old(played)
      ensures startedAt == None ==> sink.samples == old(sink.samples)
      ensures old(InTime()) ==> InTime()
    {
      Advance();
      this.gain := gain;
    }
  }

  /** Whole frames' worth of time between two readings of the clock. */
  function Elapsed(now: real, start: real): nat {
    if now <= start then 0 else (now - start).Floor
  }

  /** They are the time between, less part of a frame. */
  lemma ElapsedIsWhole(now: real, start: real)
    ensures now >= start ==> Elapsed(now, start) as real <= now - start < Elapsed(now, start) as real + 1.0
  {
  }

  lemma ElapsedMonotone(earlier: real, later: real, start: real)
    requires earlier <= later
    ensures Elapsed(earlier, start) <= Elapsed(later, start)
  {
  }

  /** What of `written` frames a device that plays whole periods can play. */
  ghost function Playable(written: nat, period: nat): nat
    requires period > 0
  {
    Span(Frames(written, period), period)
  }

  /** A full queue always holds a frame that can play. */
  lemma FullQueueIsPlayable(written: nat, played: nat, queueFrames: nat, period: nat)
    requires 1 <= period <= queueFrames && played + queueFrames <= written
    ensures played < Playable(written, period) <= written
  {
    PlayableBounds(written, period);
  }

  lemma {:induction false} PlayableBounds(written: nat, period: nat)
    requires period > 0
    ensures Playable(written, period) <= written < Playable(written, period) + period
    ensures Whole(written, period) ==> Playable(written, period) == written
  {
    if written >= period {
      PlayableBounds(written - period, period);
    }
  }

  lemma PlayableMonotone(a: nat, b: nat, period: nat)
    requires a <= b && period > 0
    ensures Playable(a, period) <= Playable(b, period)
  {
    FramesMonotone(a, b, period);
    SpanMonotone(Frames(a, period), Frames(b, period), period);
  }

  lemma {:induction false} FramesMonotone(a: nat, b: nat, channels: nat)
    requires a <= b && channels > 0
    ensures Frames(a, channels) <= Frames(b, channels)
    decreases b
  {
    if a >= channels {
      FramesMonotone(a - channels, b - channels, channels);
    }
  }

  /** Of what was accepted, the front is recorded and the rest is queued. */
  ghost predicate CutAt(before: seq<int>, all: seq<int>, at: nat, queue: seq<int>, recorded: seq<int>) {
    forall n {:trigger Look(Cutting, n)} :: Look(Cutting, n) ==> queue == Drop(all, at) && recorded == before + Take(all, at)
  }

  lemma NothingAccepted(before: seq<int>)
    ensures CutAt(before, [], 0, [], before)
  {
  }

  lemma MoveCut(before: seq<int>, all: seq<int>, at: nat, n: nat, queue: seq<int>, recorded: seq<int>)
    requires at + n <= |all| && CutAt(before, all, at, queue, recorded)
    ensures n <= |queue| && CutAt(before, all, at + n, queue[n..], recorded + queue[..n])
  {
    assert Look(Cutting, 0);
  }

  lemma AppendBehindCut(before: seq<int>, all: seq<int>, more: seq<int>, at: nat, queue: seq<int>, recorded: seq<int>)
    requires at <= |all| && CutAt(before, all, at, queue, recorded)
    ensures CutAt(before, all + more, at, queue + more, recorded)
  {
    assert Look(Cutting, 0);
  }

  lemma WriteArithmetic(frames: nat, written: nat, played: nat, channels: nat, period: nat)
    requires channels > 0 && period > 0 && played <= written
    ensures Span(written + frames, channels) == Span(written, channels) + Span(frames, channels)
    ensures Span(played, channels) <= Span(written, channels)
    ensures Playable(written, period) <= Playable(written + frames, period)
  {
    SpanSum(written, frames, channels);
    SpanMonotone(played, written, channels);
    PlayableMonotone(written, written + frames, period);
  }
}
