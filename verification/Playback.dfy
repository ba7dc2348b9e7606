/**
 What the worker's books say over whole runs: any sequence of commands and
 timer ticks keeps them, and a track left playing is heard to its end.
*/
module Playback {
  import opened Arithmetic
  import opened Interleaved
  import opened Wrappers
  import opened Output
  import opened Streams
  import opened Ledger
  import opened Workers
  import opened Seals
  import opened FrameTime
  import Decoder
  import Scope

  /** What reaches the worker's loop. */
  datatype Message = Request(command: Command) | Timeout

  /** Messages that never move the track. */
  predicate StaysPut(message: Message) {
    message.Timeout? || message.command.Pause? || message.command.Stop? || message.command.Volume?
  }

  /** Messages that decode nothing either. */
  predicate Rests(message: Message) {
    message.Request? && (message.command.Pause? || message.command.Stop? || message.command.Volume?)
  }

  /** Where a message moves the track to, if it does. */
  function SoughtPosition(message: Message): nat {
    if message.Request? && message.command.Seek? then message.command.position else 0
  }

  /** The volume last asked for, with `gain` the one before. */
  function GainAfter(gain: real, messages: seq<Message>): real
    decreases |messages|
  {
    if messages == [] then gain
    else
      var last := messages[|messages| - 1];
      if last.Request? && last.command.Volume? then last.command.gain
      else GainAfter(gain, messages[..|messages| - 1])
  }

  lemma {:induction false} GainConcat(gain: real, a: seq<Message>, b: seq<Message>)
    ensures GainAfter(gain, a + b) == GainAfter(GainAfter(gain, a), b)
    decreases |b|
  {
    if b == [] {
      assert a + b == a;
    } else {
      var last := |b| - 1;
      assert (a + b)[|a + b| - 1] == b[last] && (a + b)[..|a + b| - 1] == a + b[..last];
      GainConcat(gain, a, b[..last]);
    }
  }

  lemma GainOfFirst(gain: real, messages: seq<Message>)
    requires messages != []
    ensures GainAfter(gain, messages) == GainAfter(GainAfter(gain, [messages[0]]), messages[1..])
  {
    assert messages == [messages[0]] + messages[1..];
    GainConcat(gain, [messages[0]], messages[1..]);
  }

  /** One message. `sought` tells whether it moved the track. */
  method Answer(worker: Worker, message: Message) returns (sought: bool)
    requires worker.Valid()
    modifies worker, worker.decoder, worker.shared, worker.shared.scope, worker.sink, worker.sink.clock
    modifies worker.stream, if worker.stream == null then {} else {worker.stream.output}
    ensures worker.Valid() && (!sought ==> worker.Continues() && worker.Announces())
    ensures sought && !worker.decoder.LandingOf(SoughtPosition(message)).Broken? ==>
      worker.Starts(SoughtPosition(message))
    ensures Rests(message) ==> worker.Rests()
    ensures worker.gain == GainAfter(old(worker.gain), [message])
    ensures worker.stream != null ==>
      worker.stream == old(worker.stream) || (fresh(worker.stream) && fresh(worker.stream.output))
    ensures sought <==> (message.Request? &&
      (message.command.Seek? || (message.command.Play? && (message.command.restart || old(worker.AtEnd())))))
  {
    sought := false;
    assert [message][..0] == [];
    match message {
      case Request(command) =>
        sought := command.Seek? || (command.Play? && (command.restart || worker.AtEnd()));
        var ok := worker.Handle(command);
      case Timeout =>
        worker.Tick();
    }
  }

  /** Any run of the worker's loop keeps the books: no sample is lost, repeated or
      reordered. Between seeks, what was heard only grows, the clock never goes
      back, and the end is announced at most once, with the whole track played. A track
      with a stream is active, and plays at the volume last asked for. */
  method Run(worker: Worker, messages: seq<Message>) returns (sought: bool)
    requires worker.Valid()
    modifies worker, worker.decoder, worker.shared, worker.shared.scope, worker.sink, worker.sink.clock
    modifies worker.stream, if worker.stream == null then {} else {worker.stream.output}
    ensures worker.Valid() && (!sought ==> worker.Continues() && worker.Announces())
    ensures worker.stream != null ==>
      worker.shared.active && worker.stream.output.gain == GainAfter(old(worker.gain), messages)
    ensures worker.gain == GainAfter(old(worker.gain), messages)
    ensures (forall i :: 0 <= i < |messages| ==> StaysPut(messages[i])) ==> !sought
    ensures (forall i :: 0 <= i < |messages| ==> Rests(messages[i])) ==> worker.ahead == old(worker.ahead)
    ensures worker.intact && Fitting(worker, 0) ==> worker.shared.scope.fitted
    ensures worker.exact ==>
      worker.Heard() + worker.Unheard() + Pcm(worker.decoder.Remaining()) == Pcm(worker.source)
  {
    if messages == [] {
      AllAccountedFor(worker);
      FittingIsFitted(worker);
      return false;
    }
    ghost var first := worker.Heard();
    First(messages);
    GainOfFirst(worker.gain, messages);
    sought := Answer(worker, messages[0]);
    ghost var second := worker.Heard();
    var later := Run(worker, messages[1..]);
    PrefixTransitive(first, second, worker.Heard());
    sought := sought || later;
  }

  /** The run splits into its first message and the rest. */
  lemma First(messages: seq<Message>)
    requires messages != []
    ensures (forall i :: 0 <= i < |messages| ==> StaysPut(messages[i])) ==>
      StaysPut(messages[0]) && forall i :: 0 <= i < |messages[1..]| ==> StaysPut(messages[1..][i])
    ensures (forall i :: 0 <= i < |messages| ==> Rests(messages[i])) ==>
      Rests(messages[0]) && forall i :: 0 <= i < |messages[1..]| ==> Rests(messages[1..][i])
  {
  }

  lemma FittingIsFitted(worker: Worker)
    requires worker.Valid()
    ensures worker.intact && Fitting(worker, 0) ==> worker.shared.scope.fitted
  {
    if worker.intact {
      worker.OpenBooks(worker.stream);
    }
  }

  lemma AllAccountedFor(worker: Worker)
    requires worker.Valid()
    ensures worker.exact ==>
      worker.Heard() + worker.Unheard() + Pcm(worker.decoder.Remaining()) == Pcm(worker.source)
  {
    if worker.exact {
      DecodedIsHeard(worker);
      DeliversAll(worker.decoded, worker.decoder.Remaining(), worker.source);
      PcmConcat(worker.decoded, worker.decoder.Remaining());
    }
  }

  lemma DecodedIsHeard(worker: Worker)
    requires worker.Valid() && worker.intact
    ensures Pcm(worker.decoded) == worker.Heard() + worker.Unheard()
    ensures worker.seekBase <= worker.shared.position
    ensures |worker.Heard()| == Span(worker.shared.position - worker.seekBase, worker.channels)
    ensures worker.shared.position - worker.seekBase <= |worker.Heard()| <= |worker.decoded| <= worker.most
  {
    worker.OpenBooks(worker.stream);
    AllOfIt(worker.channels, worker.decoded, worker.Heard(), worker.Unheard(), worker.seekBase, worker.shared.position,
            worker.shared.scope.all, worker.shared.scope.outstanding);
  }

  /** The recording since the seek is the decoded samples in order, as far as
      they have played, and silence only behind the last of them. The clock
      never runs ahead of it. */
  lemma TheRecordingIsTheTrack(worker: Worker) returns (n: nat, silence: nat)
    requires worker.Valid() && worker.intact
    ensures worker.sink.samples == worker.prefix + Take(Pcm(worker.decoded), n) + Silence(silence)
    ensures n <= |worker.decoded| && (silence > 0 ==> n == |worker.decoded|)
    ensures worker.seekBase <= worker.shared.position
    ensures |worker.Heard()| == Span(worker.shared.position - worker.seekBase, worker.channels) <= n
  {
    DecodedIsHeard(worker);
    if worker.stream == null {
      n, silence := |worker.heardBefore|, Span(worker.tail, worker.channels);
      worker.OpenBooks(null);
      RecordingIs(worker.sink.samples, worker.prefix, worker.heardBefore, silence);
      FrontOfHeard(Pcm(worker.decoded), worker.heardBefore, worker.carry, silence);
    } else {
      n, silence := RecordedByStream(worker, worker.stream);
    }
  }

  lemma RecordedByStream(worker: Worker, s: Stream) returns (n: nat, silence: nat)
    requires worker.Valid() && worker.intact && worker.stream == s
    ensures worker.sink.samples == worker.prefix + Take(Pcm(worker.decoded), n) + Silence(silence)
    ensures n <= |worker.decoded| && (silence > 0 ==> n == |worker.decoded|)
    ensures |worker.Heard()| <= n
  {
    worker.OpenBooks(s);
    DecodedIsHeard(worker);
    s.RecordedSoFar();
    Divided(s.sent, s.heard, s.unplayed);
    SpanMonotone(s.Position(), s.output.played, worker.channels);
    n, silence := RecordedParts(worker.prefix, worker.heardBefore, s.output.before, worker.sink.samples, s.sent,
                                s.heard, s.unplayed, worker.carry, Span(s.output.played, worker.channels));
  }

  lemma FrontOfHeard(all: seq<int>, heard: seq<int>, carry: seq<int>, silence: nat)
    requires all == heard + carry && (silence > 0 ==> carry == [])
    ensures Take(all, |heard|) == heard && (silence > 0 ==> |heard| == |all|)
  {
  }

  lemma RecordedParts(prefix: seq<int>, heardBefore: seq<int>, before: seq<int>, recorded: seq<int>, sent: seq<int>,
                      heard: seq<int>, unplayed: seq<int>, carry: seq<int>, played: nat) returns (n: nat, silence: nat)
    requires HeardThenSilence(before, prefix, heardBefore, 0) && FrontThenSilence(recorded, before, sent, played)
    requires sent == heard + unplayed && |heard| <= played && (played > |sent| ==> carry == [])
    ensures var all := heardBefore + heard + (unplayed + carry);
      && n <= |all| && |heardBefore + heard| <= n && (silence > 0 ==> n == |all|)
      && recorded == prefix + Take(all, n) + Silence(silence)
  {
    n := |heardBefore| + Min(played, |sent|);
    silence := played - Min(played, |sent|);
    assert Look(Recording, 0);
    assert before == prefix + heardBefore;
    BooksSoFar(heardBefore, heard, unplayed, carry, played);
    Regrouped(prefix, heardBefore, Take(sent, played), Silence(silence));
  }

  lemma BooksSoFar<T>(before: seq<T>, heard: seq<T>, unplayed: seq<T>, carry: seq<T>, played: nat)
    ensures Take(before + heard + (unplayed + carry), |before| + Min(played, |heard + unplayed|))
         == before + Take(heard + unplayed, played)
  {
  }

  lemma Regrouped<T>(prefix: seq<T>, before: seq<T>, taken: seq<T>, silence: seq<T>)
    ensures prefix + before + (taken + silence) == prefix + (before + taken) + silence
  {
  }

  /** The visualizer's history has room for all frames decoded since the seek; or for
      the queue, a block, what the output ran ahead when blocks were decoded, and
      `more`. */
  ghost predicate Fitting(worker: Worker, more: nat)
    reads worker, worker.shared, worker.shared.scope
  {
    |worker.shared.scope.all| <= Scope.KEEP || worker.Room() + more <= Scope.KEEP
  }

  /** Then its count of the frames not played is right: leaving them out of what was
      decoded leaves the frames heard. */
  lemma TheVisualizerAgrees(worker: Worker)
    requires worker.Valid() && worker.intact && Fitting(worker, 0)
    ensures var scope, heard := worker.shared.scope, |worker.Heard()|;
      && scope.fitted && scope.unplayed == scope.outstanding <= |scope.all| && heard <= |worker.decoded|
      && scope.all[..|scope.all| - scope.unplayed] == Scope.Mono(worker.decoded[..heard], worker.channels)
      && Pcm(worker.decoded[..heard]) == worker.Heard()
  {
    var scope := worker.shared.scope;
    worker.OpenBooks(worker.stream);
    HeardFrames(worker.channels, worker.decoded, worker.Heard(), worker.Unheard(), worker.seekBase,
                worker.shared.position, scope.all, scope.outstanding);
  }

  /** And what it shows is the window of the frames heard since the seek, or
      nothing before any was: after any run of messages. */
  method Show(worker: Worker) returns (window: Option<seq<real>>)
    requires worker.Valid() && worker.intact && Fitting(worker, Scope.WINDOW)
    ensures |worker.Heard()| <= |worker.decoded|
    ensures window == if worker.Heard() == [] then None
      else Some(Scope.Window(Scope.Mono(worker.decoded[..|worker.Heard()|], worker.channels)))
  {
    ShowsTheHeard(worker);
    window := worker.shared.scope.Samples();
  }

  lemma ShowsTheHeard(worker: Worker)
    requires worker.Valid() && worker.intact && Fitting(worker, Scope.WINDOW)
    ensures var scope, heard := worker.shared.scope, |worker.Heard()|;
      && heard <= |worker.decoded| && scope.Valid() && scope.fitted
      && (|scope.all| <= Scope.KEEP || scope.outstanding + Scope.WINDOW <= Scope.KEEP)
      && scope.all[..|scope.all| - scope.outstanding] == Scope.Mono(worker.decoded[..heard], worker.channels)
      && (scope.outstanding == |scope.all| <==> worker.Heard() == [])
  {
    worker.OpenBooks(worker.stream);
    TheVisualizerAgrees(worker);
    DecodedIsHeard(worker);
    HeardOrNot(worker.channels, worker.decoded[..|worker.Heard()|], worker.shared.position - worker.seekBase);
  }

  lemma HeardOrNot(channels: nat, heard: seq<real>, frames: nat)
    requires channels > 0 && |heard| == Span(frames, channels)
    ensures Scope.Mono(heard, channels) == [] <==> heard == []
  {
    Scope.MonoLength(heard, channels);
    FramesOfSpan(frames, channels);
  }

  lemma HeardFrames(channels: nat, decoded: seq<real>, heard: seq<int>, unheard: seq<int>, seekBase: nat,
                    position: nat, all: seq<real>, outstanding: nat)
    requires channels > 0 && Balanced(channels, decoded, heard, unheard, seekBase, position, all, outstanding)
    ensures outstanding <= |all| && |heard| <= |decoded|
    ensures all[..|all| - outstanding] == Scope.Mono(decoded[..|heard|], channels)
    ensures Pcm(decoded[..|heard|]) == heard
  {
    BalanceOpened(channels, decoded, heard, unheard, seekBase, position, all, outstanding);
    assert |decoded| == |Pcm(decoded)| == |heard| + |unheard|;
    var played, rest := decoded[..|heard|], decoded[|heard|..];
    assert decoded == played + rest;
    PcmConcat(played, rest);
    assert Pcm(played) == Pcm(decoded)[..|heard|];
    FramesOfSpan(position - seekBase, channels);
    FramesOfSpan(outstanding, channels);
    Scope.MonoConcat(played, rest, channels);
    Scope.MonoLength(rest, channels);
  }

  // ---- A track left playing ends ----

  /** Lets at least `interval` frames' worth of time pass. */
  method Wait(clock: Clock, interval: real)
    modifies clock
    ensures clock.now >= old(clock.now) + interval
  {
    clock.now := clock.now + if interval > 0.0 then interval else 0.0;
    var now := clock.Read();
  }

  /** Ticks of `interval` frames still to wait before frame `frame` is due. */
  ghost function TicksUntilDue(frame: nat, now: real, start: real, interval: real): nat
    requires interval > 0.0
  {
    if now - start >= frame as real then 0 else ((frame as real - (now - start)) / interval).Floor + 1
  }

  lemma WaitingHelps(frame: nat, now: real, later: real, start: real, interval: real)
    requires interval > 0.0 && later >= now + interval
    ensures TicksUntilDue(frame, now, start, interval) > 0 ==>
      TicksUntilDue(frame, later, start, interval) < TicksUntilDue(frame, now, start, interval)
  {
    var gap, gap' := frame as real - (now - start), frame as real - (later - start);
    if gap' > 0.0 {
      assert gap / interval >= gap' / interval + 1.0 by {
        DivideGap(gap, gap', interval);
      }
    }
  }

  lemma DivideGap(gap: real, gap': real, interval: real)
    requires interval > 0.0 && gap >= gap' + interval
    ensures gap / interval >= gap' / interval + 1.0
  {
    var q, q' := gap / interval, gap' / interval;
    assert q * interval == gap && q' * interval == gap';
    if q < q' + 1.0 {
      NegativeProduct(q - q' - 1.0, interval);
    }
  }

  lemma NegativeProduct(x: real, y: real)
    requires x < 0.0 < y
    ensures x * y < 0.0
  {
  }

  lemma DueInTime(frame: nat, now: real, start: real, interval: real)
    requires interval > 0.0 && TicksUntilDue(frame, now, start, interval) == 0
    ensures Elapsed(now, start) >= frame
  {
  }

  lemma TicksMonotone(frame: nat, now: real, later: real, start: real, interval: real)
    requires interval > 0.0 && later >= now
    ensures TicksUntilDue(frame, later, start, interval) <= TicksUntilDue(frame, now, start, interval)
  {
    var gap, gap' := frame as real - (now - start), frame as real - (later - start);
    var q, q' := gap / interval, gap' / interval;
    assert q * interval == gap && q' * interval == gap';
    if q < q' {
      NegativeProduct(q - q', interval);
    }
  }

  /** Ticks to wait before the open stream must have played another frame. */
  ghost function TicksToWait(s: Stream, interval: real): nat
    reads s, s.output, s.output.sink.clock
    requires s.output.startedAt.Some? && interval > 0.0
  {
    Waiting(s.played, s.output.played, s.output.sink.clock.now, s.output.startedAt.value, interval)
  }

  /** None, if the output has played more frames than are known. */
  ghost function Waiting(known: nat, played: nat, now: real, start: real, interval: real): nat
    requires interval > 0.0
  {
    if played > known then 0 else TicksUntilDue(known + 1, now, start, interval)
  }

  lemma Progress(known: nat, played: nat, playable: nat, before: real, now: real, start: real, interval: real,
                 known': nat, played': nat, later: real)
    requires interval > 0.0 && now >= before + interval && later >= now && known <= played
    requires known' >= Max(played, Min(Elapsed(now, start), playable))
    requires played == known ==> played < playable
    ensures known' >= known
    ensures known' == known ==>
      Waiting(known', played', later, start, interval) < Waiting(known, played, before, start, interval)
  {
    WaitingHelps(known + 1, before, now, start, interval);
    TicksMonotone(known + 1, now, later, start, interval);
    if TicksUntilDue(known + 1, now, start, interval) == 0 {
      DueInTime(known + 1, now, start, interval);
    }
  }

  /** What flows has a frame to play, until the track's end has. */
  lemma FlowingIsPlayable(s: Stream)
    requires s.Valid() && s.Flowing() && !s.Ended() && s.played == s.output.played
    ensures s.output.played < Playable(s.output.written, s.output.sink.periodFrames)
  {
    if s.Full() {
      FullQueueIsPlayable(s.output.written, s.output.played, s.output.sink.queueFrames, s.output.sink.periodFrames);
    } else {
      PlayableBounds(s.output.written, s.output.sink.periodFrames);
    }
  }

  lemma ClockOf(worker: Worker)
    requires worker.Valid() && worker.intact && worker.stream != null && !worker.stream.Ended()
    ensures worker.shared.position == worker.base + worker.stream.played
  {
    worker.OpenBooks(worker.stream);
  }

  /** A tick either ends the track, or plays a frame, or brings one nearer. */
  method OneTick(worker: Worker, interval: real)
    requires worker.Valid() && worker.intact && worker.readable && worker.stream != null && worker.stream.Flowing()
    requires !worker.stream.Ended() && interval > 0.0
    modifies worker, worker.decoder, worker.shared, worker.shared.scope, worker.sink, worker.sink.clock
    modifies worker.stream, worker.stream.output
    ensures worker.Valid() && worker.Continues()
    ensures worker.stream == old(worker.stream) || worker.stream == null
    ensures worker.stream == null ==>
      worker.shared.ends == old(worker.shared.ends) + 1 && !worker.shared.active && worker.AtEnd()
    ensures worker.stream != null ==>
      && worker.shared.ends == old(worker.shared.ends) && worker.stream.Flowing() && !worker.stream.Ended()
      && old(worker.shared.position) <= worker.shared.position
      && (old(worker.shared.position) == worker.shared.position ==>
        TicksToWait(worker.stream, interval) < old(TicksToWait(worker.stream, interval)))
  {
    ghost var s, known, played := worker.stream, worker.stream.played, worker.stream.output.played;
    ghost var playable := Playable(s.output.written, worker.sink.periodFrames);
    ghost var start, before := s.output.startedAt.value, worker.sink.clock.now;
    if known == played {
      FlowingIsPlayable(s);
    }
    ClockOf(worker);
    Wait(worker.sink.clock, interval);
    ghost var now := worker.sink.clock.now;
    worker.Tick();
    if worker.stream != null {
      ClockOf(worker);
      Progress(known, played, playable, before, now, start, interval,
               s.played, s.output.played, worker.sink.clock.now);
    }
  }

  /** Left playing, with no error ahead that is not skipped, a track ends: all that
      was decoded is heard, the clock then stands at its end, the recording holds it
      followed by silence, and its end is announced once. When nothing ends the
      stream early that is the whole track from where the seek landed. */
  method PlayToEnd(worker: Worker, interval: real) returns (ghost silence: nat)
    requires worker.Valid() && worker.intact && Decoder.NoFatal(worker.decoder.events)
    requires worker.stream != null && interval > 0.0
    modifies worker, worker.decoder, worker.shared, worker.shared.scope, worker.sink, worker.sink.clock
    modifies worker.stream, worker.stream.output
    ensures worker.Valid() && worker.AtEnd() && Ended(worker, silence)
    ensures worker.prefix == old(worker.prefix) && worker.seekBase == old(worker.seekBase)
    ensures worker.shared.ends == old(worker.shared.ends) + 1 && !worker.shared.active
    ensures old(worker.exact) ==> worker.decoded == worker.source == old(worker.source)
  {
    worker.Assess();
    worker.Tick();
    if worker.stream != null {
      silence := PlayOn(worker, interval);
    } else {
      silence := RecordedToEnd(worker);
    }
  }

  method PlayOn(worker: Worker, interval: real) returns (ghost silence: nat)
    requires worker.Valid() && worker.intact && worker.readable && worker.stream != null && worker.stream.Flowing()
    requires !worker.stream.Ended() && interval > 0.0
    modifies worker, worker.decoder, worker.shared, worker.shared.scope, worker.sink, worker.sink.clock
    modifies worker.stream, worker.stream.output
    ensures worker.Valid() && worker.AtEnd() && Ended(worker, silence)
    ensures worker.prefix == old(worker.prefix) && worker.seekBase == old(worker.seekBase)
    ensures worker.source == old(worker.source) && worker.exact == old(worker.exact)
    ensures worker.shared.ends == old(worker.shared.ends) + 1 && !worker.shared.active
    ensures worker.exact ==> worker.decoded == worker.source
    decreases worker.most + worker.seekBase - worker.shared.position, TicksToWait(worker.stream, interval)
  {
    DecodedIsHeard(worker);
    OneTick(worker, interval);
    if worker.stream != null {
      silence := PlayOn(worker, interval);
    } else {
      silence := RecordedToEnd(worker);
    }
  }

  /** All that was decoded was heard, and is what was recorded. */
  ghost predicate Ended(worker: Worker, silence: nat)
    reads worker, worker.shared, worker.sink, worker.stream
  {
    && worker.Heard() == Pcm(worker.decoded)
    && worker.seekBase <= worker.shared.position
    && |worker.decoded| == Span(worker.shared.position - worker.seekBase, worker.channels)
    && worker.sink.samples == worker.prefix + Pcm(worker.decoded) + Silence(silence)
  }

  lemma RecordedToEnd(worker: Worker) returns (silence: nat)
    requires worker.Valid() && worker.intact && worker.AtEnd()
    ensures Ended(worker, silence)
    ensures worker.exact ==> worker.decoded == worker.source
  {
    var n;
    DecodedIsHeard(worker);
    n, silence := TheRecordingIsTheTrack(worker);
    var all := Pcm(worker.decoded);
    assert worker.Unheard() == [] && all == worker.Heard() && Take(all, n) == all;
    if worker.exact {
      DeliversAll(worker.decoded, worker.decoder.Remaining(), worker.source);
    }
  }

  /** Seeks, plays and leaves the track playing. Where the reader delivers `content`
      from a landing at or before the target, and nothing ends the stream early, the
      speaker plays the track from the target frame to its end, and then silence. */
  method PlayFrom(worker: Worker, position: nat, content: seq<real>, interval: real) returns (ghost silence: nat)
    requires worker.Valid() && interval > 0.0
    requires Decoder.ReadsTrack(worker.decoder, position, content)
    requires match worker.decoder.LandingOf(position)
      case Landed(actual, events) => actual <= worker.decoder.Target(position) && Decoder.Clean(events)
      case _ => false
    modifies worker, worker.decoder, worker.shared, worker.shared.scope, worker.sink, worker.sink.clock
    modifies worker.stream, if worker.stream == null then {} else {worker.stream.output}
    ensures worker.Valid() && worker.AtEnd() && !worker.shared.active
    ensures Decoder.AimsAt(worker.decoder, position, worker.decoder.Target(position))
    ensures var target := worker.decoder.Target(position);
      worker.sink.samples
      == old(worker.sink.samples) + Pcm(Drop(content, Span(target, worker.channels))) + Silence(silence)
  {
    Decoder.LeavesTrack(worker.decoder, position, content);
    Decoder.TargetIsAimedAt(worker.decoder, position);
    CleanIsReadable(worker.decoder.LandingOf(position).events);
    SeekAndPlay(worker, position);
    if worker.stream != null {
      silence := PlayToEnd(worker, interval);
    } else {
      silence := RecordedToEnd(worker);
    }
  }

  /** Seeking to the time of frame `f` plays the track from `f` to its end, or from the
      frame before it exactly when that time had to be rounded. */
  method PlayFromFrame(worker: Worker, f: nat, content: seq<real>, interval: real) returns (ghost silence: nat)
    requires worker.Valid() && interval > 0.0 && worker.decoder.rate <= NANOS
    requires Decoder.Follows(worker.decoder.reader, content, worker.channels)
    requires f <= U64_MAX && (worker.decoder.frames.Some? ==> f <= worker.decoder.frames.value)
    requires var landing := worker.decoder.LandingOf(FramesToDuration(f, worker.decoder.rate));
      landing.Landed? && Decoder.Clean(landing.events)
    modifies worker, worker.decoder, worker.shared, worker.shared.scope, worker.sink, worker.sink.clock
    modifies worker.stream, if worker.stream == null then {} else {worker.stream.output}
    ensures worker.Valid() && worker.AtEnd() && !worker.shared.active
    ensures var first := Decoder.TakenFor(f, worker.decoder.rate);
      worker.sink.samples
      == old(worker.sink.samples) + Pcm(Drop(content, Span(first, worker.channels))) + Silence(silence)
  {
    var position := FramesToDuration(f, worker.decoder.rate);
    Decoder.AimsAtFrame(worker.decoder, f);
    Decoder.FollowedTrack(worker.decoder, position, content);
    silence := PlayFrom(worker, position, content, interval);
  }

  /** A seek that lands, and then a play: the track is played from there. */
  method SeekAndPlay(worker: Worker, position: nat)
    requires worker.Valid() && !worker.decoder.LandingOf(position).Broken?
    requires Decoder.NoFatal(worker.decoder.LandingOf(position).events)
    modifies worker, worker.decoder, worker.shared, worker.shared.scope, worker.sink, worker.sink.clock
    modifies worker.stream, if worker.stream == null then {} else {worker.stream.output}
    ensures worker.Valid() && worker.intact && worker.readable && worker.Starts(position)
    ensures worker.stream == null ==> worker.AtEnd() && !worker.shared.active
    ensures worker.stream != null ==>
      worker.stream == old(worker.stream) || (fresh(worker.stream) && fresh(worker.stream.output))
  {
    var ok := worker.Handle(Seek(position));
    assert !worker.AtEnd();
    ghost var recorded := worker.prefix;
    PlayOnward(worker);
    assert worker.prefix == recorded;
  }

  /** A play that neither restarts nor starts over. */
  method PlayOnward(worker: Worker)
    requires worker.Valid() && worker.intact && worker.readable && !worker.AtEnd()
    modifies worker, worker.decoder, worker.shared, worker.shared.scope, worker.sink, worker.sink.clock
    modifies worker.stream, if worker.stream == null then {} else {worker.stream.output}
    ensures worker.Valid() && worker.Continues()
    ensures worker.stream == null ==> worker.AtEnd() && !worker.shared.active
    ensures worker.stream != null ==>
      worker.stream == old(worker.stream) || (fresh(worker.stream) && fresh(worker.stream.output))
  {
    var ok := worker.Handle(Play(false));
  }

  lemma CleanIsReadable(events: seq<Decoder.Event>)
    requires Decoder.Clean(events)
    ensures Decoder.NoFatal(events)
  {
  }

  // ---- Where a seek puts the clock ----

  /** After a seek the clock stands at the decoder's target, or one frame before it
      when the target's duration had to be rounded. */
  method SeekLands(worker: Worker, position: nat) returns (ok: bool)
    requires worker.Valid() && worker.decoder.rate <= NANOS
    modifies worker, worker.decoder, worker.shared`position, worker.shared.scope
    modifies worker.sink`formats, worker.sink`samples, worker.sink.clock
    ensures worker.Valid() && Decoder.AimsAt(worker.decoder, position, worker.decoder.Target(position))
    ensures var target := worker.decoder.Target(position);
      worker.decoder.LandingOf(position).Landed? ==>
        && ok && worker.Heard() == []
        && worker.shared.position == worker.base
        && worker.base == if target * NANOS % worker.decoder.rate == 0 then target else target - 1
  {
    ok := worker.SeekTo(position);
    Decoder.LandingFrame(worker.decoder, position);
    Decoder.TargetIsAimedAt(worker.decoder, position);
  }
  /** Of the time of frame `f` it stands at the frame that is taken for, or once more at the
      one before it, when that frame's time is rounded as well. */
  method SeekLandsOnFrame(worker: Worker, f: nat) returns (ok: bool)
    requires worker.Valid() && worker.decoder.rate <= NANOS
    requires f <= U64_MAX && (worker.decoder.frames.Some? ==> f <= worker.decoder.frames.value)
    modifies worker, worker.decoder, worker.shared`position, worker.shared.scope
    modifies worker.sink`formats, worker.sink`samples, worker.sink.clock
    ensures worker.Valid()
    ensures var rate := worker.decoder.rate;
      worker.decoder.LandingOf(FramesToDuration(f, rate)).Landed? ==>
        ok && worker.shared.position == Decoder.TakenFor(Decoder.TakenFor(f, rate), rate)
  {
    Decoder.AimsAtFrame(worker.decoder, f);
    ok := SeekLands(worker, FramesToDuration(f, worker.decoder.rate));
  }
}
