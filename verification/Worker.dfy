/**
 The worker behind one channel. It moves samples from the decoder through
 `carry` into the open stream, gives back on a pause what had not played, and
 publishes the clock. `Valid()` is what every command and every timer tick
 keeps: no sample decoded since the last seek is lost, repeated or reordered.
*/
module Workers {
  import opened Arithmetic
  import opened Interleaved
  import opened FrameTime
  import opened Wrappers
  import opened Decoder
  import opened Output
  import opened Streams
  import opened Ledger
  import opened Seals
  import Channel
  import Scope

  const DECODE_SAMPLES: nat := 4096

  datatype Command = Play(restart: bool) | Pause | Stop | Seek(position: nat) | Volume(gain: real)

  class Worker {
    const decoder: Mp3Decoder
    const sink: MemorySink
    const shared: Channel.Shared
    const channels: nat
    var stream: Stream?
    /** Where the clock stood when the open stream was opened. */
    var base: nat
    /** Decoded, or given back by a pause, and in no stream. */
    var carry: seq<int>
    /** A read came back empty since the last seek. */
    var drained: bool
    var gain: real

    // Since the last seek (or the start):
    /** the frame it was published to land on, */
    ghost var seekBase: nat
    /** what the decoder had to deliver, */
    ghost var source: seq<real>
    /** what it delivered, */
    ghost var decoded: seq<real>
    /** what earlier streams played of it, */
    ghost var heardBefore: seq<int>
    /** what was in the recording already, */
    ghost var prefix: seq<int>
    /** and the silence a stream closed in its padding left there. */
    ghost var tail: nat
    /** No seek has failed since then. */
    ghost var intact: bool
    /** And nothing ends the stream early. */
    ghost var exact: bool
    /** No error that is not skipped lies ahead. */
    ghost var readable: bool
    /** No more than this can be decoded. */
    ghost var most: nat
    /** By how many frames, at most, the output was ahead of what was noted of it when a
        block was decoded. */
    ghost var ahead: nat

    /** What has been heard since the last seek, with `s` the open stream. */
    ghost function HeardWith(s: Stream?): seq<int>
      reads this`heardBefore, s
    {
      if s == null then heardBefore else heardBefore + s.heard
    }

    ghost function UnheardWith(s: Stream?): seq<int>
      reads this`carry, s
    {
      if s == null then carry else s.unplayed + carry
    }

    ghost function Heard(): seq<int>
      reads this`heardBefore, this`stream, stream
    {
      HeardWith(stream)
    }

    ghost function Unheard(): seq<int>
      reads this`carry, this`stream, stream
    {
      UnheardWith(stream)
    }

    /** The decoder's side of the books. */
    ghost predicate DecoderSide()
      reads this`exact, this`intact, this`decoded, this`source, this`drained, this`readable, this`most, decoder
    {
      var holds :=
      && decoder.Valid() && decoder.channels == channels
      && (readable ==> NoFatal(decoder.events)) && |decoded| + decoder.Most() <= most
      && (exact ==>
        && intact && readable && Clean(decoder.events) && Delivers(decoded, decoder.Remaining(), source)
        && (drained ==> decoder.Remaining() == []));
      holds
    }

    /** The recording since the seek is what was heard. */
    ghost predicate Recorded(s: Stream?)
      reads this`prefix, this`heardBefore, this`tail, this`drained, this`carry, sink, s, if s == null then {} else {s.output}
    {
      if s == null then
        && HeardThenSilence(sink.samples, prefix, heardBefore, Span(tail, channels))
        && (tail > 0 ==> drained && carry == [])
      else
        HeardThenSilence(s.output.before, prefix, heardBefore, 0)
    }

    /** The clock, for the stream it started. */
    ghost predicate Clocked(s: Stream?)
      reads this`seekBase, this`heardBefore, this`base, shared`position, s
    {
      && seekBase <= base && |heardBefore| == Span(base - seekBase, channels)
      && shared.position == base + if s == null then 0 else s.Position()
    }

    /** What is counted in whole frames, whatever has failed. */
    ghost predicate Shaped(s: Stream?)
      reads this`carry, this`drained, this`decoded, shared`onEnd, shared`nextRegistration, shared.scope, sink, s
      reads if s == null then {} else {s.output, s.output.sink}
    {
      var holds :=
      && 0 < channels <= DECODE_SAMPLES && 1 <= sink.periodFrames <= sink.queueFrames
      && shared.Valid() && shared.scope.Valid()
      && Whole(|carry|, channels) && Whole(|decoded|, channels)
      && (s != null ==>
        && s.Valid() && s.output.sink == sink && s.output.channels == channels
        && (s.end.Some? ==> drained && carry == []));
      holds
    }

    /** As many frames as can be decoded and not noted as played. */
    ghost function Room(): nat
      reads this`ahead
    {
      sink.queueFrames + ahead + DECODE_SAMPLES
    }

    /** They are, and the visualizer counts them rightly while it has room for them. */
    ghost predicate Fits()
      reads this`ahead, shared.scope
    {
      && shared.scope.outstanding <= Room()
      && (Room() <= Scope.KEEP ==> shared.scope.fitted)
    }

    /** The speaker's side, with `s` the stream the worker has in hand. */
    ghost predicate SpeakerSide(s: Stream?)
      reads this`base, this`carry, this`drained, this`seekBase, this`decoded, this`heardBefore, this`prefix, this`tail
      reads this`intact, this`ahead, shared`position, shared`onEnd, shared`nextRegistration, shared.scope, sink, s
      reads if s == null then {} else {s.output, s.output.sink}
    {
      Shaped(s) && (intact ==> Booked(s))
    }

    /** The books since the last seek. */
    ghost predicate Booked(s: Stream?)
      reads this`base, this`carry, this`drained, this`seekBase, this`decoded, this`heardBefore, this`prefix, this`tail
      reads this`ahead, shared`position, shared.scope, sink, s
      reads if s == null then {} else {s.output}
      requires channels > 0
    {
      forall n {:trigger Look(Booking, n)} :: Look(Booking, n) ==>
        && Recorded(s) && Clocked(s) && Fits()
        && Balanced(channels, decoded, HeardWith(s), UnheardWith(s), seekBase, shared.position,
                    shared.scope.all, shared.scope.outstanding)
    }

    ghost predicate Valid()
      reads this`base, this`carry, this`drained, this`seekBase, this`decoded, this`heardBefore, this`prefix, this`tail
      reads this`intact, this`exact, this`source, this`readable, this`most, this`ahead, this`stream, decoder
      reads this`gain, shared`active
      reads shared`position, shared`onEnd, shared`nextRegistration, shared.scope, sink, stream
      reads if stream == null then {} else {stream.output, stream.output.sink}
    {
      var holds := DecoderSide() && SpeakerSide(stream) && Sounding();
      holds
    }

    /** A track with a stream is active, and played at the gain last set. */
    ghost predicate Sounding()
      reads this`gain, this`stream, shared`active, stream, if stream == null then {} else {stream.output}
    {
      stream != null ==> shared.active && stream.output.gain == gain
    }

    constructor (decoder: Mp3Decoder, sink: MemorySink, shared: Channel.Shared)
      requires decoder.Valid() && decoder.channels <= DECODE_SAMPLES && decoder.pendingAt == |decoder.pending|
      requires 1 <= sink.periodFrames <= sink.queueFrames
      requires shared.Valid() && shared.position == 0
      requires shared.scope.Valid() && shared.scope.all == [] && shared.scope.outstanding == 0
      ensures Valid() && this.decoder == decoder && this.sink == sink && this.shared == shared
      ensures stream == null && intact && source == decoder.Remaining() && seekBase == 0 && Heard() == []
      ensures exact == Clean(decoder.events) && readable == NoFatal(decoder.events) && prefix == sink.samples
      ensures ahead == 0
    {
      this.decoder, this.sink, this.shared, channels := decoder, sink, shared, decoder.channels;
      stream, base, carry, drained, gain := null, 0, [], false, 1.0;
      seekBase, source, decoded, heardBefore, prefix, tail := 0, decoder.Remaining(), [], [], sink.samples, 0;
      intact, exact := true, Clean(decoder.events);
      readable, most, ahead := NoFatal(decoder.events), decoder.Most(), 0;
      new;
      NothingHeard(prefix, source);
      NothingDecoded(channels, 0);
    }

    /** Advances the clock to what `s` has played. */
    method NotePlayed(s: Stream, played: nat)
      requires SpeakerSide(s) && played <= s.output.played
      modifies s`played, s`unplayed, s`heard, shared`position, shared.scope
      ensures SpeakerSide(s) && s.played == Max(old(s.played), played)
      ensures shared.scope.fitted == old(shared.scope.fitted)
      ensures intact ==> old(HeardWith(s)) <= HeardWith(s) && old(shared.position) <= shared.position
    {
      if played > s.played {
        NoteMore(s, played);
      }
    }

    method NoteMore(s: Stream, played: nat)
      requires SpeakerSide(s) && s.played < played <= s.output.played
      modifies s`played, s`unplayed, s`heard, shared`position, shared.scope
      ensures SpeakerSide(s) && s.played == played && shared.scope.fitted == old(shared.scope.fitted)
      ensures intact ==> old(HeardWith(s)) <= HeardWith(s) && old(shared.position) <= shared.position
    {
      ghost var first := HeardWith(s);
      if intact {
        OpenBooks(s);
      }
      var frames := s.Note(played);
      if intact {
        BalancedNote(channels, decoded, heardBefore, old(s.heard), old(s.unplayed), s.heard, s.unplayed, carry,
                     seekBase, base, old(s.Position()), s.Position(), frames,
                     shared.scope.all, shared.scope.outstanding);
        assert first <= HeardWith(s);
      }
      PublishNoted(s, frames);
    }

    /** Publishes what `s` has just noted. */
    method PublishNoted(s: Stream, frames: nat)
      requires Shaped(s)
      requires intact ==>
        && Recorded(s) && Fits() && seekBase <= base && |heardBefore| == Span(base - seekBase, channels)
        && Balanced(channels, decoded, HeardWith(s), UnheardWith(s), seekBase, base + s.Position(),
                    shared.scope.all, Max(shared.scope.outstanding, frames) - frames)
      modifies shared`position, shared.scope
      ensures SpeakerSide(s) && shared.position == base + s.Position()
      ensures shared.scope.fitted == old(shared.scope.fitted)
    {
      var position := s.TrackPosition();
      shared.Publish(frames, base + position);
      if intact {
        CloseBooks(s);
      }
    }

    /** Reads the next block: nothing only at the end of the track. */
    method ReadBlock() returns (samples: seq<real>, ok: bool)
      requires decoder.Valid() && decoder.channels == channels && 0 < channels <= DECODE_SAMPLES
      modifies decoder
      ensures decoder.Valid() && Whole(|samples|, channels) && |samples| <= DECODE_SAMPLES
      ensures old(NoFatal(decoder.events)) ==> ok && NoFatal(decoder.events)
      ensures |samples| + decoder.Most() <= old(decoder.Most())
      ensures old(Clean(decoder.events)) ==>
        && ok && Clean(decoder.events) && samples + decoder.Remaining() == old(decoder.Remaining())
        && (samples == [] ==> decoder.Remaining() == [])
      ensures |decoder.events| <= old(|decoder.events|)
      ensures samples != [] && |decoder.events| == old(|decoder.events|) ==>
        |decoder.pending| - decoder.pendingAt < old(|decoder.pending| - decoder.pendingAt)
    {
      var frames := FrameCount(DECODE_SAMPLES, channels);
      var size := SampleCount(frames, channels);
      FramesOfSpan(frames, channels);
      SpanOfFrames(DECODE_SAMPLES, channels);
      SpanPositive(frames, channels);
      var block := new real[size];
      var count;
      count, ok := decoder.Read(block);
      samples := block[..count];
    }

    /** Decodes the next block into the empty `carry`; not at the end of the
        track. */
    method Decode(ghost s: Stream) returns (more: bool, ok: bool)
      requires DecoderSide() && SpeakerSide(s) && carry == [] && s.end == None
      modifies this`carry, this`drained, this`decoded, this`ahead, decoder, shared.scope
      ensures DecoderSide() && SpeakerSide(s) && RanAhead(s)
      ensures |decoder.events| <= old(|decoder.events|)
      ensures more ==> ok && carry != []
      ensures more && |decoder.events| == old(|decoder.events|) ==>
        |decoder.pending| - decoder.pendingAt < old(|decoder.pending| - decoder.pendingAt)
      ensures ok && !more ==> drained && carry == []
      ensures !ok ==> !readable && carry == []
    {
      if drained {
        return false, true;
      }
      var samples;
      samples, ok := ReadBlock();
      if !ok {
        return false, false;
      }
      if samples == [] {
        EndDecoding(s);
        return false, true;
      }
      KeepBlock(s, samples);
      more := true;
    }

    /** The decoder's side of the books with `samples` handed out, and not yet entered. */
    ghost predicate Owes(samples: seq<real>)
      reads this`exact, this`intact, this`decoded, this`source, this`drained, this`readable, this`most, decoder
    {
      var holds :=
      && decoder.Valid() && decoder.channels == channels && !drained
      && (readable ==> NoFatal(decoder.events)) && |decoded| + |samples| + decoder.Most() <= most
      && (exact ==>
        intact && readable && Clean(decoder.events) && Delivers(decoded, samples + decoder.Remaining(), source));
      holds
    }

    method KeepBlock(ghost s: Stream, samples: seq<real>)
      requires Owes(samples) && SpeakerSide(s) && carry == [] && s.end == None
      requires Whole(|samples|, channels) && 0 < |samples| <= DECODE_SAMPLES
      modifies this`carry, this`decoded, this`ahead, shared.scope
      ensures DecoderSide() && SpeakerSide(s) && RanAhead(s) && carry != []
    {
      DeliversMore(decoded, samples, decoder.Remaining(), source);
      CarryBlock(s, samples);
    }

    /** `ahead` only rises, and no further than the output now is ahead of `s`. */
    twostate predicate RanAhead(s: Stream)
      reads this`ahead, s`played, s.output`played
    {
      old(ahead) <= ahead && (ahead == old(ahead) || s.played + ahead <= s.output.played)
    }

    method EndDecoding(ghost s: Stream)
      requires DecoderSide() && SpeakerSide(s) && s.end == None && (exact ==> decoder.Remaining() == [])
      modifies this`drained
      ensures DecoderSide() && SpeakerSide(s) && drained
    {
      drained := true;
    }

    method CarryBlock(ghost s: Stream, samples: seq<real>)
      requires SpeakerSide(s) && carry == [] && s.end == None
      requires Whole(|samples|, channels) && |samples| <= DECODE_SAMPLES
      modifies this`carry, this`decoded, this`ahead, shared.scope
      ensures SpeakerSide(s) && decoded == old(decoded) + samples && carry == Pcm(samples) && RanAhead(s)
    {
      NoteAhead(s, samples);
      TakeBlock(s, samples);
    }

    /** A block is about to be decoded: notes how far the output is ahead. */
    ghost method NoteAhead(s: Stream, samples: seq<real>)
      requires SpeakerSide(s) && carry == [] && s.end == None && |samples| <= DECODE_SAMPLES
      modifies this`ahead
      ensures SpeakerSide(s) && RanAhead(s)
      ensures intact ==> shared.scope.outstanding + Frames(|samples|, channels) <= Room()
    {
      if intact {
        OutstandingFrames(s);
      }
      FramesAtMost(|samples|, channels);
      Raise(s, Max(ahead, s.output.played - s.played));
    }

    ghost method Raise(s: Stream, ahead: nat)
      requires SpeakerSide(s) && this.ahead <= ahead
      modifies this`ahead
      ensures SpeakerSide(s) && this.ahead == ahead
    {
      assert Look(Booking, 0);
      this.ahead := ahead;
    }

    /** With nothing carried, what is outstanding is in the stream. */
    lemma OutstandingFrames(s: Stream)
      requires SpeakerSide(s) && intact && carry == [] && s.end == None
      ensures s.played <= s.written && shared.scope.outstanding == s.written - s.played
      ensures s.written - s.played <= sink.queueFrames + (s.output.played - s.played)
    {
      assert Look(Booking, 0);
      s.UnplayedFrames();
      FramesUnheard(channels, decoded, HeardWith(s), UnheardWith(s), seekBase, shared.position,
                    shared.scope.all, shared.scope.outstanding, s.written - s.played);
    }

    lemma OpenBooks(s: Stream?)
      requires SpeakerSide(s) && intact
      ensures Recorded(s) && Clocked(s) && Fits()
      ensures Balanced(channels, decoded, HeardWith(s), UnheardWith(s), seekBase, shared.position,
                       shared.scope.all, shared.scope.outstanding)
    {
      assert Look(Booking, 0);
    }

    lemma CloseBooks(s: Stream?)
      requires channels > 0 && Recorded(s) && Clocked(s) && Fits()
      requires Balanced(channels, decoded, HeardWith(s), UnheardWith(s), seekBase, shared.position,
                        shared.scope.all, shared.scope.outstanding)
      ensures Booked(s)
    {
    }

    method TakeBlock(ghost s: Stream, samples: seq<real>)
      requires SpeakerSide(s) && carry == [] && s.end == None && Whole(|samples|, channels)
      requires intact ==> shared.scope.outstanding + Frames(|samples|, channels) <= Room()
      modifies this`carry, this`decoded, shared.scope
      ensures SpeakerSide(s) && decoded == old(decoded) + samples && carry == Pcm(samples)
    {
      ghost var all, outstanding, before, unheard := shared.scope.all, shared.scope.outstanding, decoded, UnheardWith(s);
      if intact {
        OpenBooks(s);
      }
      AddBlock(s, samples);
      if intact {
        BalancedDecode(channels, before, HeardWith(s), unheard, seekBase, shared.position, all, outstanding, samples,
                       decoded, UnheardWith(s), shared.scope.all, shared.scope.outstanding);
        CloseBooks(s);
      }
    }

    method AddBlock(ghost s: Stream, samples: seq<real>)
      requires Shaped(s) && carry == [] && s.end == None && Whole(|samples|, channels)
      requires intact ==> Fits() && shared.scope.outstanding + Frames(|samples|, channels) <= Room()
      modifies this`carry, this`decoded, shared.scope
      ensures Shaped(s) && decoded == old(decoded) + samples && carry == Pcm(samples)
      ensures UnheardWith(s) == old(UnheardWith(s)) + Pcm(samples)
      ensures shared.scope.all == old(shared.scope.all) + Scope.Mono(samples, channels)
      ensures shared.scope.outstanding == old(shared.scope.outstanding) + Frames(|samples|, channels)
      ensures intact ==> Fits()
    {
      WholeSum(|decoded|, |samples|, channels);
      shared.scope.Decoded(samples, channels);
      decoded := decoded + samples;
      var block := Pcm(samples);
      NothingUnheard(s.unplayed, block);
      carry := carry + block;
    }

    /** Catches up with what `s` has played. */
    method CatchUp(s: Stream)
      requires SpeakerSide(s)
      modifies s`played, s`unplayed, s`heard, s.output`queue, s.output`played, sink`samples, sink.clock
      modifies shared`position, shared.scope
      ensures SpeakerSide(s) && s.played == s.output.played >= old(s.output.played)
      ensures s.played >= Min(old(s.output.Due(sink.clock.now)), Playable(s.output.written, sink.periodFrames))
      ensures sink.clock.now >= old(sink.clock.now) && shared.scope.fitted == old(shared.scope.fitted)
      ensures intact ==> old(HeardWith(s)) <= HeardWith(s) && old(shared.position) <= shared.position
    {
      var played := s.Poll();
      NotePlayed(s, played);
    }

    /** Writes what fits of `carry` to `s`. */
    method WriteCarry(s: Stream) returns (any: bool)
      requires SpeakerSide(s) && s.end == None && carry != []
      modifies this`carry, s`unplayed, s`written, s`sent, s.output, sink`samples, sink.clock
      ensures s.output.gain == old(s.output.gain)
      ensures SpeakerSide(s) && sink.clock.now >= old(sink.clock.now) && s.output.played >= old(s.output.played)
      ensures any ==> |carry| < old(|carry|)
      ensures !any ==> s.Full()
      ensures old(s.output.startedAt).Some? ==> s.output.startedAt == old(s.output.startedAt)
    {
      var taken, rest, ok := s.Write(carry);
      any := taken != [];
      carry := rest;
      assert s.unplayed + carry == old(s.unplayed + carry);
    }

    /** Writes and decodes until the queue is full (`full`) or the track's end
        is queued. */
    method FillQueue(s: Stream) returns (full: bool, ok: bool)
      requires DecoderSide() && SpeakerSide(s)
      modifies this`carry, this`drained, this`decoded, this`ahead, decoder, shared.scope
      modifies s`unplayed, s`written, s`sent, s`end, s`pad, s.output, sink`samples, sink.clock
      ensures s.output.gain == old(s.output.gain)
      ensures DecoderSide() && SpeakerSide(s) && sink.clock.now >= old(sink.clock.now)
      ensures RanAhead(s) && s.output.played >= old(s.output.played)
      ensures full ==> ok && s.Full()
      ensures ok && !full ==> s.end.Some?
      ensures old(s.end).Some? ==> s.end == old(s.end)
      ensures !ok ==> !readable
      ensures old(s.output.startedAt).Some? ==> s.output.startedAt == old(s.output.startedAt)
    {
      full, ok := false, true;
      while s.end == None && ok && !full
        invariant DecoderSide() && SpeakerSide(s) && sink.clock.now >= old(sink.clock.now)
        invariant RanAhead(s) && s.output.played >= old(s.output.played) && s.output.gain == old(s.output.gain)
        invariant old(s.end).Some? ==> s.end == old(s.end)
        invariant old(s.output.startedAt).Some? ==> s.output.startedAt == old(s.output.startedAt)
        invariant (full ==> ok && s.Full()) && (!ok ==> !readable)
        decreases s.end == None, ok && !full, |decoder.events|, |decoder.pending| - decoder.pendingAt, |carry|
      {
        full, ok := FillOnce(s);
      }
    }

    /** One turn of the loop: a block decoded when nothing is carried, and one
        write. */
    method FillOnce(s: Stream) returns (full: bool, ok: bool)
      requires DecoderSide() && SpeakerSide(s) && s.end == None
      modifies this`carry, this`drained, this`decoded, this`ahead, decoder, shared.scope
      modifies s`unplayed, s`written, s`sent, s`end, s`pad, s.output, sink`samples, sink.clock
      ensures s.output.gain == old(s.output.gain)
      ensures DecoderSide() && SpeakerSide(s) && sink.clock.now >= old(sink.clock.now)
      ensures RanAhead(s) && s.output.played >= old(s.output.played)
      ensures full ==> ok && s.Full()
      ensures ok && !full && s.end == None ==>
        && |decoder.events| <= old(|decoder.events|)
        && (|decoder.events| == old(|decoder.events|) ==>
          && |decoder.pending| - decoder.pendingAt <= old(|decoder.pending| - decoder.pendingAt)
          && (|decoder.pending| - decoder.pendingAt == old(|decoder.pending| - decoder.pendingAt) ==>
            |carry| < old(|carry|)))
      ensures !ok ==> !readable
      ensures old(s.output.startedAt).Some? ==> s.output.startedAt == old(s.output.startedAt)
    {
      if carry == [] {
        var more;
        more, ok := Decode(s);
        if !ok {
          return false, false;
        }
        if !more {
          QueueEnd(s);
          return false, true;
        }
      }
      var any := WriteCarry(s);
      return !any, true;
    }

    method QueueEnd(s: Stream)
      requires SpeakerSide(s) && s.end == None && drained && carry == []
      modifies s`end, s`pad
      ensures SpeakerSide(s) && s.end.Some?
    {
      s.QueueEnd();
    }

    /** Writes the padding, then starts a stream that never filled. */
    method FinishStream(s: Stream)
      requires SpeakerSide(s) && s.end.Some?
      modifies s`pad, s`written, s`padded, s`started, s.output, sink`samples, sink.clock
      ensures s.output.gain == old(s.output.gain)
      ensures s.output.played >= old(s.output.played)
      ensures SpeakerSide(s) && s.Flowing() && s.end == old(s.end) && sink.clock.now >= old(sink.clock.now)
      ensures old(s.output.startedAt).Some? ==> s.output.startedAt == old(s.output.startedAt)
    {
      if s.pad > 0 {
        WritePadding(s);
        if s.pad > 0 {
          return;
        }
      }
      if !s.started {
        StartStream(s);
      }
    }

    method WritePadding(s: Stream)
      requires SpeakerSide(s) && s.end.Some? && s.pad > 0
      modifies s`pad, s`written, s`padded, s.output, sink`samples, sink.clock
      ensures s.output.gain == old(s.output.gain)
      ensures SpeakerSide(s) && sink.clock.now >= old(sink.clock.now) && s.output.played >= old(s.output.played)
      ensures s.pad > 0 ==> s.Full()
      ensures old(s.output.startedAt).Some? ==> s.output.startedAt == old(s.output.startedAt)
    {
      var ok := s.WritePad();
    }

    method StartStream(s: Stream)
      requires SpeakerSide(s)
      modifies s`started, s.output`startedAt, s.output`playedAtStart, sink.clock
      ensures SpeakerSide(s) && s.output.startedAt.Some? && sink.clock.now >= old(sink.clock.now)
      ensures old(s.output.startedAt).Some? ==> s.output.startedAt == old(s.output.startedAt)
    {
      s.Start();
    }

    /** Keeps the stream's queue full; afterwards it plays, and never waits
        for frames it could not play. */
    method Refill(s: Stream) returns (ok: bool)
      requires DecoderSide() && SpeakerSide(s)
      modifies this`carry, this`drained, this`decoded, this`ahead, decoder, shared`position, shared.scope
      modifies s, s.output, sink`samples, sink.clock
      ensures s.output.gain == old(s.output.gain)
      ensures RanAhead(s)
      ensures DecoderSide() && SpeakerSide(s) && sink.clock.now >= old(sink.clock.now)
      ensures ok ==> s.Flowing()
      ensures !ok ==> !readable
      ensures s.KeepsUp()
      ensures intact ==> old(HeardWith(s)) <= HeardWith(s) && old(shared.position) <= shared.position
    {
      CatchUp(s);
      ok := WriteAll(s);
    }

    /** Writes as much of the track, and of the padding behind it, as fits. */
    method WriteAll(s: Stream) returns (ok: bool)
      requires DecoderSide() && SpeakerSide(s)
      modifies this`carry, this`drained, this`decoded, this`ahead, decoder, shared.scope
      modifies s`unplayed, s`written, s`sent, s`end, s`pad, s`padded, s`started, s.output, sink`samples, sink.clock
      ensures s.output.gain == old(s.output.gain)
      ensures RanAhead(s)
      ensures DecoderSide() && SpeakerSide(s) && sink.clock.now >= old(sink.clock.now)
      ensures ok ==> s.Flowing()
      ensures !ok ==> !readable
      ensures old(s.output.startedAt).Some? ==> s.output.startedAt == old(s.output.startedAt)
    {
      var full;
      full, ok := FillQueue(s);
      if ok && !full {
        FinishStream(s);
      }
    }

    /** Takes `s` out of service: the clock keeps what it played of the track,
        and what it did not play is carried for the next stream. */
    method Retire(s: Stream)
      requires SpeakerSide(s)
      requires s.played == s.output.played || s.played >= s.TrackFrames()
      modifies this`base, this`carry, this`heardBefore, this`tail, shared`position
      ensures SpeakerSide(null) && HeardWith(null) == old(HeardWith(s)) && carry == s.unplayed + old(carry)
      ensures intact ==> shared.position == old(shared.position)
    {
      var position := s.TrackPosition();
      var at := base + position;
      ghost var left := RetiredBooks(s, at, s.output.played);
      HandOver(s, at, left);
    }

    /** What `s` played goes behind what was heard, what it did not in front of `carry`. */
    method HandOver(s: Stream, at: nat, ghost left: nat)
      requires Shaped(null) && Whole(|s.unplayed + carry|, channels)
      requires left > 0 ==> drained && s.unplayed + carry == []
      requires intact ==>
        && HeardThenSilence(sink.samples, prefix, heardBefore + s.heard, Span(left, channels))
        && seekBase <= at && |heardBefore + s.heard| == Span(at - seekBase, channels)
        && shared.position == at && Fits()
        && Balanced(channels, decoded, heardBefore + s.heard, s.unplayed + carry, seekBase, at,
                    shared.scope.all, shared.scope.outstanding)
      modifies this`base, this`carry, this`heardBefore, this`tail, shared`position
      ensures SpeakerSide(null) && heardBefore == old(heardBefore) + s.heard && carry == s.unplayed + old(carry)
      ensures shared.position == at
    {
      base := at;
      shared.position := at;
      carry := s.unplayed + carry;
      tail := left;
      heardBefore := heardBefore + s.heard;
    }

    lemma RetiredBooks(s: Stream, at: nat, recorded: nat) returns (left: nat)
      requires SpeakerSide(s) && at == base + s.Position() && recorded == s.output.played
      requires s.played == s.output.played || s.played >= s.TrackFrames()
      ensures Whole(|s.unplayed + carry|, channels)
      ensures left > 0 ==> drained && s.unplayed + carry == []
      ensures intact ==>
        && HeardThenSilence(sink.samples, prefix, heardBefore + s.heard, Span(left, channels))
        && seekBase <= at && |heardBefore + s.heard| == Span(at - seekBase, channels)
        && shared.position == at && Fits()
        && Balanced(channels, decoded, heardBefore + s.heard, s.unplayed + carry, seekBase, at,
                    shared.scope.all, shared.scope.outstanding)
    {
      assert Look(Booking, 0);
      s.RecordedByNow(recorded);
      left := recorded - s.Position();
      WholeSum(|s.unplayed|, |carry|, channels);
      if intact {
        SpanSum(base - seekBase, s.Position(), channels);
        HeardMore(s.output.before, sink.samples, prefix, heardBefore, s.heard, Span(left, channels));
      }
    }

    /** Nothing that counts from the last seek was given up. */
    twostate predicate Continues()
      reads this`intact, this`exact, this`readable, this`most, this`seekBase, this`source, this`prefix
      reads this`heardBefore, this`ahead, this`stream, shared`position, stream
    {
      var holds :=
      && old(ahead) <= ahead && intact == old(intact) && exact == old(exact) && readable == old(readable) && most == old(most)
      && seekBase == old(seekBase) && source == old(source) && prefix == old(prefix)
      && (intact ==> old(Heard()) <= Heard() && old(shared.position) <= shared.position);
      holds
    }

    /** The end was announced at most once, and only with the whole track played;
        and not again from there. */
    twostate predicate Announces()
      reads this`drained, this`carry, this`stream, shared`ends
    {
      var holds :=
      && (old(AtEnd()) ==> AtEnd() && shared.ends == old(shared.ends))
      && (shared.ends != old(shared.ends) ==> AtEnd() && shared.ends == old(shared.ends) + 1);
      holds
    }

    /** Everything counts from here: a seek landed. */
    twostate predicate Landed()
      reads this, decoder, shared, shared.scope, stream
      requires old(allocated(sink))
    {
      var holds :=
      && intact && Heard() == [] && decoded == [] && carry == [] && tail == 0 && !drained
      && shared.position == seekBase == base && ahead == 0 && shared.scope.fitted
      && decoder.Valid() && source == decoder.Remaining() && exact == Clean(decoder.events)
      && readable == NoFatal(decoder.events) && prefix == old(sink.samples);
      holds
    }

    /** Nothing moved but what the speaker played meanwhile. */
    twostate predicate Rests()
      reads this`intact, this`exact, this`readable, this`most, this`seekBase, this`source, this`prefix, this`drained
      reads this`heardBefore, this`ahead, this`carry, this`stream, shared`position, shared`ends, shared.scope, stream
    {
      var holds :=
      Continues() && Announces() && ahead == old(ahead) && shared.scope.fitted == old(shared.scope.fitted);
      holds
    }

    /** The books are about the track from `position` on. */
    twostate predicate Starts(position: nat)
      reads this`intact, this`source, this`exact, this`readable, this`seekBase, this`prefix, sink`samples
    {
      var holds :=
      && intact && source == decoder.After(position) && prefix == old(sink.samples)
      && exact == Clean(decoder.LandingOf(position).events)
      && readable == NoFatal(decoder.LandingOf(position).events)
      && (decoder.LandingOf(position).Landed? ==> seekBase == decoder.LandsAt(position));
      holds
    }

    /** Afterwards no stream is open, and what was not heard of it is in front of
        `carry`: nothing is lost. */
    method CloseStream()
      requires Valid()
      modifies this`stream, this`base, this`carry, this`heardBefore, this`tail, shared`position, shared.scope
      modifies sink`samples, sink.clock
      modifies stream, if stream == null then {} else {stream.output}
      ensures Valid() && stream == null && Rests() && shared.active == old(shared.active)
      ensures sink.clock.now >= old(sink.clock.now)
    {
      if stream == null {
        return;
      }
      CloseOpen(stream);
    }

    method CloseOpen(s: Stream)
      requires Valid() && stream == s
      modifies this`stream, this`base, this`carry, this`heardBefore, this`tail, shared`position, shared.scope
      modifies sink`samples, sink.clock, s, s.output
      ensures Valid() && stream == null && Continues() && sink.clock.now >= old(sink.clock.now)
      ensures shared.scope.fitted == old(shared.scope.fitted)
    {
      CatchUpAndRetire(s);
      stream := null;
    }

    method CatchUpAndRetire(s: Stream)
      requires SpeakerSide(s)
      modifies this`base, this`carry, this`heardBefore, this`tail, shared`position, shared.scope
      modifies sink`samples, sink.clock, s, s.output
      ensures SpeakerSide(null) && sink.clock.now >= old(sink.clock.now)
      ensures shared.scope.fitted == old(shared.scope.fitted)
      ensures intact ==> old(HeardWith(s)) <= HeardWith(null) && old(shared.position) <= shared.position
    {
      CatchUp(s);
      Retire(s);
    }

    /** Opens a stream that starts where the clock stands. */
    method OpenStream() returns (ok: bool)
      requires Valid() && stream == null && (intact ==> tail == 0) && shared.active
      modifies this`stream, sink`formats, sink`samples, sink.clock
      ensures Valid() && ok && stream != null && fresh(stream) && fresh(stream.output)
      ensures Heard() == old(Heard()) && Unheard() == old(Unheard()) && sink.samples == old(sink.samples)
      ensures sink.clock.now >= old(sink.clock.now)
    {
      if intact {
        OpenBooks(null);
      }
      var s := OpenOutput();
      NothingUnheard(heardBefore, carry);
      if intact {
        BooksBehind(s);
      }
      stream := s;
      ok := true;
    }

    /** The books as they stand when `s` has just been opened. */
    lemma BooksBehind(s: Stream)
      requires channels > 0 && s.heard == [] && s.unplayed == [] && s.Position() == 0 && s.output.before == sink.samples
      requires HeardWith(s) == heardBefore && UnheardWith(s) == carry
      requires Recorded(null) && tail == 0 && Clocked(null) && Fits()
      requires Balanced(channels, decoded, heardBefore, carry, seekBase, shared.position,
                        shared.scope.all, shared.scope.outstanding)
      ensures Booked(s)
    {
    }

    method OpenOutput() returns (s: Stream)
      requires decoder.Valid() && 0 < channels && 1 <= sink.periodFrames <= sink.queueFrames
      modifies sink`formats, sink`samples, sink.clock
      ensures fresh(s) && fresh(s.output) && s.Valid() && s.output.sink == sink && s.output.channels == channels
      ensures s.output.gain == gain
      ensures s.heard == [] && s.unplayed == [] && s.end == None && s.Position() == 0
      ensures s.output.before == sink.samples == old(sink.samples) && sink.clock.now >= old(sink.clock.now)
    {
      var output := sink.Open(decoder.rate, channels);
      output.SetVolume(gain);
      s := new Stream(output);
    }

    /** Moves to `position`. A stream that was open is replaced; what it and
        `carry` held is dropped. */
    method SeekTo(position: nat) returns (ok: bool)
      requires Valid()
      modifies this, decoder, shared`position, shared.scope, sink`formats, sink`samples, sink.clock
      ensures Valid() && sink.clock.now >= old(sink.clock.now)
      ensures shared.active == old(shared.active) && gain == old(gain)
      ensures ok ==> Landed() && (stream == null <==> old(stream) == null) && sink.samples == old(sink.samples)
      ensures ok ==> stream != null ==> fresh(stream) && fresh(stream.output)
      ensures !ok ==> !intact && stream == null
      ensures ok <==> !decoder.LandingOf(position).Broken?
      ensures ok ==> Starts(position)
    {
      var playing := stream != null;
      stream := null;
      var landed;
      landed, ok := decoder.Seek(position);
      if !ok {
        Spoil();
        return;
      }
      ok := LandAt(DurationToFrames(landed, decoder.rate), playing);
    }

    /** Looks again at what lies ahead of the decoder. */
    ghost method Assess()
      requires Valid()
      modifies this`readable
      ensures Valid() && readable == NoFatal(decoder.events)
    {
      readable := NoFatal(decoder.events);
    }

    /** A seek that failed: nothing is known of what was heard. */
    ghost method Spoil()
      requires decoder.Valid() && decoder.channels == channels && Shaped(null)
      modifies this`intact, this`exact, this`readable, this`most
      ensures DecoderSide() && SpeakerSide(null) && !intact
    {
      intact, exact, readable, most := false, false, NoFatal(decoder.events), |decoded| + decoder.Most();
    }

    /** Starts anew at frame `landed`, with a stream if there was one. */
    method LandAt(landed: nat, playing: bool) returns (ok: bool)
      requires decoder.Valid() && decoder.channels == channels && stream == null
      requires 0 < channels <= DECODE_SAMPLES && 1 <= sink.periodFrames <= sink.queueFrames && shared.Valid()
      requires playing ==> shared.active
      modifies this, shared`position, shared.scope, sink`formats, sink`samples, sink.clock
      ensures Valid() && ok && Landed() && seekBase == landed && (stream != null <==> playing)
      ensures stream != null ==> fresh(stream) && fresh(stream.output)
      ensures sink.samples == old(sink.samples) && sink.clock.now >= old(sink.clock.now) && gain == old(gain)
    {
      Land(landed);
      ok := true;
      if playing {
        ok := OpenStream();
      }
    }

    /** Starts the books anew at frame `landed`. */
    method Land(landed: nat)
      requires decoder.Valid() && decoder.channels == channels && stream == null
      requires 0 < channels <= DECODE_SAMPLES && 1 <= sink.periodFrames <= sink.queueFrames && shared.Valid()
      modifies this, shared`position, shared.scope
      ensures stream == null && Valid() && Landed() && seekBase == landed && tail == 0 && gain == old(gain)
    {
      ghost var rest := decoder.Remaining();
      NothingHeard(sink.samples, rest);
      base, carry, drained := landed, [], false;
      NewBooks(landed, rest, Clean(decoder.events), NoFatal(decoder.events), decoder.Most());
      shared.Restart(base);
      FreshSide();
    }

    ghost method NewBooks(landed: nat, rest: seq<real>, clean: bool, noFatal: bool, most: nat)
      modifies this`seekBase, this`source, this`decoded, this`heardBefore, this`prefix, this`tail
      modifies this`intact, this`exact, this`readable, this`most, this`ahead
      ensures seekBase == landed && source == rest && decoded == [] && heardBefore == [] && prefix == sink.samples
      ensures tail == 0 && intact && exact == clean && readable == noFatal && this.most == most && ahead == 0
    {
      seekBase, source, decoded, heardBefore, prefix, tail := landed, rest, [], [], sink.samples, 0;
      intact, exact, readable, this.most, ahead := true, clean, noFatal, most, 0;
    }

    lemma FreshSide()
      requires 0 < channels <= DECODE_SAMPLES && 1 <= sink.periodFrames <= sink.queueFrames
      requires shared.Valid() && shared.scope.Valid() && shared.scope.all == [] && shared.scope.outstanding == 0
      requires shared.scope.fitted && carry == [] && decoded == [] && heardBefore == [] && tail == 0 && prefix == sink.samples
      requires base == seekBase == shared.position
      ensures SpeakerSide(null)
    {
      NothingDecoded(channels, base);
      NothingHeard(sink.samples, []);
    }

    /** Keeps the books. Afterwards the stream flows and all that was due is counted,
        or the track has ended: all of it heard, and its end announced. */
    method Pump() returns (ok: bool)
      requires Valid()
      modifies this`stream, this`base, this`carry, this`drained, this`decoded, this`heardBefore, this`tail, this`ahead
      modifies decoder, shared`position, shared`active, shared`ends, shared`told, shared.scope
      modifies sink`samples, sink.clock, stream, if stream == null then {} else {stream.output}
      ensures Valid() && Continues() && sink.clock.now >= old(sink.clock.now)
      ensures stream == old(stream) || stream == null
      ensures stream == old(stream) ==> base == old(base)
      ensures stream == old(stream) ==> shared.ends == old(shared.ends) && shared.active == old(shared.active)
      ensures stream != old(stream) ==>
        shared.ends == old(shared.ends) + 1 && !shared.active && AtEnd() && (exact ==> Heard() == Pcm(source))
      ensures stream != null ==> !stream.Ended() && (ok ==> stream.Flowing()) && stream.KeepsUp() && RanAhead(stream)
      ensures readable ==> ok
      ensures Announces()
    {
      if stream == null {
        return true;
      }
      ok := PumpOpen(stream);
    }

    /** Either `s` goes on as before, or the track ended with all of it heard, and the
        end was announced. */
    twostate predicate Pumped(s: Stream, ok: bool)
      reads this, shared, s, s.output
      requires 0 < s.output.sink.periodFrames && old(allocated(s.output.sink.clock))
    {
      var holds :=
      if stream == null then
        shared.ends == old(shared.ends) + 1 && !shared.active && AtEnd() && (exact ==> Heard() == Pcm(source))
      else
        && stream == s
        && base == old(base) && shared.ends == old(shared.ends) && shared.active == old(shared.active)
        && !s.Ended() && (ok ==> s.Flowing()) && s.KeepsUp() && RanAhead(s);
      holds
    }

    method PumpOpen(s: Stream) returns (ok: bool)
      requires Valid() && stream == s
      modifies this`stream, this`base, this`carry, this`drained, this`decoded, this`heardBefore, this`tail, this`ahead
      modifies decoder, shared`position, shared`active, shared`ends, shared`told, shared.scope
      modifies sink`samples, sink.clock, s, s.output
      ensures Valid() && Continues() && sink.clock.now >= old(sink.clock.now) && (readable ==> ok) && Pumped(s, ok)
    {
      ok := PumpStream(s);
    }

    method PumpStream(s: Stream) returns (ok: bool)
      requires Valid() && stream == s
      modifies this`stream, this`base, this`carry, this`drained, this`decoded, this`heardBefore, this`tail, this`ahead
      modifies decoder, shared`position, shared`active, shared`ends, shared`told, shared.scope
      modifies sink`samples, sink.clock, s, s.output
      ensures Valid() && sink.clock.now >= old(sink.clock.now) && (readable ==> ok) && old(ahead) <= ahead
      ensures intact ==> old(Heard()) <= Heard() && old(shared.position) <= shared.position
      ensures Pumped(s, ok)
    {
      ok := Refill(s);
      Settle(s);
    }

    /** Ends the track if its last frame has played. */
    method Settle(s: Stream)
      requires Valid() && stream == s
      modifies this`stream, this`base, this`carry, this`heardBefore, this`tail
      modifies shared`position, shared`active, shared`ends, shared`told
      ensures Valid() && Heard() == old(HeardWith(s)) && (intact ==> shared.position == old(shared.position))
      ensures stream == if s.Ended() then null else s
      ensures !s.Ended() ==> base == old(base)
      ensures !s.Ended() ==> shared.ends == old(shared.ends) && shared.active == old(shared.active)
      ensures s.Ended() ==>
        shared.ends == old(shared.ends) + 1 && !shared.active && AtEnd() && (exact ==> Heard() == Pcm(source))
    {
      if s.end.Some? && s.played >= s.end.value {
        Finish(s);
      }
    }

    /** The track's last frame has played. */
    method Finish(s: Stream)
      requires Valid() && stream == s && s.Ended()
      modifies this`stream, this`base, this`carry, this`heardBefore, this`tail
      modifies shared`position, shared`active, shared`ends, shared`told
      ensures Valid() && AtEnd() && Heard() == old(HeardWith(s))
      ensures exact ==> Heard() == Pcm(source)
      ensures intact ==> shared.position == old(shared.position)
      ensures shared.ends == old(shared.ends) + 1 && !shared.active
    {
      RetireAll(s);
      shared.active := false;
      shared.FireEnd();
    }

    method RetireAll(s: Stream)
      requires Valid() && stream == s && s.Ended()
      modifies this`stream, this`base, this`carry, this`heardBefore, this`tail, shared`position
      ensures Valid() && AtEnd() && Heard() == old(HeardWith(s))
      ensures exact ==> Heard() == Pcm(source)
      ensures intact ==> shared.position == old(shared.position)
    {
      s.NothingUnplayed();
      Retire(s);
      stream := null;
      AllHeard();
    }

    lemma AllHeard()
      requires Valid() && AtEnd()
      ensures exact ==> Heard() == Pcm(source)
    {
      if exact {
        assert Look(Booking, 0);
        AllOfIt(channels, decoded, Heard(), Unheard(), seekBase, shared.position,
                shared.scope.all, shared.scope.outstanding);
        DeliversAll(decoded, decoder.Remaining(), source);
      }
    }

    /** Nothing is left to play, and no stream is open. */
    predicate AtEnd()
      reads this`drained, this`carry, this`stream
    {
      drained && carry == [] && stream == null
    }

    /** Plays, from the start if asked to or at the end. */
    method HandlePlay(restart: bool) returns (ok: bool)
      requires Valid()
      modifies this, decoder, shared, shared.scope, sink, sink.clock
      modifies stream, if stream == null then {} else {stream.output}
      ensures Valid() && sink.clock.now >= old(sink.clock.now) && gain == old(gain)
      ensures !restart && !old(AtEnd()) ==> Continues() && Announces() && Plays(ok)
      ensures (restart || old(AtEnd())) && !decoder.LandingOf(0).Broken? ==> Starts(0) && Plays(ok)
      ensures (restart || old(AtEnd())) && decoder.LandingOf(0).Broken? ==> !ok
      ensures stream != null ==> stream == old(stream) || (fresh(stream) && fresh(stream.output))
    {
      if restart || AtEnd() {
        ok := SeekTo(0);
        if !ok {
          return;
        }
        ok := PlayOn();
      } else {
        TailOnlyAtEnd();
        ok := PlayOn();
      }
    }

    /** A stream is open and flows, on an active channel; or the track has ended, which was
        announced. */
    twostate predicate Plays(ok: bool)
      reads this, decoder, shared, stream, if stream == null then {} else {stream.output}
    {
      var holds :=
      && (readable ==> ok)
      && (stream == null ==>
        AtEnd() && shared.ends == old(shared.ends) + 1 && !shared.active && (exact ==> Heard() == Pcm(source)))
      && (stream != null ==> shared.active)
      && (ok && stream != null ==> stream.Flowing() && !stream.Ended());
      holds
    }

    lemma TailOnlyAtEnd()
      requires Valid() && !AtEnd()
      ensures intact && stream == null ==> tail == 0
    {
      assert Look(Booking, 0);
    }

    /** Plays from where the clock stands. */
    method PlayOn() returns (ok: bool)
      requires Valid() && (intact && stream == null ==> tail == 0)
      modifies this, decoder, shared, shared.scope, sink, sink.clock
      modifies stream, if stream == null then {} else {stream.output}
      ensures Valid() && sink.clock.now >= old(sink.clock.now) && Continues() && gain == old(gain)
      ensures Announces() || old(AtEnd())
      ensures stream != null ==> stream == old(stream) || (fresh(stream) && fresh(stream.output))
      ensures Plays(ok)
    {
      shared.active := true;
      if stream == null {
        ok := PlayAnew();
      } else {
        ok := Pump();
      }
    }

    method PlayAnew() returns (ok: bool)
      requires Valid() && stream == null && (intact ==> tail == 0) && shared.active
      modifies this, decoder, shared, shared.scope, sink, sink.clock
      ensures Valid() && sink.clock.now >= old(sink.clock.now) && Continues() && gain == old(gain)
      ensures Announces() || old(AtEnd())
      ensures stream != null ==> fresh(stream) && fresh(stream.output)
      ensures Plays(ok)
    {
      ok := OpenStream();
      ok := Pump();
    }

    /** Answers one command. A pause, a stop or a change of volume loses
        nothing; a seek that lands starts anew at its target. */
    method Handle(command: Command) returns (ok: bool)
      requires Valid()
      modifies this, decoder, shared, shared.scope, sink, sink.clock
      modifies stream, if stream == null then {} else {stream.output}
      ensures Valid() && sink.clock.now >= old(sink.clock.now)
      ensures gain == if command.Volume? then command.gain else old(gain)
      ensures stream != null ==> stream == old(stream) || (fresh(stream) && fresh(stream.output))
      ensures match command
        case Play(restart) =>
          if restart || old(AtEnd()) then
            if decoder.LandingOf(0).Broken? then !ok else Starts(0) && Plays(ok)
          else Continues() && Announces() && Plays(ok)
        case Pause => ok && stream == null && Rests() && shared.active == old(shared.active)
        case Stop => ok && stream == null && Rests() && !shared.active
        case Seek(position) => (ok <==> !decoder.LandingOf(position).Broken?) && (ok ==> Landed() && Starts(position))
        case Volume(_) => ok && stream == old(stream) && Rests()
    {
      match command
      case Play(restart) =>
        ok := HandlePlay(restart);
      case Pause =>
        CloseStream();
        ok := true;
      case Stop =>
        Halt();
        ok := true;
      case Seek(position) =>
        ok := SeekTo(position);
      case Volume(gain) =>
        SetVolume(gain);
        ok := true;
    }

    method SetVolume(gain: real)
      requires Valid()
      modifies this`gain, sink`samples, sink.clock
      modifies if stream == null then {} else {stream.output}
      ensures Valid() && Rests() && this.gain == gain && sink.clock.now >= old(sink.clock.now)
    {
      this.gain := gain;
      if stream != null {
        VolumeOf(stream, gain);
      }
    }

    method VolumeOf(s: Stream, gain: real)
      requires SpeakerSide(s)
      modifies sink`samples, sink.clock, s.output
      ensures SpeakerSide(s) && s.output.gain == gain && sink.clock.now >= old(sink.clock.now)
    {
      s.SetVolume(gain);
    }

    /** A timer tick: refills, and gives up on an output or decoder error. */
    method Tick()
      requires Valid()
      modifies this, decoder, shared, shared.scope, sink, sink.clock
      modifies stream, if stream == null then {} else {stream.output}
      ensures Valid() && Continues() && Announces() && sink.clock.now >= old(sink.clock.now) && gain == old(gain)
      ensures stream == old(stream) || stream == null
      ensures readable && stream != null ==>
        && shared.ends == old(shared.ends) && !stream.Ended() && stream.Flowing() && base == old(base)
        && stream.KeepsUp() && RanAhead(stream)
      ensures readable && stream != old(stream) ==>
        && shared.ends == old(shared.ends) + 1 && !shared.active && AtEnd()
        && (exact ==> Heard() == Pcm(source))
    {
      ghost var first := Heard();
      var ok := Pump();
      if !ok {
        ghost var second := Heard();
        Halt();
        PrefixTransitive(first, second, Heard());
      }
    }

    method Halt()
      requires Valid()
      modifies this`stream, this`base, this`carry, this`heardBefore, this`tail
      modifies shared`position, shared`active, shared.scope, sink`samples, sink.clock
      modifies stream, if stream == null then {} else {stream.output}
      ensures Valid() && stream == null && Rests() && !shared.active
      ensures sink.clock.now >= old(sink.clock.now)
    {
      CloseStream();
      shared.active := false;
    }
  }

  /** Playing more of a stream keeps the books. Only with nothing left unheard
      do `more` frames count padding. */
  lemma BalancedNote(channels: nat, decoded: seq<real>, heardBefore: seq<int>, heard: seq<int>, unplayed: seq<int>,
                     heard': seq<int>, unplayed': seq<int>, carry: seq<int>,
                     seekBase: nat, base: nat, at: nat, at': nat, more: nat, all: seq<real>, outstanding: nat)
    requires channels > 0 && heard + unplayed == heard' + unplayed' && |heard'| == Span(at', channels)
    requires seekBase <= base && |heardBefore| == Span(base - seekBase, channels)
    requires at <= at' && (at' == at + more || (unplayed' + carry == [] && at' <= at + more))
    requires Balanced(channels, decoded, heardBefore + heard, unplayed + carry, seekBase, base + at, all, outstanding)
    ensures Balanced(channels, decoded, heardBefore + heard', unplayed' + carry, seekBase, base + at', all,
                     Max(outstanding, more) - more)
    ensures heardBefore + heard <= heardBefore + heard'
  {
    SpanSum(base - seekBase, at', channels);
    Regroup(heardBefore, heard, unplayed, carry);
    Regroup(heardBefore, heard', unplayed', carry);
    BalancedPlay(channels, decoded, heardBefore + heard, unplayed + carry, seekBase, base + at, all, outstanding,
                 heardBefore + heard', unplayed' + carry, base + at', more);
  }

  lemma PrefixTransitive<T>(a: seq<T>, b: seq<T>, c: seq<T>)
    ensures a <= b <= c ==> a <= c
  {
  }

  /** What the decoder delivered and what it has left are what it had. */
  ghost predicate Delivers(decoded: seq<real>, rest: seq<real>, source: seq<real>) {
    forall n {:trigger Look(Delivering, n)} :: Look(Delivering, n) ==> decoded + rest == source
  }

  lemma DeliversAll(decoded: seq<real>, rest: seq<real>, source: seq<real>)
    requires Delivers(decoded, rest, source)
    ensures decoded + rest == source && (rest == [] ==> decoded == source)
  {
    assert Look(Delivering, 0);
  }

  lemma DeliversMore(decoded: seq<real>, samples: seq<real>, rest: seq<real>, source: seq<real>)
    ensures Delivers(decoded, samples + rest, source) ==> Delivers(decoded + samples, rest, source)
  {
    assert Look(Delivering, 0);
    Append(decoded, samples, rest);
  }

  /** The recording is what was there, then what was heard, then so much silence. */
  ghost predicate HeardThenSilence(recorded: seq<int>, prefix: seq<int>, heard: seq<int>, silence: nat) {
    forall n {:trigger Look(Recording, n)} :: Look(Recording, n) ==> recorded == prefix + heard + Silence(silence)
  }

  lemma RecordingIs(recorded: seq<int>, prefix: seq<int>, heard: seq<int>, silence: nat)
    requires HeardThenSilence(recorded, prefix, heard, silence)
    ensures recorded == prefix + heard + Silence(silence)
  {
    assert Look(Recording, 0);
  }

  lemma HeardMore(before: seq<int>, recorded: seq<int>, prefix: seq<int>, heard: seq<int>, more: seq<int>, silence: nat)
    requires HeardThenSilence(before, prefix, heard, 0) && recorded == before + more + Silence(silence)
    ensures HeardThenSilence(recorded, prefix, heard + more, silence)
  {
    assert Look(Recording, 0);
    Append(prefix, heard, more);
  }

  lemma NothingUnheard(heard: seq<int>, carry: seq<int>)
    ensures heard + [] == heard && [] + carry == carry
  {
  }

  /** At the start of the books. */
  lemma NothingHeard(prefix: seq<int>, rest: seq<real>)
    ensures HeardThenSilence(prefix, prefix, [], 0) && Delivers([], rest, rest)
  {
  }

  lemma Regroup<T>(before: seq<T>, a: seq<T>, b: seq<T>, carry: seq<T>)
    ensures before + a + (b + carry) == before + (a + b) + carry
  {
  }
}
