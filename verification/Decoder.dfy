/**
 `Mp3Decoder`: chunked reads, the frames a seek skips and its preroll, over an
 abstract reader. What the reader's packets decode to, and where its seeks
 land, are parameters.
*/
module Decoder {
  import opened Arithmetic
  import opened Interleaved
  import opened FrameTime
  import opened Wrappers

  /** What the next packet turns out to be. `Cut` is a decoder's I/O error,
      `Fatal` any error that is not skipped. */
  datatype Event = Foreign | Decoded(samples: seq<real>) | Damaged | Cut | Fatal

  /** Where the reader's seek landed and what it delivers from there. */
  datatype Landing =
    | Landed(actual: int, events: seq<Event>)
    | PastEnd(events: seq<Event>)
    | Broken(events: seq<Event>)

  datatype Outcome = More | End | Failed

  const PREROLL_FRAMES: nat := 4 * 1152
  const I64_MAX: nat := 0x7FFF_FFFF_FFFF_FFFF

  ghost predicate WholeEvents(events: seq<Event>, channels: nat)
    requires channels > 0
  {
    forall i :: 0 <= i < |events| && events[i].Decoded? ==> Whole(|events[i].samples|, channels)
  }

  /** Nothing ends the stream early. */
  ghost predicate Clean(events: seq<Event>) {
    forall i :: 0 <= i < |events| ==> !events[i].Cut? && !events[i].Fatal?
  }

  ghost predicate NoFatal(events: seq<Event>) {
    forall i :: 0 <= i < |events| ==> !events[i].Fatal?
  }

  /** The samples of the undamaged packets up to whatever ends the stream. */
  function Undamaged(events: seq<Event>): seq<real> {
    if events == [] then []
    else match events[0]
      case Decoded(samples) => samples + Undamaged(events[1..])
      case Foreign => Undamaged(events[1..])
      case Damaged => Undamaged(events[1..])
      case Cut => []
      case Fatal => []
  }

  /** Packets one after the other hold the samples of both, up to what ends the stream; */
  lemma {:induction false} UndamagedConcat(a: seq<Event>, b: seq<Event>)
    ensures Undamaged(a + b) == if Clean(a) then Undamaged(a) + Undamaged(b) else Undamaged(a)
  {
    if a == [] {
      assert a + b == b;
    } else {
      var rest := a[1..];
      assert (a + b)[0] == a[0] && (a + b)[1..] == rest + b;
      assert Clean(a) <==> !a[0].Cut? && !a[0].Fatal? && Clean(rest) by {
        assert a == [a[0]] + rest;
      }
      UndamagedConcat(rest, b);
    }
  }

  /** a damaged packet, or another stream's, costs nothing but itself; an error that is not
      skipped, everything behind it. */
  lemma OnePacket(a: seq<Event>, packet: Event, b: seq<Event>)
    requires Clean(a)
    ensures Undamaged(a + [packet] + b) == Undamaged(a) + match packet
      case Decoded(samples) => samples + Undamaged(b)
      case Foreign => Undamaged(b)
      case Damaged => Undamaged(b)
      case Cut => []
      case Fatal => []
  {
    assert a + [packet] + b == a + ([packet] + b);
    UndamagedConcat(a, [packet] + b);
    assert ([packet] + b)[1..] == b;
  }

  method CopyFromSlice(out: array<real>, at: nat, slice: seq<real>)
    requires at + |slice| <= out.Length
    modifies out
    ensures out[..at + |slice|] == old(out[..at]) + slice
  {
    forall i | 0 <= i < |slice| {
      out[at + i] := slice[i];
    }
  }

  /** The packets from whatever ends the stream on. */
  function FromStop(events: seq<Event>): seq<Event> {
    if events == [] || events[0].Cut? || events[0].Fatal? then events else FromStop(events[1..])
  }

  /** And those behind it. */
  function AfterStop(events: seq<Event>): seq<Event> {
    Behind(FromStop(events))
  }

  function Behind(stop: seq<Event>): seq<Event> {
    if stop == [] then [] else stop[1..]
  }

  /** What ends the stream is an error. */
  predicate Fails(stop: seq<Event>) {
    stop != [] && stop[0].Fatal?
  }

  /** The samples of all packets, whatever is between them. */
  function Yield(events: seq<Event>): nat {
    if events == [] then 0
    else (if events[0].Decoded? then |events[0].samples| else 0) + Yield(events[1..])
  }

  class Mp3Decoder {
    const rate: nat
    const channels: nat
    /** The stream's length, when its header says. */
    const frames: Option<nat>
    const reader: nat -> Landing
    /** The packets ahead of the reader. */
    var events: seq<Event>
    var pending: seq<real>
    var pendingAt: nat
    var skip: nat

    ghost predicate Valid()
      reads this
    {
      && channels > 0 && rate > 0
      && pendingAt <= |pending| && Whole(|pending| - pendingAt, channels)
      && (pendingAt < |pending| ==> skip == 0)
      && WholeEvents(events, channels)
      && (forall ts :: WholeEvents(reader(ts).events, channels))
    }

    /** The samples still to come. */
    ghost function Remaining(): seq<real>
      reads this
      requires Valid()
    {
      pending[pendingAt..] + Drop(Undamaged(events), Span(skip, channels))
    }

    /** No more than this can still come. */
    ghost function Most(): nat
      reads this
      requires Valid()
    {
      |pending| - pendingAt + Yield(events)
    }

    constructor (rate: nat, channels: nat, frames: Option<nat>, reader: nat -> Landing, events: seq<Event>)
      requires rate > 0 && channels > 0
      requires WholeEvents(events, channels)
      requires forall ts :: WholeEvents(reader(ts).events, channels)
      ensures Valid() && Remaining() == Undamaged(events)
      ensures this.rate == rate && this.channels == channels && this.frames == frames && this.reader == reader
      ensures this.events == events && pendingAt == |pending| && skip == 0
    {
      this.rate, this.channels, this.frames, this.reader := rate, channels, frames, reader;
      this.events, pending, pendingAt, skip := events, [], 0, 0;
    }

    /** Afterwards `pending` starts where the skipping stops, or is used up and the
        rest of `skip` is owed by the packets to come. */
    method DropSkipped()
      requires channels > 0 && Whole(|pending|, channels)
      modifies this`skip, this`pendingAt
      ensures skip <= old(skip)
      ensures pendingAt <= |pending| && Whole(|pending| - pendingAt, channels)
      ensures pendingAt < |pending| ==> skip == 0
      ensures pending[pendingAt..] == Drop(pending, Span(old(skip), channels))
      ensures Span(skip, channels) == Max(Span(old(skip), channels), |pending|) - |pending|
    {
      var inPending := FrameCount(|pending|, channels);
      var dropped := Min(skip, inPending);
      DropArithmetic(skip, |pending|, dropped, channels);
      skip := skip - dropped;
      pendingAt := SampleCount(dropped, channels);
    }

    /** Makes `samples` pending, less what is still to skip; `later` is what
        the packets behind it hold. */
    method TakePacket(samples: seq<real>, ghost later: seq<real>)
      requires channels > 0 && Whole(|samples|, channels)
      modifies this`pending, this`skip, this`pendingAt
      ensures skip <= old(skip)
      ensures pendingAt <= |pending| == |samples| && Whole(|pending| - pendingAt, channels)
      ensures pendingAt < |pending| ==> skip == 0
      ensures pending[pendingAt..] + Drop(later, Span(skip, channels))
           == Drop(samples + later, Span(old(skip), channels))
    {
      DropConcat(samples, later, Span(skip, channels));
      pending := samples;
      DropSkipped();
    }

    /** Decodes packets until one yields samples to hand out. */
    method DecodeNext() returns (outcome: Outcome)
      requires Valid() && pendingAt == |pending|
      modifies this`events, this`pending, this`pendingAt, this`skip
      ensures Valid()
      ensures outcome == More ==> pendingAt < |pending| && Remaining() == old(Remaining())
      ensures outcome != More ==> pendingAt == |pending| && old(Remaining()) == [] && events == AfterStop(old(events))
      ensures outcome == More ==> FromStop(events) == FromStop(old(events))
      ensures outcome != More ==> (outcome == Failed <==> Fails(FromStop(old(events))))
      ensures Most() <= old(Most())
      ensures skip <= old(skip)
      ensures old(NoFatal(events)) ==> outcome != Failed && NoFatal(events)
      ensures |events| <= old(|events|) && (outcome == More ==> |events| < old(|events|))
      ensures old(Clean(events)) ==>
        outcome != Failed && Clean(events) && (outcome == End ==> events == [] && Remaining() == [])
    {
      ghost var due := Drop(Undamaged(events), Span(skip, channels));
      while true
        invariant Valid() && pendingAt == |pending|
        invariant Drop(Undamaged(events), Span(skip, channels)) == due && skip <= old(skip)
        invariant FromStop(events) == FromStop(old(events)) && Most() <= old(Most())
        invariant old(NoFatal(events)) ==> NoFatal(events)
        invariant old(Clean(events)) ==> Clean(events)
        decreases |events|
      {
        if events == [] {
          return End;
        }
        var packet := events[0];
        events := events[1..];
        match packet
        case Foreign =>
        case Decoded(samples) =>
          TakePacket(samples, Undamaged(events));
          if pendingAt < |pending| {
            return More;
          }
        case Damaged =>
        case Cut =>
          return End;
        case Fatal =>
          return Failed;
      }
    }

    /** The whole frames of a buffer of `length` samples. */
    ghost function Wanted(length: nat): nat
      requires channels > 0
    {
      Span(Frames(length, channels), channels)
    }

    /** Fills `out` with whole frames; nothing at the end of the stream. */
    method Read(out: array<real>) returns (written: nat, ok: bool)
      requires Valid()
      modifies this`events, this`pending, this`pendingAt, this`skip, out
      ensures Valid() && written <= Wanted(out.Length) <= out.Length && Whole(written, channels)
      ensures ok && written == Wanted(out.Length) ==>
        out[..written] + Remaining() == old(Remaining())
      ensures ok && written < Wanted(out.Length) ==>
        out[..written] == old(Remaining()) && pendingAt == |pending| && events == AfterStop(old(events))
      ensures ok && written == Wanted(out.Length) ==> FromStop(events) == FromStop(old(events))
      ensures ok <==> Wanted(out.Length) <= old(|Remaining()|) || !Fails(FromStop(old(events)))
      ensures written + Most() <= old(Most())
      ensures skip <= old(skip) && (written > 0 ==> skip == 0)
      ensures old(NoFatal(events)) ==> ok && NoFatal(events)
      ensures |events| <= old(|events|)
      ensures written > 0 && |events| == old(|events|) ==> |pending| - pendingAt < old(|pending| - pendingAt)
      ensures old(Clean(events)) ==> ok && Clean(events) && out[..written] + Remaining() == old(Remaining())
    {
      var room := FrameCount(out.Length, channels);
      var wanted := SampleCount(room, channels);
      SpanOfFrames(out.Length, channels);
      FramesOfSpan(room, channels);
      written := 0;
      ok := true;
      ghost var all := Remaining();
      while written < wanted
        invariant Valid() && written <= wanted <= out.Length && Whole(written, channels)
        invariant out[..written] + Remaining() == all && skip <= old(skip) && (written > 0 ==> skip == 0)
        invariant FromStop(events) == FromStop(old(events)) && written + Most() <= old(Most())
        invariant old(NoFatal(events)) ==> NoFatal(events)
        invariant old(Clean(events)) ==> Clean(events)
        invariant |events| <= old(|events|)
        invariant written > 0 && |events| == old(|events|) ==> |pending| - pendingAt < old(|pending| - pendingAt)
        invariant written == 0 && |events| == old(|events|) ==> |pending| - pendingAt == old(|pending| - pendingAt)
        decreases wanted - written
      {
        if pendingAt == |pending| {
          var outcome := DecodeNext();
          if outcome != More {
            ok := outcome == End;
            return;
          }
        }
        written := CopyPending(out, written, wanted);
      }
    }

    /** Hands out what fits of `pending`. */
    method CopyPending(out: array<real>, at: nat, wanted: nat) returns (written: nat)
      requires Valid() && pendingAt < |pending|
      requires at < wanted <= out.Length && Whole(at, channels) && Whole(wanted, channels)
      modifies this`pendingAt, out
      ensures Valid() && at < written <= wanted && Whole(written, channels) && pendingAt > old(pendingAt)
      ensures skip == 0 && written + Most() == at + old(Most())
      ensures out[..written] + Remaining() == old(out[..at] + Remaining())
    {
      ghost var all, later := Remaining(), Drop(Undamaged(events), Span(skip, channels));
      var count := Min(|pending| - pendingAt, wanted - at);
      ChunkArithmetic(at, wanted, |pending| - pendingAt, count, channels);
      MoveOver(out[..at], pending, pendingAt, count, later);
      CopyFromSlice(out, at, pending[pendingAt..pendingAt + count]);
      pendingAt := pendingAt + count;
      written := at + count;
      assert Remaining() == pending[pendingAt..] + later;
    }

    /** The frame a seek to `position` aims at. */
    function Target(position: nat): nat {
      var target := DurationToFrames(position, rate);
      if frames.Some? then Min(target, frames.value) else target
    }

    /** Where the reader starts: a little early, so that the frames before the
        target prime the decoder. */
    function Start(target: nat): nat {
      Min(if target >= PREROLL_FRAMES then target - PREROLL_FRAMES else 0, I64_MAX)
    }

    /** The frame that the duration a seek returns stands for. */
    function LandsAt(position: nat): nat {
      DurationToFrames(FramesToDuration(Target(position), rate), rate)
    }

    /** What the reader answers to a seek to `position`. */
    function LandingOf(position: nat): Landing {
      reader(Start(Target(position)))
    }

    /** What a seek to `position` leaves to read. */
    ghost function After(position: nat): seq<real> {
      match LandingOf(position)
      case Landed(actual, events) => Drop(Undamaged(events), Span(Ahead(Target(position), actual), channels))
      case PastEnd(events) => Drop(Undamaged(events), Span(U64_MAX, channels))
      case Broken(_) => []
    }

    /** Moves to `position`; returns where it landed. */
    method Seek(position: nat) returns (landed: nat, ok: bool)
      requires Valid()
      modifies this`events, this`pending, this`pendingAt, this`skip
      ensures Valid() && events == LandingOf(position).events
      ensures ok <==> !LandingOf(position).Broken?
      ensures ok ==> Remaining() == After(position)
      ensures landed == match LandingOf(position)
        case Landed(_, _) => FramesToDuration(Target(position), rate)
        case PastEnd(_) => position
        case Broken(_) => 0
    {
      var target := Target(position);
      var seeked := reader(Start(target));
      pending := [];
      pendingAt := 0;
      events := seeked.events;
      match seeked
      case Landed(actual, _) =>
        var from: nat := if actual < 0 then 0 else actual;
        skip := if target > from then target - from else 0;
        return FramesToDuration(target, rate), true;
      case PastEnd(_) =>
        skip := U64_MAX;
        return position, true;
      case Broken(_) =>
        return 0, false;
    }
  }

  /** Dropping at most `skip` frames of `n` samples leaves whole frames. */
  lemma DropArithmetic(skip: nat, n: nat, dropped: nat, channels: nat)
    requires channels > 0 && Whole(n, channels)
    requires dropped == Min(skip, Frames(n, channels))
    ensures Span(dropped, channels) == Min(Span(skip, channels), n)
    ensures Span(skip - dropped, channels) == Max(Span(skip, channels), n) - n
    ensures Whole(n - Span(dropped, channels), channels)
    ensures Span(dropped, channels) < n ==> dropped == skip
  {
    SpanOfFrames(n, channels);
    SpanMonotone(dropped, skip, channels);
    SpanMonotone(dropped, Frames(n, channels), channels);
    FramesOfSpan(dropped, channels);
    WholeSum(Span(dropped, channels), n - Span(dropped, channels), channels);
  }

  /** Frames between where a seek landed and its target. */
  function Ahead(target: nat, actual: int): nat {
    if actual <= 0 then target else if actual >= target then 0 else target - actual
  }

  lemma ChunkArithmetic(at: nat, wanted: nat, available: nat, count: nat, channels: nat)
    requires channels > 0 && at < wanted && available > 0 && count == Min(available, wanted - at)
    requires Whole(at, channels) && Whole(wanted, channels) && Whole(available, channels)
    ensures count > 0 && Whole(at + count, channels) && Whole(available - count, channels)
  {
    WholeSum(at, wanted - at, channels);
    WholeSum(count, available - count, channels);
    WholeSum(at, count, channels);
  }

  lemma MoveOver<T>(out: seq<T>, pending: seq<T>, at: nat, count: nat, later: seq<T>)
    requires at + count <= |pending|
    ensures out + (pending[at..] + later) == (out + pending[at..at + count]) + (pending[at + count..] + later)
  {
  }

  lemma DropConcat<T>(a: seq<T>, b: seq<T>, n: nat)
    ensures Drop(a + b, n) == Drop(a, n) + Drop(b, Max(n, |a|) - |a|)
  {
  }

  // ---- Where a seek lands ----

  /** It is the target, or the frame before it when the duration was rounded. */
  lemma LandingFrame(decoder: Mp3Decoder, position: nat)
    requires 0 < decoder.rate <= NANOS
    ensures var target := decoder.Target(position);
      decoder.LandsAt(position) == if target * NANOS % decoder.rate == 0 then target else target - 1
  {
    RoundTripLosesAtMostOneFrame(decoder.Target(position), decoder.rate);
  }

  /** The frame a landing counts as: before the beginning is the beginning. */
  function Clamped(actual: int): nat {
    if actual < 0 then 0 else actual
  }

  /** The reader delivers `content` from wherever a seek to `position` lands. */
  ghost predicate ReadsTrack(decoder: Mp3Decoder, position: nat, content: seq<real>) {
    match decoder.LandingOf(position)
    case Landed(actual, events) =>
      && Span(Clamped(actual), decoder.channels) <= |content|
      && Undamaged(events) == Drop(content, Span(Clamped(actual), decoder.channels))
    case PastEnd(events) => |Undamaged(events)| <= U64_MAX
    case Broken(_) => true
  }

  /** Then what a seek leaves to read is the track from the target frame on, exactly
      when it landed at or before the target; past the end, nothing. */
  lemma LeavesTrack(decoder: Mp3Decoder, position: nat, content: seq<real>)
    requires decoder.channels > 0 && ReadsTrack(decoder, position, content)
    ensures var target := decoder.Target(position);
      match decoder.LandingOf(position)
      case Landed(actual, _) =>
        decoder.After(position) == Drop(content, Span(target, decoder.channels)) <==> actual <= target
      case PastEnd(_) => decoder.After(position) == []
      case Broken(_) => true
  {
    match decoder.LandingOf(position) {
      case Landed(actual, _) =>
        SeekStartsAtTarget(content, decoder.Target(position), Clamped(actual), decoder.channels);
      case PastEnd(events) => NothingPastTheEnd(Undamaged(events), decoder.channels);
      case Broken(_) =>
    }
  }

  /** Seeks in a track. */
  method SeekInTrack(decoder: Mp3Decoder, position: nat, content: seq<real>) returns (ok: bool)
    requires decoder.Valid() && ReadsTrack(decoder, position, content)
    modifies decoder
    ensures decoder.Valid() && AimsAt(decoder, position, decoder.Target(position))
    ensures var target := decoder.Target(position);
      match decoder.LandingOf(position)
      case Landed(actual, _) =>
        ok && (decoder.Remaining() == Drop(content, Span(target, decoder.channels)) <==> actual <= target)
      case PastEnd(_) => ok && decoder.Remaining() == []
      case Broken(_) => !ok
  {
    var landed;
    landed, ok := decoder.Seek(position);
    LeavesTrack(decoder, position, content);
    TargetIsAimedAt(decoder, position);
  }

  // ---- Which frame that is ----

  /** A reader that lands at or before what it is asked for, and delivers `content` from
      there; or says that it is past the end, which no packets outlast, or fails. */
  ghost predicate Follows(reader: nat -> Landing, content: seq<real>, channels: nat) {
    forall ts :: FollowsAt(reader(ts), ts, content, channels)
  }

  ghost predicate FollowsAt(landing: Landing, ts: nat, content: seq<real>, channels: nat) {
    match landing
    case Landed(actual, events) =>
      && actual <= ts && Span(Clamped(actual), channels) <= |content|
      && Undamaged(events) == Drop(content, Span(Clamped(actual), channels))
    case PastEnd(events) => |Undamaged(events)| <= U64_MAX
    case Broken(_) => true
  }

  /** The frame that the duration of frame `f` is taken for: it, unless that duration
      was rounded down. */
  function TakenFor(f: nat, rate: nat): (g: nat)
    requires rate > 0
  {
    if f * NANOS % rate == 0 || f == 0 then f else f - 1
  }

  /** Frame `g` is the last that begins by `position`; or the end, where that is known and
      earlier; or the last that can be counted. */
  predicate AimsAt(decoder: Mp3Decoder, position: nat, g: nat) {
    && g * NANOS <= position * decoder.rate
    && (position * decoder.rate < (g + 1) * NANOS || decoder.frames == Some(g) || g == U64_MAX)
    && (decoder.frames.Some? ==> g <= decoder.frames.value)
  }

  /** A seek lands `position * rate / NANOS` frames into the track, or at its known end when
      that comes first: what it leaves is the track from there, and from nowhere before. */
  lemma SeekGoesTo(decoder: Mp3Decoder, position: nat, content: seq<real>) returns (g: nat)
    requires decoder.channels > 0 && Follows(decoder.reader, content, decoder.channels)
    ensures AimsAt(decoder, position, g)
    ensures match decoder.LandingOf(position)
      case Landed(_, _) => decoder.After(position) == Drop(content, Span(g, decoder.channels))
      case PastEnd(_) => decoder.After(position) == []
      case Broken(_) => true
  {
    g := decoder.Target(position);
    TargetIsAimedAt(decoder, position);
    FollowedTrack(decoder, position, content);
  }

  lemma TargetIsAimedAt(decoder: Mp3Decoder, position: nat)
    ensures AimsAt(decoder, position, decoder.Target(position))
  {
    WholeFramesIn(position * decoder.rate, decoder.Target(position));
  }

  lemma WholeFramesIn(x: nat, g: nat)
    ensures g <= x / NANOS ==> g * NANOS <= x
    ensures g == x / NANOS ==> x < (g + 1) * NANOS
  {
  }

  /** Past a known end nothing is left. */
  lemma NothingPastKnownEnd(decoder: Mp3Decoder, position: nat, content: seq<real>)
    requires decoder.channels > 0 && Follows(decoder.reader, content, decoder.channels)
    requires decoder.frames.Some? && decoder.frames.value * NANOS <= position * decoder.rate
    requires decoder.frames.value <= U64_MAX && |content| == Span(decoder.frames.value, decoder.channels)
    ensures decoder.After(position) == []
  {
    var g := SeekGoesTo(decoder, position, content);
    NotBefore(g, decoder.frames.value, position * decoder.rate);
  }

  lemma NotBefore(g: nat, end: nat, x: nat)
    requires end * NANOS <= x
    ensures x < (g + 1) * NANOS ==> end <= g
  {
  }

  /** The reader is asked for the target less the preroll, or for the beginning. */
  lemma StartsEarly(decoder: Mp3Decoder, target: nat)
    ensures decoder.Start(target) <= target
    ensures 0 < decoder.Start(target) < I64_MAX ==> decoder.Start(target) + PREROLL_FRAMES == target
    ensures decoder.Start(target) == 0 <==> target <= PREROLL_FRAMES
  {
  }

  /** Seeking to the time of frame `f` leaves the track from `f` on, or from the frame
      before it exactly when that time had to be rounded. */
  method SeekToFrame(decoder: Mp3Decoder, f: nat, content: seq<real>) returns (ok: bool)
    requires decoder.Valid() && decoder.rate <= NANOS && Follows(decoder.reader, content, decoder.channels)
    requires f <= U64_MAX && (decoder.frames.Some? ==> f <= decoder.frames.value)
    modifies decoder
    ensures decoder.Valid()
    ensures match decoder.LandingOf(FramesToDuration(f, decoder.rate))
      case Landed(_, _) =>
        ok && decoder.Remaining() == Drop(content, Span(TakenFor(f, decoder.rate), decoder.channels))
      case PastEnd(_) => ok && decoder.Remaining() == []
      case Broken(_) => !ok
  {
    AimsAtFrame(decoder, f);
    var landed;
    landed, ok := decoder.Seek(FramesToDuration(f, decoder.rate));
    FollowedTrack(decoder, FramesToDuration(f, decoder.rate), content);
  }

  lemma AimsAtFrame(decoder: Mp3Decoder, f: nat)
    requires 0 < decoder.rate <= NANOS && f <= U64_MAX && (decoder.frames.Some? ==> f <= decoder.frames.value)
    ensures decoder.Target(FramesToDuration(f, decoder.rate)) == TakenFor(f, decoder.rate)
  {
    RoundTripLosesAtMostOneFrame(f, decoder.rate);
  }

  lemma FollowedTrack(decoder: Mp3Decoder, position: nat, content: seq<real>)
    requires decoder.channels > 0 && Follows(decoder.reader, content, decoder.channels)
    ensures ReadsTrack(decoder, position, content)
    ensures match decoder.LandingOf(position)
      case Landed(actual, _) => decoder.After(position) == Drop(content, Span(decoder.Target(position), decoder.channels))
      case PastEnd(_) => decoder.After(position) == []
      case Broken(_) => true
  {
    assert FollowsAt(decoder.LandingOf(position), decoder.Start(decoder.Target(position)), content, decoder.channels);
    LeavesTrack(decoder, position, content);
  }

  /** Of a reader that delivers the track from wherever it lands, what follows
      a seek starts at the target frame exactly when it landed at or before it. */
  lemma SeekStartsAtTarget(content: seq<real>, target: nat, actual: nat, channels: nat)
    requires channels > 0 && Span(actual, channels) <= |content|
    ensures var after := Drop(Drop(content, Span(actual, channels)), Span(Ahead(target, actual), channels));
      after == Drop(content, Span(target, channels)) <==> actual <= target
  {
    if actual <= target {
      SpanMonotone(actual, target, channels);
    } else {
      SpanMonotone(target, actual, channels);
      SpanPositive(actual - target, channels);
    }
  }

  /** No stream is long enough to outlast the largest count of frames to skip. */
  lemma NothingPastTheEnd(later: seq<real>, channels: nat)
    requires channels > 0 && |later| <= U64_MAX
    ensures Drop(later, Span(U64_MAX, channels)) == []
  {
    SpanPositive(U64_MAX, channels);
  }
}
