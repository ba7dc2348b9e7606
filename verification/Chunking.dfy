/**
 Reading a stream out: when what is read depends on the sizes of the buffers it
 is read with, and that it does not otherwise.
*/
module Chunking {
  import opened Arithmetic
  import opened Interleaved
  import opened Decoder

  /** What is due before the next thing that ends the stream, and the packets from
      that on. */
  datatype Tape = Tape(due: seq<real>, stop: seq<Event>)

  ghost function TapeOf(decoder: Mp3Decoder): Tape
    reads decoder
    requires decoder.Valid()
  {
    Tape(decoder.Remaining(), FromStop(decoder.events))
  }

  /** What is behind the stop. */
  function NextTape(stop: seq<Event>): Tape {
    Tape(Undamaged(Behind(stop)), FromStop(Behind(stop)))
  }

  /** What reads delivered, and how they came to an end; `More` if the buffers ran
      out first. */
  datatype Played = Played(samples: seq<real>, outcome: Outcome)

  /** Reads of these many samples each, until one delivers nothing or fails. A
      read that stops short has consumed what stopped it. */
  function PlayedOut(t: Tape, wants: seq<nat>): Played
    decreases |wants|
  {
    if wants == [] then Played([], More)
    else if wants[0] <= |t.due| then
      var later := PlayedOut(Tape(t.due[wants[0]..], t.stop), wants[1..]);
      Played(t.due[..wants[0]] + later.samples, later.outcome)
    else if Fails(t.stop) then Played([], Failed)
    else if t.due == [] then Played([], End)
    else
      var later := PlayedOut(NextTape(t.stop), wants[1..]);
      Played(t.due + later.samples, later.outcome)
  }

  /** The samples that buffers of these sizes are filled with. */
  ghost function Wants(sizes: seq<nat>, channels: nat): seq<nat>
    requires channels > 0
  {
    if sizes == [] then [] else [Span(Frames(sizes[0], channels), channels)] + Wants(sizes[1..], channels)
  }

  ghost predicate Buffers(wants: seq<nat>, channels: nat)
    requires channels > 0
  {
    forall i :: 0 <= i < |wants| ==> wants[i] > 0 && Whole(wants[i], channels)
  }

  // ---- Reading ----

  /** One read into a fresh buffer of at least a frame. */
  method NextRead(decoder: Mp3Decoder, size: nat) returns (read: seq<real>, ok: bool)
    requires decoder.Valid() && size >= decoder.channels
    modifies decoder
    ensures decoder.Valid() && decoder.Wanted(size) > 0
    ensures var t, wanted := old(TapeOf(decoder)), decoder.Wanted(size);
      if wanted <= |t.due| then
        ok && read == t.due[..wanted] && TapeOf(decoder) == Tape(t.due[wanted..], t.stop)
      else
        && (ok <==> !Fails(t.stop))
        && (ok ==> read == t.due && (read != [] ==> TapeOf(decoder) == NextTape(t.stop)))
  {
    var out := new real[size];
    ghost var due := decoder.Remaining();
    SpanPositive(Frames(size, decoder.channels), decoder.channels);
    var written;
    written, ok := decoder.Read(out);
    read := out[..written];
    assert |due| >= decoder.Wanted(size) && ok ==> |read + decoder.Remaining()| == |due|;
    assert Span(0, decoder.channels) == 0;
  }

  /** Reads until nothing comes, or the buffers run out. */
  method ReadOut(decoder: Mp3Decoder, sizes: seq<nat>) returns (all: seq<real>, outcome: Outcome)
    requires decoder.Valid() && forall i :: 0 <= i < |sizes| ==> sizes[i] >= decoder.channels
    modifies decoder
    ensures Played(all, outcome) == PlayedOut(old(TapeOf(decoder)), Wants(sizes, decoder.channels))
    decreases |sizes|
  {
    if sizes == [] {
      return [], More;
    }
    var head, ok := NextRead(decoder, sizes[0]);
    if !ok {
      return [], Failed;
    }
    if head == [] {
      return [], End;
    }
    var rest;
    rest, outcome := ReadOut(decoder, sizes[1..]);
    all := head + rest;
  }

  // ---- When sizes matter ----

  /** Nothing is due before the stop; or the stop does not fail, and neither samples
      nor a failure come next behind it. */
  predicate EndsAtTheStop(t: Tape) {
    var next := NextTape(t.stop);
    t.due == [] || (!Fails(t.stop) && next.due == [] && !Fails(next.stop))
  }

  function Total(wants: seq<nat>): nat {
    if wants == [] then 0 else wants[0] + Total(wants[1..])
  }

  /** Then whatever the buffers, what is due is delivered in order, as far as it
      fits, and nothing else. */
  lemma {:induction false} DeliversTheDue(t: Tape, wants: seq<nat>)
    requires EndsAtTheStop(t) && forall i :: 0 <= i < |wants| ==> wants[i] > 0
    ensures PlayedOut(t, wants).samples == Take(t.due, Total(wants))
    ensures PlayedOut(t, wants).outcome != More ==>
      PlayedOut(t, wants) == Played(t.due, if Fails(t.stop) then Failed else End)
    decreases |wants|
  {
    if wants == [] {
    } else if wants[0] <= |t.due| {
      var left := t.due[wants[0]..];
      DeliversTheDue(Tape(left, t.stop), wants[1..]);
      assert t.due == t.due[..wants[0]] + left;
    } else if t.due != [] {
      DeliversTheDue(NextTape(t.stop), wants[1..]);
    }
  }

  /** Buffers that end where the due samples do find the stop with nothing read,
      and so the end. */
  lemma SmallBuffers(t: Tape, channels: nat)
    requires channels > 0 && t.due != []
    ensures PlayedOut(t, [|t.due|, channels]) == Played(t.due, if Fails(t.stop) then Failed else End)
  {
    var wants := [|t.due|, channels];
    assert wants[1..] == [channels];
    assert t.due[|t.due|..] == [] && t.due[..|t.due|] == t.due;
    assert PlayedOut(Tape([], t.stop), [channels]) == Played([], if Fails(t.stop) then Failed else End);
  }

  /** Larger ones stop short there, and the reads go on behind it. */
  lemma LargeBuffers(t: Tape, channels: nat)
    requires channels > 0 && t.due != [] && !Fails(t.stop)
    ensures var next := NextTape(t.stop);
      PlayedOut(t, [|t.due| + channels, if next.due == [] then channels else |next.due|, channels])
      == Played(t.due + next.due, if Fails(next.stop) then Failed else End)
  {
    var next := NextTape(t.stop);
    if next.due == [] {
      var wants := [|t.due| + channels, channels, channels];
      assert wants[1..] == [channels, channels];
      assert PlayedOut(next, [channels, channels]) == Played([], if Fails(next.stop) then Failed else End);
      assert t.due + [] == t.due;
    } else {
      var wants := [|t.due| + channels, |next.due|, channels];
      assert wants[1..] == [|next.due|, channels];
      SmallBuffers(next, channels);
    }
  }

  ghost predicate SizesDoNotMatter(t: Tape, channels: nat)
    requires channels > 0
  {
    forall a, b ::
      && Buffers(a, channels) && PlayedOut(t, a).outcome != More
      && Buffers(b, channels) && PlayedOut(t, b).outcome != More
      ==> PlayedOut(t, a) == PlayedOut(t, b)
  }

  ghost predicate WholeTape(t: Tape, channels: nat)
    requires channels > 0
  {
    Whole(|t.due|, channels) && WholeEvents(t.stop, channels)
  }

  /** What is read until the first read that delivers nothing or fails is the same for
      all buffers exactly of such streams. */
  lemma SizesMatterExactly(t: Tape, channels: nat)
    requires channels > 0 && WholeTape(t, channels)
    ensures SizesDoNotMatter(t, channels) <==> EndsAtTheStop(t)
  {
    if EndsAtTheStop(t) {
      forall a | Buffers(a, channels) && PlayedOut(t, a).outcome != More
        ensures PlayedOut(t, a) == Played(t.due, if Fails(t.stop) then Failed else End)
      {
        DeliversTheDue(t, a);
      }
    } else {
      TwoReadings(t, channels);
    }
  }

  lemma TwoReadings(t: Tape, channels: nat)
    requires channels > 0 && WholeTape(t, channels) && !EndsAtTheStop(t)
    ensures exists a, b ::
      && Buffers(a, channels) && PlayedOut(t, a).outcome != More
      && Buffers(b, channels) && PlayedOut(t, b).outcome != More
      && PlayedOut(t, a) != PlayedOut(t, b)
  {
    var a := [|t.due|, channels];
    WholeSum(|t.due|, channels, channels);
    SmallBuffers(t, channels);
    if Fails(t.stop) {
      var b := [|t.due| + channels];
      assert Buffers(a, channels) && Buffers(b, channels) && PlayedOut(t, b) == Played([], Failed);
    } else {
      var next := NextTape(t.stop);
      UndamagedIsWhole(Behind(t.stop), channels);
      LargeBuffers(t, channels);
      var b := [|t.due| + channels, if next.due == [] then channels else |next.due|, channels];
      assert Buffers(a, channels) && Buffers(b, channels);
    }
  }

  lemma {:induction false} UndamagedIsWhole(events: seq<Event>, channels: nat)
    requires channels > 0 && WholeEvents(events, channels)
    ensures Whole(|Undamaged(events)|, channels)
  {
    if events == [] {
    } else {
      assert WholeEvents(events[1..], channels);
      UndamagedIsWhole(events[1..], channels);
      if events[0].Decoded? {
        WholeSum(|events[0].samples|, |Undamaged(events[1..])|, channels);
      }
    }
  }

  lemma {:induction false} FromStopIsWhole(events: seq<Event>, channels: nat)
    requires channels > 0 && WholeEvents(events, channels)
    ensures WholeEvents(FromStop(events), channels)
  {
    if events == [] || events[0].Cut? || events[0].Fatal? {
    } else {
      assert WholeEvents(events[1..], channels);
      FromStopIsWhole(events[1..], channels);
    }
  }

  lemma TapeIsWhole(decoder: Mp3Decoder)
    requires decoder.Valid()
    ensures WholeTape(TapeOf(decoder), decoder.channels)
  {
    var channels, skipped := decoder.channels, Span(decoder.skip, decoder.channels);
    var undamaged := Undamaged(decoder.events);
    UndamagedIsWhole(decoder.events, channels);
    FromStopIsWhole(decoder.events, channels);
    FramesOfSpan(decoder.skip, channels);
    if skipped < |undamaged| {
      WholeSum(skipped, |undamaged| - skipped, channels);
    }
    WholeSum(|decoder.pending| - decoder.pendingAt, |Drop(undamaged, skipped)|, channels);
  }

  /** Of every decoder there can be: `ReadOut` delivers the same for all buffers if
      and only if its stream is one, as is every stream that nothing ends early. */
  lemma DecoderSizesMatterExactly(decoder: Mp3Decoder)
    requires decoder.Valid()
    ensures SizesDoNotMatter(TapeOf(decoder), decoder.channels) <==> EndsAtTheStop(TapeOf(decoder))
    ensures Clean(decoder.events) ==> EndsAtTheStop(TapeOf(decoder))
  {
    TapeIsWhole(decoder);
    SizesMatterExactly(TapeOf(decoder), decoder.channels);
    if Clean(decoder.events) {
      CleanNeverStops(decoder.events);
    }
  }

  lemma {:induction false} CleanNeverStops(events: seq<Event>)
    requires Clean(events)
    ensures FromStop(events) == []
  {
    if events == [] {
    } else {
      assert !events[0].Cut? && !events[0].Fatal?;
      assert Clean(events[1..]);
      CleanNeverStops(events[1..]);
    }
  }
}
