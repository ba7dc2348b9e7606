/**
 The books the worker keeps: every sample decoded since a seek has been heard
 or is still to be heard, in order, and the clock and the visualizer count the
 same frames.
*/
module Ledger {
  import opened Arithmetic
  import opened Interleaved
  import opened Seals
  import Scope

  /** `sample` as signed 16-bit, clipped; the conversion truncates. */
  function ToI16(sample: real): int {
    var clipped := if sample < -1.0 then -1.0 else if sample > 1.0 then 1.0 else sample;
    var scaled := clipped * 32767.0;
    if scaled >= 0.0 then scaled.Floor else -((-scaled).Floor)
  }

  /** The whole steps of 1/32767, towards zero, for samples from -1 to 1; the ends of the
      scale beyond. */
  lemma SampleIsScaled(sample: real)
    ensures -32767 <= ToI16(sample) <= 32767
    ensures 0.0 <= sample <= 1.0 ==> ToI16(sample) as real <= sample * 32767.0 < ToI16(sample) as real + 1.0
    ensures -1.0 <= sample <= 0.0 ==> ToI16(sample) as real - 1.0 < sample * 32767.0 <= ToI16(sample) as real
    ensures sample >= 1.0 ==> ToI16(sample) == 32767
    ensures sample <= -1.0 ==> ToI16(sample) == -32767
    ensures ToI16(-sample) == -ToI16(sample)
  {
  }

  lemma LouderIsLouder(a: real, b: real)
    requires a <= b
    ensures ToI16(a) <= ToI16(b)
  {
  }

  function Pcm(samples: seq<real>): (pcm: seq<int>)
    ensures |pcm| == |samples|
  {
    seq(|samples|, i requires 0 <= i < |samples| => ToI16(samples[i]))
  }

  lemma PcmConcat(a: seq<real>, b: seq<real>)
    ensures Pcm(a + b) == Pcm(a) + Pcm(b)
  {
  }

  /** What was decoded is what was heard, then what was not, in order; the
      clock stands where the heard frames put it; the visualizer knows every
      frame and how many are still to be heard. */
  ghost predicate Balanced(channels: nat, decoded: seq<real>, heard: seq<int>, unheard: seq<int>,
                           seekBase: nat, position: nat, all: seq<real>, outstanding: nat)
    requires channels > 0
  {
    forall n {:trigger Look(Balancing, n)} :: Look(Balancing, n) ==>
      && Pcm(decoded) == heard + unheard
      && seekBase <= position && |heard| == Span(position - seekBase, channels)
      && all == Scope.Mono(decoded, channels)
      && |unheard| == Span(outstanding, channels)
  }

  lemma NothingDecoded(channels: nat, seekBase: nat)
    requires channels > 0
    ensures Balanced(channels, [], [], [], seekBase, seekBase, [], 0)
  {
  }

  /** With nothing left to hear, all that was decoded was heard. */
  lemma AllOfIt(channels: nat, decoded: seq<real>, heard: seq<int>, unheard: seq<int>,
                seekBase: nat, position: nat, all: seq<real>, outstanding: nat)
    requires channels > 0 && Balanced(channels, decoded, heard, unheard, seekBase, position, all, outstanding)
    ensures Pcm(decoded) == heard + unheard && (unheard == [] ==> heard == Pcm(decoded))
    ensures seekBase <= position && |heard| == Span(position - seekBase, channels)
    ensures position - seekBase <= |heard|
  {
    assert Look(Balancing, 0);
    SpanPositive(position - seekBase, channels);
  }

  /** The frames not heard are as many as their samples make. */
  lemma FramesUnheard(channels: nat, decoded: seq<real>, heard: seq<int>, unheard: seq<int>,
                      seekBase: nat, position: nat, all: seq<real>, outstanding: nat, frames: nat)
    requires channels > 0 && Balanced(channels, decoded, heard, unheard, seekBase, position, all, outstanding)
    requires |unheard| == Span(frames, channels)
    ensures outstanding == frames
  {
    assert Look(Balancing, 0);
    FramesOfSpan(frames, channels);
    FramesOfSpan(outstanding, channels);
  }

  /** Decoding a block: the books balance with the block unheard. */
  lemma {:induction false} BalancedDecode(channels: nat, decoded: seq<real>, heard: seq<int>, unheard: seq<int>,
                       seekBase: nat, position: nat, all: seq<real>, outstanding: nat, block: seq<real>,
                       decoded': seq<real>, unheard': seq<int>, all': seq<real>, outstanding': nat)
    requires channels > 0 && Whole(|block|, channels) && Whole(|decoded|, channels)
    requires Balanced(channels, decoded, heard, unheard, seekBase, position, all, outstanding)
    requires decoded' == decoded + block && unheard' == unheard + Pcm(block)
    requires all' == all + Scope.Mono(block, channels) && outstanding' == outstanding + Frames(|block|, channels)
    ensures Balanced(channels, decoded', heard, unheard', seekBase, position, all', outstanding')
  {
    BalanceOpened(channels, decoded, heard, unheard, seekBase, position, all, outstanding);
    HeardOfMore(decoded, block, heard, unheard, decoded', unheard');
    MonoOfMore(channels, decoded, block, all, decoded', all');
    UnheardOfMore(outstanding, |unheard|, |block|, channels, outstanding', |unheard'|);
    BalanceClosed(channels, decoded', heard, unheard', seekBase, position, all', outstanding');
  }

  lemma BalanceOpened(channels: nat, decoded: seq<real>, heard: seq<int>, unheard: seq<int>,
                      seekBase: nat, position: nat, all: seq<real>, outstanding: nat)
    requires channels > 0 && Balanced(channels, decoded, heard, unheard, seekBase, position, all, outstanding)
    ensures Pcm(decoded) == heard + unheard
    ensures seekBase <= position && |heard| == Span(position - seekBase, channels)
    ensures all == Scope.Mono(decoded, channels) && |unheard| == Span(outstanding, channels)
  {
    assert Look(Balancing, 0);
  }

  lemma BalanceClosed(channels: nat, decoded: seq<real>, heard: seq<int>, unheard: seq<int>,
                      seekBase: nat, position: nat, all: seq<real>, outstanding: nat)
    requires channels > 0 && Pcm(decoded) == heard + unheard
    requires seekBase <= position && |heard| == Span(position - seekBase, channels)
    requires all == Scope.Mono(decoded, channels) && |unheard| == Span(outstanding, channels)
    ensures Balanced(channels, decoded, heard, unheard, seekBase, position, all, outstanding)
  {
  }

  lemma HeardOfMore(decoded: seq<real>, block: seq<real>, heard: seq<int>, unheard: seq<int>,
                    decoded': seq<real>, unheard': seq<int>)
    requires Pcm(decoded) == heard + unheard && decoded' == decoded + block && unheard' == unheard + Pcm(block)
    ensures Pcm(decoded') == heard + unheard' && |unheard'| == |unheard| + |block|
  {
    PcmConcat(decoded, block);
    Append(heard, unheard, Pcm(block));
  }

  lemma {:induction false} MonoOfMore(channels: nat, decoded: seq<real>, block: seq<real>, all: seq<real>,
                   decoded': seq<real>, all': seq<real>)
    requires channels > 0 && Whole(|decoded|, channels) && all == Scope.Mono(decoded, channels)
    requires decoded' == decoded + block && all' == all + Scope.Mono(block, channels)
    ensures all' == Scope.Mono(decoded', channels)
  {
    Scope.MonoConcat(decoded, block, channels);
  }

  lemma UnheardOfMore(outstanding: nat, unheard: nat, block: nat, channels: nat, outstanding': nat, unheard': nat)
    requires channels > 0 && Whole(block, channels) && unheard == Span(outstanding, channels)
    requires outstanding' == outstanding + Frames(block, channels) && unheard' == unheard + block
    ensures unheard' == Span(outstanding', channels)
  {
    SpanSum(outstanding, Frames(block, channels), channels);
    SpanOfFrames(block, channels);
  }

  lemma Append<T>(a: seq<T>, b: seq<T>, c: seq<T>)
    ensures a + b + c == a + (b + c)
  {
  }

  /** Playing moves frames from unheard to heard. `more` may count padding
      behind the last frame. */
  lemma BalancedPlay(channels: nat, decoded: seq<real>, heard: seq<int>, unheard: seq<int>, seekBase: nat,
                     position: nat, all: seq<real>, outstanding: nat,
                     heard': seq<int>, unheard': seq<int>, position': nat, more: nat)
    requires channels > 0
    requires Balanced(channels, decoded, heard, unheard, seekBase, position, all, outstanding)
    requires heard' + unheard' == heard + unheard
    requires seekBase <= position <= position' && |heard'| == Span(position' - seekBase, channels)
    requires position' == position + more || (unheard' == [] && position' <= position + more)
    ensures Balanced(channels, decoded, heard', unheard', seekBase, position', all, Max(outstanding, more) - more)
    ensures heard <= heard'
  {
    assert Look(Balancing, 0);
    SpanMonotone(position - seekBase, position' - seekBase, channels);
    PrefixOfSame(heard, unheard, heard', unheard');
    PlayedFrames(channels, outstanding, |unheard'|, position' - position);
  }

  lemma PrefixOfSame<T>(a: seq<T>, b: seq<T>, a': seq<T>, b': seq<T>)
    requires a + b == a' + b' && |a| <= |a'|
    ensures a <= a'
  {
    assert (a + b)[..|a|] == a && (a' + b')[..|a|] == a'[..|a|];
  }

  lemma PlayedFrames(channels: nat, outstanding: nat, left: nat, played: nat)
    requires channels > 0 && Span(outstanding, channels) == left + Span(played, channels)
    ensures played <= outstanding && left == Span(outstanding - played, channels)
    ensures left == 0 ==> played == outstanding
  {
    if played < outstanding {
      SpanMonotone(played, outstanding, channels);
      SpanPositive(outstanding - played, channels);
    } else {
      SpanMonotone(outstanding, played, channels);
      SpanPositive(played - outstanding, channels);
    }
  }
}
