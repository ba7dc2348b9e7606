/**
 `Scope`: the last frames that played, downmixed to mono, as a suffix of what
 was decoded and a count of how much of it has not played yet.
*/
module Scope {
  import opened Arithmetic
  import opened Interleaved
  import opened Wrappers
  import opened Seals

  const WINDOW: nat := 1024
  const KEEP: nat := 0x1_0000

  function Total(samples: seq<real>): real {
    if samples == [] then 0.0 else Total(samples[..|samples| - 1]) + samples[|samples| - 1]
  }

  /** Each frame's mean. */
  function Mono(samples: seq<real>, channels: nat): (mono: seq<real>)
    requires channels > 0
  {
    if |samples| < channels then []
    else [Total(samples[..channels]) / channels as real] + Mono(samples[channels..], channels)
  }

  lemma {:induction false} MonoLength(samples: seq<real>, channels: nat)
    requires channels > 0
    ensures |Mono(samples, channels)| == Frames(|samples|, channels)
    decreases |samples|
  {
    if |samples| >= channels {
      MonoLength(samples[channels..], channels);
    }
  }

  lemma {:induction false} MonoConcat(a: seq<real>, b: seq<real>, channels: nat)
    requires channels > 0 && Whole(|a|, channels)
    ensures Mono(a + b, channels) == Mono(a, channels) + Mono(b, channels)
    decreases |a|
  {
    if a == [] {
      assert a + b == b;
    } else {
      assert (a + b)[..channels] == a[..channels] && (a + b)[channels..] == a[channels..] + b;
      MonoConcat(a[channels..], b, channels);
    }
  }

  // ---- What the mix is: these three laws leave nothing but the mean ----

  function Added(a: seq<real>, b: seq<real>): (sum: seq<real>)
    requires |a| == |b|
    ensures |sum| == |a|
  {
    seq(|a|, i requires 0 <= i < |a| => a[i] + b[i])
  }

  /** The mix of two recordings together is the two mixes together. */
  lemma {:induction false} MonoAdds(a: seq<real>, b: seq<real>, channels: nat)
    requires channels > 0 && |a| == |b|
    ensures |Mono(a, channels)| == |Mono(b, channels)|
    ensures Mono(Added(a, b), channels) == Added(Mono(a, channels), Mono(b, channels))
    decreases |a|
  {
    MonoLength(a, channels);
    MonoLength(b, channels);
    if |a| >= channels {
      MonoAdds(a[channels..], b[channels..], channels);
      MonoLength(a[channels..], channels);
      MonoLength(b[channels..], channels);
      AddedParts(a, b, channels);
      FramesAdd(a[..channels], b[..channels], Added(a[channels..], b[channels..]), channels);
      AddedCons(FrameMean(a, channels), FrameMean(b, channels),
                Mono(a[channels..], channels), Mono(b[channels..], channels));
    }
  }

  function FrameMean(samples: seq<real>, channels: nat): real
    requires 0 < channels <= |samples|
  {
    Total(samples[..channels]) / channels as real
  }

  lemma AddedParts(a: seq<real>, b: seq<real>, at: nat)
    requires |a| == |b| && at <= |a|
    ensures Added(a, b) == Added(a[..at], b[..at]) + Added(a[at..], b[at..])
  {
  }

  lemma AddedCons(x: real, y: real, a: seq<real>, b: seq<real>)
    requires |a| == |b|
    ensures Added([x] + a, [y] + b) == [x + y] + Added(a, b)
  {
  }

  lemma FramesAdd(a: seq<real>, b: seq<real>, rest: seq<real>, channels: nat)
    requires |a| == |b| == channels > 0
    ensures Mono(Added(a, b) + rest, channels)
         == [Total(a) / channels as real + Total(b) / channels as real] + Mono(rest, channels)
  {
    TotalAdds(a, b);
    QuotientAdds(Total(a), Total(b), channels as real);
    MonoCons(Added(a, b), rest, channels);
  }

  lemma {:induction false} TotalAdds(a: seq<real>, b: seq<real>)
    requires |a| == |b|
    ensures Total(Added(a, b)) == Total(a) + Total(b)
    decreases |a|
  {
    if a != [] {
      var last := |a| - 1;
      assert Added(a, b)[..last] == Added(a[..last], b[..last]);
      TotalAdds(a[..last], b[..last]);
    }
  }

  lemma QuotientAdds(x: real, y: real, c: real)
    requires c > 0.0
    ensures (x + y) / c == x / c + y / c
  {
  }

  /** Channels `i` and `j` of every frame exchanged. */
  function Exchanged(samples: seq<real>, channels: nat, i: nat, j: nat): (r: seq<real>)
    requires i < channels && j < channels
    ensures |r| == |samples|
  {
    if |samples| < channels then samples
    else samples[..channels][i := samples[j]][j := samples[i]] + Exchanged(samples[channels..], channels, i, j)
  }

  /** No channel counts for more than another. */
  lemma {:induction false} MonoExchanged(samples: seq<real>, channels: nat, i: nat, j: nat)
    requires i < channels && j < channels
    ensures Mono(Exchanged(samples, channels, i, j), channels) == Mono(samples, channels)
    decreases |samples|
  {
    if |samples| >= channels {
      var frame, rest := samples[..channels], samples[channels..];
      var other := frame[i := samples[j]][j := samples[i]];
      TotalUpdate(frame, i, samples[j]);
      TotalUpdate(frame[i := samples[j]], j, samples[i]);
      MonoExchanged(rest, channels, i, j);
      MonoCons(other, Exchanged(rest, channels, i, j), channels);
    }
  }

  lemma {:induction false} TotalUpdate(s: seq<real>, i: nat, x: real)
    requires i < |s|
    ensures Total(s[i := x]) == Total(s) - s[i] + x
    decreases |s|
  {
    var last := |s| - 1;
    if i == last {
      assert s[i := x][..last] == s[..last];
    } else {
      assert s[i := x][..last] == s[..last][i := x];
      TotalUpdate(s[..last], i, x);
    }
  }

  lemma MonoCons(frame: seq<real>, rest: seq<real>, channels: nat)
    requires |frame| == channels > 0
    ensures Mono(frame + rest, channels) == [Total(frame) / channels as real] + Mono(rest, channels)
  {
    assert (frame + rest)[..channels] == frame && (frame + rest)[channels..] == rest;
  }

  function Flat(x: real, channels: nat): (frame: seq<real>)
    ensures |frame| == channels
  {
    seq(channels, _ => x)
  }

  /** Every sample on all channels. */
  function OnAll(mono: seq<real>, channels: nat): seq<real> {
    if mono == [] then [] else Flat(mono[0], channels) + OnAll(mono[1..], channels)
  }

  /** What plays the same on all channels is its own mix. */
  lemma {:induction false} MonoOnAll(mono: seq<real>, channels: nat)
    requires channels > 0
    ensures Mono(OnAll(mono, channels), channels) == mono
  {
    if mono != [] {
      var first, rest := mono[0], mono[1..];
      MonoOnAll(rest, channels);
      MonoCons(Flat(first, channels), OnAll(rest, channels), channels);
      MeanOfFlat(first, channels);
      assert [first] + rest == mono;
    }
  }

  lemma MeanOfFlat(x: real, channels: nat)
    requires channels > 0
    ensures Total(Flat(x, channels)) / channels as real == x
  {
    TotalOfSame(Flat(x, channels), x);
    QuotientOfProduct(x, channels as real);
  }

  lemma {:induction false} TotalOfSame(s: seq<real>, x: real)
    requires forall i :: 0 <= i < |s| ==> s[i] == x
    ensures Total(s) == |s| as real * x
  {
    if s != [] {
      TotalOfSame(s[..|s| - 1], x);
      OneMore(|s| as real, x);
    }
  }

  lemma OneMore(n: real, x: real)
    ensures (n - 1.0) * x + x == n * x
  {
  }

  lemma QuotientOfProduct(x: real, c: real)
    requires c > 0.0
    ensures c * x / c == x
  {
  }

  /** The last `n` elements, or all of them. */
  function Last<T>(s: seq<T>, n: nat): (r: seq<T>)
    ensures |r| == Min(|s|, n)
  {
    if |s| <= n then s else s[|s| - n..]
  }

  /** What the visualizer should show once `heard` has played: its last frames,
      behind zeros when it is shorter than the window. */
  function Window(heard: seq<real>): (w: seq<real>)
    ensures |w| == WINDOW
  {
    if |heard| >= WINDOW then Last(heard, WINDOW)
    else seq(WINDOW - |heard|, _ => 0.0) + heard
  }

  /** The history is the newest of all frames. */
  ghost predicate Remembers(history: seq<real>, all: seq<real>) {
    forall n {:trigger Look(Remembering, n)} :: Look(Remembering, n) ==> history == Last(all, KEEP)
  }

  lemma RemembersNothing()
    ensures Remembers([], [])
  {
  }

  lemma RemembersMore(history: seq<real>, all: seq<real>, added: seq<real>, excess: nat)
    requires Remembers(history, all) && excess == Max(|history + added|, KEEP) - KEEP
    ensures |history| == Min(|all|, KEEP)
    ensures Remembers((history + added)[excess..], all + added)
  {
    assert Look(Remembering, 0);
  }

  class Scope {
    var history: seq<real>
    var unplayed: nat
    /** Every mono frame decoded since the last clear. */
    ghost var all: seq<real>
    /** How many of them have not played. */
    ghost var outstanding: nat
    /** The frames not played have always fitted in the history. */
    ghost var fitted: bool

    ghost predicate Valid()
      reads this
    {
      && Remembers(history, all)
      && unplayed <= |history| && outstanding <= |all|
      && (fitted ==> unplayed == outstanding)
      && (|all| <= KEEP ==> fitted)
    }

    constructor ()
      ensures Valid() && all == [] && outstanding == 0 && fitted
    {
      history, unplayed, all, outstanding, fitted := [], 0, [], 0, true;
      RemembersNothing();
    }

    method Decoded(samples: seq<real>, channels: nat)
      requires Valid() && channels > 0
      modifies this
      ensures Valid() && all == old(all) + Mono(samples, channels)
      ensures outstanding == old(outstanding) + Frames(|samples|, channels)
      ensures fitted == (old(fitted) && outstanding <= KEEP)
      ensures old(fitted) ==> (unplayed == outstanding <==> outstanding <= KEEP)
    {
      var added := Downmix(samples, channels);
      MonoLength(samples, channels);
      var frames := FrameCount(|samples|, channels);
      history := history + added;
      unplayed := unplayed + frames;
      var excess := if |history| > KEEP then |history| - KEEP else 0;
      RemembersMore(old(history), all, added, excess);
      history := history[excess..];
      unplayed := Min(unplayed, |history|);
      all := all + added;
      outstanding := outstanding + frames;
      fitted := fitted && outstanding <= KEEP;
    }

    method Played(frames: nat)
      requires Valid()
      modifies this
      ensures Valid() && all == old(all) && fitted == old(fitted)
      ensures outstanding == Max(old(outstanding), frames) - frames
    {
      unplayed := Max(unplayed, frames) - frames;
      outstanding := Max(outstanding, frames) - frames;
    }

    method Clear()
      modifies this
      ensures Valid() && all == [] && outstanding == 0 && fitted
    {
      history, unplayed, all, outstanding, fitted := [], 0, [], 0, true;
      RemembersNothing();
    }

    /** The window of what played, exactly, while the frames not played and the
        window fit in the history together. */
    method Samples() returns (window: Option<seq<real>>)
      requires Valid()
      ensures window.Some? ==> |window.value| == WINDOW
      ensures fitted && (|all| <= KEEP || outstanding + WINDOW <= KEEP) ==>
        window == if outstanding == |all| then None else Some(Window(all[..|all| - outstanding]))
    {
      if unplayed == outstanding && (|all| <= KEEP || outstanding + WINDOW <= KEEP) {
        RecentIsLast(history, all, unplayed);
      }
      var end := |history| - unplayed;
      if end == 0 {
        return None;
      }
      var start := if end >= WINDOW then end - WINDOW else 0;
      var recent := history[start..end];
      if |recent| < WINDOW {
        recent := seq(WINDOW - |recent|, _ => 0.0) + recent;
      }
      window := Some(recent);
    }
  }

  /** The end of the history, less what has not played, is the end of what played. */
  lemma RecentIsLast(history: seq<real>, all: seq<real>, unplayed: nat)
    requires Remembers(history, all) && unplayed <= |history|
    requires |all| <= KEEP || unplayed + WINDOW <= KEEP
    ensures var end := |history| - unplayed;
      var start := if end >= WINDOW then end - WINDOW else 0;
      && unplayed <= |all| && history[start..end] == Last(all[..|all| - unplayed], WINDOW)
      && (end == 0 <==> unplayed == |all|)
  {
    assert Look(Remembering, 0);
    var dropped, end := |all| - |history|, |history| - unplayed;
    var start := if end >= WINDOW then end - WINDOW else 0;
    assert history == all[dropped..];
    SliceOfSuffix(all, dropped, start, end);
    SuffixOfPrefix(all, dropped + start, dropped + end);
  }

  lemma SliceOfSuffix<T>(s: seq<T>, d: nat, i: nat, j: nat)
    requires i <= j && d + j <= |s|
    ensures s[d..][i..j] == s[d + i..d + j]
  {
  }

  lemma SuffixOfPrefix<T>(s: seq<T>, i: nat, j: nat)
    requires i <= j <= |s|
    ensures s[..j][i..] == s[i..j]
  {
  }

  /** The means of whole frames, one chunk at a time. */
  method Downmix(samples: seq<real>, channels: nat) returns (mono: seq<real>)
    requires channels > 0
    ensures mono == Mono(samples, channels)
  {
    mono := [];
    var at := 0;
    while at + channels <= |samples|
      invariant 0 <= at <= |samples|
      invariant mono + Mono(samples[at..], channels) == Mono(samples, channels)
    {
      var frame := samples[at..at + channels];
      assert samples[at..][..channels] == frame && samples[at..][channels..] == samples[at + channels..];
      mono := mono + [Total(frame) / channels as real];
      at := at + channels;
    }
  }
}
