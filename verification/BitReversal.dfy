/**
 Bit reversal of an index: the permutation an in-place radix-2 FFT starts with,
 and the reversed counter that walks it.
*/
module BitReversal {

  function Pow2(t: nat): (p: nat)
    ensures p > 0
  {
    if t == 0 then 1 else 2 * Pow2(t - 1)
  }

  /** The lowest `t` bits of `i` in the opposite order. */
  function Rev(t: nat, i: nat): (r: nat)
    requires i < Pow2(t)
    ensures r < Pow2(t)
  {
    if t == 0 then 0
    else (if i % 2 == 1 then Pow2(t - 1) else 0) + Rev(t - 1, i / 2)
  }

  /** Bit `b` of `i`. */
  predicate Bit(i: nat, b: nat) {
    if b == 0 then i % 2 == 1 else Bit(i / 2, b - 1)
  }

  lemma {:induction false} TopBit(t: nat, i: nat)
    requires i < Pow2(t + 1)
    ensures Bit(i, t) <==> i >= Pow2(t)
  {
    if t == 0 {
    } else {
      TopBit(t - 1, i / 2);
    }
  }

  lemma {:induction false} HighBitLeavesLow(t: nat, i: nat, b: nat)
    requires b < t
    ensures Bit(i + Pow2(t), b) == Bit(i, b)
  {
    if b == 0 {
    } else {
      assert (i + Pow2(t)) / 2 == i / 2 + Pow2(t - 1);
      HighBitLeavesLow(t - 1, i / 2, b - 1);
    }
  }

  /** Rev really reverses the bits. */
  lemma {:induction false} RevReversesBits(t: nat, i: nat, b: nat)
    requires i < Pow2(t) && b < t
    ensures Bit(Rev(t, i), t - 1 - b) == Bit(i, b)
  {
    var low := Rev(t - 1, i / 2);
    if b == 0 {
      TopBit(t - 1, Rev(t, i));
    } else {
      RevReversesBits(t - 1, i / 2, b - 1);
      HighBitLeavesLow(t - 1, low, t - 1 - b);
    }
  }

  /** Rev read from the other end: the top bit of `i` becomes the lowest. */
  lemma {:induction false} RevFromTop(t: nat, i: nat)
    requires i < Pow2(t + 1)
    ensures Rev(t + 1, i) == if i < Pow2(t) then 2 * Rev(t, i) else 2 * Rev(t, i - Pow2(t)) + 1
  {
    if t == 0 {
    } else {
      RevFromTop(t - 1, i / 2);
      if i >= Pow2(t) {
        assert (i - Pow2(t)) / 2 == i / 2 - Pow2(t - 1);
      }
    }
  }

  lemma {:induction false} RevInvolution(t: nat, i: nat)
    requires i < Pow2(t)
    ensures Rev(t, Rev(t, i)) == i
  {
    if t == 0 {
    } else {
      RevInvolution(t - 1, i / 2);
      RevFromTop(t - 1, Rev(t, i));
    }
  }

  /** `j & bit != 0`, for a mask of one bit (or none). */
  predicate HasBit(j: nat, bit: nat) {
    bit > 0 && j / bit % 2 == 1
  }

  /** `j ^ bit`, for a mask of one bit (or none). */
  function FlipBit(j: nat, bit: nat): nat {
    if HasBit(j, bit) then j - bit else j + bit
  }

  /** `j | bit`, for a mask of one bit (or none). */
  function SetBit(j: nat, bit: nat): nat {
    if HasBit(j, bit) then j else j + bit
  }

  lemma HasTopBit(t: nat, j: nat)
    requires j < Pow2(t + 1)
    ensures HasBit(j, Pow2(t)) <==> j >= Pow2(t)
  {
    var bit := Pow2(t);
    if j >= bit {
      assert j / bit == 1 by { DivOne(j, bit); }
    } else {
      assert j / bit == 0;
    }
  }

  lemma DivOne(j: nat, bit: nat)
    requires 0 < bit <= j < 2 * bit
    ensures j / bit == 1
  {
  }

  /** Adding one to a `t`-bit counter whose bits are reversed. */
  function ReversedIncrement(t: nat, j: nat): nat
    requires j < Pow2(t)
  {
    if t == 0 then 0
    else if j >= Pow2(t - 1) then ReversedIncrement(t - 1, j - Pow2(t - 1))
    else j + Pow2(t - 1)
  }

  lemma {:induction false} RevSuccessor(t: nat, i: nat)
    requires i + 1 < Pow2(t)
    ensures ReversedIncrement(t, Rev(t, i)) == Rev(t, i + 1)
  {
    if i % 2 == 1 {
      assert (i + 1) / 2 == i / 2 + 1 && (i + 1) % 2 == 0;
      assert i / 2 + 1 < Pow2(t - 1);
      RevSuccessor(t - 1, i / 2);
    } else {
      assert (i + 1) / 2 == i / 2 && (i + 1) % 2 == 1;
    }
  }

  /** A counter of all ones is the reversal of the last index. */
  lemma {:induction false} AllOnes(t: nat, i: nat)
    requires i < Pow2(t)
    ensures Rev(t, i) == Pow2(t) - 1 ==> i == Pow2(t) - 1
  {
    if t == 0 {
    } else {
      AllOnes(t - 1, i / 2);
    }
  }

  /** The reversed counter's carry loop: clears the run of ones at the top and
      sets the first zero below it. The mask never runs out. */
  method NextReversed(n: nat, j0: nat, ghost t: nat, ghost i: nat) returns (j: nat)
    requires n == Pow2(t) && 0 < i < n && j0 == Rev(t, i - 1)
    ensures j == Rev(t, i)
  {
    RevSuccessor(t, i - 1);
    AllOnes(t, i - 1);
    j := j0;
    var bit := n / 2;
    ghost var s: nat := t - 1;
    HasTopBit(s, j);
    while HasBit(j, bit)
      invariant s < t && bit == Pow2(s) && j < Pow2(s + 1)
      invariant j != Pow2(s + 1) - 1
      invariant ReversedIncrement(s + 1, j) == Rev(t, i)
      invariant HasBit(j, bit) <==> j >= bit
      decreases s
    {
      assert s > 0;
      j := FlipBit(j, bit);
      bit := bit / 2;
      s := s - 1;
      HasTopBit(s, j);
    }
    assert bit > 0;
    j := SetBit(j, bit);
  }

  /** What slot `m` holds once the walk has passed the indices below `i`. */
  function Settled<T>(t: nat, x: seq<T>, i: nat, m: nat): T
    requires |x| == Pow2(t) && m < |x|
  {
    if m < i || Rev(t, m) < i then x[Rev(t, m)] else x[m]
  }

  ghost predicate SettledBelow<T>(t: nat, x: seq<T>, i: nat, z: seq<T>) {
    |z| == |x| == Pow2(t) && forall m: nat :: m < |z| ==> z[m] == Settled(t, x, i, m)
  }

  function Swap<T>(z: seq<T>, i: nat, j: nat): (y: seq<T>)
    requires i < |z| && j < |z|
    ensures |y| == |z|
  {
    z[i := z[j]][j := z[i]]
  }

  /** One conditional swap settles slot `i` and its partner. */
  lemma SwapSettles<T(!new)>(t: nat, x: seq<T>, i: nat, z: seq<T>)
    requires i < |z| && SettledBelow(t, x, i, z)
    ensures SettledBelow(t, x, i + 1, if i < Rev(t, i) then Swap(z, i, Rev(t, i)) else z)
  {
    var j := Rev(t, i);
    var y := if i < j then Swap(z, i, j) else z;
    assert z[i] == Settled(t, x, i, i) && z[j] == Settled(t, x, i, j);
    RevInvolution(t, i);
    forall m: nat | m < |z| ensures y[m] == Settled(t, x, i + 1, m) {
      RevInvolution(t, m);
      assert z[m] == Settled(t, x, i, m);
    }
  }

  method SwapInPlace(a: array<real>, i: nat, j: nat)
    requires i < a.Length && j < a.Length
    modifies a
    ensures a[..] == Swap(old(a[..]), i, j)
  {
    a[i], a[j] := a[j], a[i];
  }

  /** The conditional swaps of the counter's walk leave each array in
      bit-reversed order. */
  method BitReverse(re: array<real>, im: array<real>, ghost t: nat)
    requires re != im && re.Length == im.Length == Pow2(t)
    modifies re, im
    ensures forall m :: 0 <= m < Pow2(t) ==> re[m] == old(re[Rev(t, m)]) && im[m] == old(im[Rev(t, m)])
  {
    var n := re.Length;
    var j := 0;
    ghost var x, y := re[..], im[..];
    RevZero(t);
    SettledFromOne(t, x);
    SettledFromOne(t, y);
    for i := 1 to n
      invariant j == Rev(t, i - 1)
      invariant SettledBelow(t, x, i, re[..]) && SettledBelow(t, y, i, im[..])
    {
      j := NextReversed(n, j, t, i);
      SwapSettles(t, x, i, re[..]);
      SwapSettles(t, y, i, im[..]);
      if i < j {
        SwapInPlace(re, i, j);
        SwapInPlace(im, i, j);
      }
    }
    AllSettled(t, x, re[..]);
    AllSettled(t, y, im[..]);
  }

  /** Index 0 is its own reversal. */
  lemma SettledFromOne<T(!new)>(t: nat, x: seq<T>)
    requires |x| == Pow2(t)
    ensures SettledBelow(t, x, 1, x)
  {
    forall m: nat | m < |x| ensures x[m] == Settled(t, x, 1, m) {
      RevZero(t);
      RevInvolution(t, m);
    }
  }

  lemma AllSettled<T(!new)>(t: nat, x: seq<T>, z: seq<T>)
    requires SettledBelow(t, x, Pow2(t), z)
    ensures forall m: nat :: m < |z| ==> z[m] == x[Rev(t, m)]
  {
    forall m: nat | m < |z| ensures z[m] == x[Rev(t, m)] {
      assert z[m] == Settled(t, x, Pow2(t), m);
    }
  }

  lemma {:induction false} RevZero(t: nat)
    ensures Rev(t, 0) == 0
  {
    if t == 0 {
    } else {
      RevZero(t - 1);
    }
  }
}
