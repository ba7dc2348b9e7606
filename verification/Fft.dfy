/**
 The in-place iterative radix-2 FFT, proved against the definition of the
 discrete Fourier transform. The twiddle factors `w.W(n, a)` (the source's
 cos and sin of -2*pi*a/n) enter through the laws of roots of unity only.
*/
module Fft {
  import opened Rings
  import opened BitReversal
  import opened Interleaved
  import opened Seals

  /** A ring and its twiddle factors. */
  datatype Roots<!T> = Roots(ring: Ring<T>, twiddle: (nat, nat) -> T) {
    function Add(a: T, b: T): T { ring.add(a, b) }
    function Sub(a: T, b: T): T { ring.Sub(a, b) }
    function Mul(a: T, b: T): T { ring.mul(a, b) }
    function W(n: nat, a: nat): T { twiddle(n, a) }
  }

  ghost predicate Turns<T>(w: Roots<T>, n: nat, a: nat, b: nat) {
    w.Mul(w.W(n, a), w.W(n, b)) == w.W(n, a + b)
  }

  ghost predicate Halves<T>(w: Roots<T>, n: nat, a: nat) {
    && w.W(2 * n, 2 * a) == w.W(n, a)
    && w.W(2 * n, n) == w.ring.neg(w.ring.one)
  }

  /** The laws of the roots of unity of every power of two up to `Pow2(t)`. */
  ghost predicate RootsOfUnity<T(!new)>(w: Roots<T>, t: nat) {
    && IsRing(w.ring)
    && (forall a: nat :: w.W(1, a) == w.ring.one)
    && (forall s: nat, a: nat, b: nat :: s <= t ==> Turns(w, Pow2(s), a, b))
    && (forall s: nat, a: nat :: s < t ==> Halves(w, Pow2(s), a))
  }

  /** The laws, sealed: see `Seals`. */
  ghost predicate Lawful<T(!new)>(w: Roots<T>, t: nat) {
    forall n: nat :: Look(Turning, n) ==> RootsOfUnity(w, t)
  }

  // ---- The definition of the transform ----

  function Sum<T>(r: Ring<T>, ts: seq<T>): T {
    if |ts| == 0 then r.zero else r.add(Sum(r, ts[..|ts| - 1]), ts[|ts| - 1])
  }

  /** The terms x[j] * w(n, j*k) of bin `k`. */
  function Terms<T>(w: Roots<T>, x: seq<T>, k: nat): (ts: seq<T>)
    ensures |ts| == |x|
  {
    seq(|x|, j requires 0 <= j < |x| => w.Mul(x[j], w.W(|x|, j * k)))
  }

  /** Bin `k` is the sum over j of x[j] * w(n, j*k). */
  function Bin<T>(w: Roots<T>, x: seq<T>, k: nat): T {
    Sum(w.ring, Terms(w, x, k))
  }

  function Dft<T>(w: Roots<T>, x: seq<T>): (y: seq<T>)
    ensures |y| == |x|
  {
    seq(|x|, k requires 0 <= k => Bin(w, x, k))
  }

  function Evens<T>(x: seq<T>): (y: seq<T>)
    ensures |y| == |x| / 2
  {
    seq(|x| / 2, i requires 0 <= i < |x| / 2 => x[2 * i])
  }

  function Odds<T>(x: seq<T>): (y: seq<T>)
    ensures |y| == |x| / 2
  {
    seq(|x| / 2, i requires 0 <= i < |x| / 2 => x[2 * i + 1])
  }

  function Scaled<T>(r: Ring<T>, v: T, ts: seq<T>): (y: seq<T>)
    ensures |y| == |ts|
  {
    seq(|ts|, i requires 0 <= i < |ts| => r.mul(v, ts[i]))
  }

  // ---- Splitting one transform into two of half the size ----

  lemma {:induction false} SumSplits<T(!new)>(r: Ring<T>, ts: seq<T>)
    requires IsRing(r) && |ts| % 2 == 0
    ensures Sum(r, ts) == r.add(Sum(r, Evens(ts)), Sum(r, Odds(ts)))
    decreases |ts|
  {
    var n := |ts|;
    if n == 0 {
      assert RingLaw(r, r.zero, r.zero, r.zero);
    } else {
      var front := ts[..n - 2];
      SumSplits(r, front);
      LastPair(ts);
      Interchange(r, Sum(r, Evens(front)), Sum(r, Odds(front)), ts[n - 2], ts[n - 1]);
    }
  }

  lemma LastPair<T>(ts: seq<T>)
    requires |ts| % 2 == 0 && |ts| > 0
    ensures var n, h := |ts|, |ts| / 2 - 1;
      && ts[..n - 1][..n - 2] == ts[..n - 2]
      && Evens(ts)[..h] == Evens(ts[..n - 2]) && Evens(ts)[h] == ts[n - 2]
      && Odds(ts)[..h] == Odds(ts[..n - 2]) && Odds(ts)[h] == ts[n - 1]
  {
  }

  lemma {:induction false} SumScales<T(!new)>(r: Ring<T>, v: T, ts: seq<T>)
    requires IsRing(r)
    ensures Sum(r, Scaled(r, v, ts)) == r.mul(v, Sum(r, ts))
    decreases |ts|
  {
    var n := |ts|;
    if n == 0 {
      TimesZero(r, v);
    } else {
      var front := ts[..n - 1];
      SumScales(r, v, front);
      assert Scaled(r, v, ts)[..n - 1] == Scaled(r, v, front);
      assert RingLaw(r, v, Sum(r, front), ts[n - 1]);
    }
  }

  lemma EvenTerm<T(!new)>(w: Roots<T>, s: nat, k: nat, j: nat)
    requires RootsOfUnity(w, s + 1)
    ensures w.W(Pow2(s + 1), (2 * j) * k) == w.W(Pow2(s), j * k)
  {
    assert Halves(w, Pow2(s), j * k);
    assert (2 * j) * k == 2 * (j * k);
  }

  lemma OddTerm<T(!new)>(w: Roots<T>, s: nat, k: nat, j: nat, xj: T)
    requires RootsOfUnity(w, s + 1)
    ensures w.Mul(xj, w.W(Pow2(s + 1), (2 * j + 1) * k))
         == w.Mul(w.W(Pow2(s + 1), k), w.Mul(xj, w.W(Pow2(s), j * k)))
  {
    EvenTerm(w, s, k, j);
    assert (2 * j + 1) * k == (2 * j) * k + k;
    assert Turns(w, Pow2(s + 1), (2 * j) * k, k);
    Rotate(w.ring, xj, w.W(Pow2(s), j * k), w.W(Pow2(s + 1), k));
  }

  lemma EvenTermAt<T(!new)>(w: Roots<T>, s: nat, x: seq<T>, k: nat, j: nat)
    requires |x| == Pow2(s + 1) && j < Pow2(s)
    requires RootsOfUnity(w, s + 1)
    ensures Evens(Terms(w, x, k))[j] == Terms(w, Evens(x), k)[j]
  {
    EvenTerm(w, s, k, j);
  }

  lemma OddTermAt<T(!new)>(w: Roots<T>, s: nat, x: seq<T>, k: nat, j: nat)
    requires |x| == Pow2(s + 1) && j < Pow2(s)
    requires RootsOfUnity(w, s + 1)
    ensures Odds(Terms(w, x, k))[j] == w.Mul(w.W(|x|, k), Terms(w, Odds(x), k)[j])
  {
    OddTerm(w, s, k, j, x[2 * j + 1]);
    TermAt(w, x, k, 2 * j + 1);
    TermAt(w, Odds(x), k, j);
  }

  lemma TermAt<T>(w: Roots<T>, x: seq<T>, k: nat, j: nat)
    requires j < |x|
    ensures Terms(w, x, k)[j] == w.Mul(x[j], w.W(|x|, j * k))
  {
  }

  lemma SplitTerms<T(!new)>(w: Roots<T>, s: nat, x: seq<T>, k: nat)
    requires |x| == Pow2(s + 1)
    requires RootsOfUnity(w, s + 1)
    ensures Evens(Terms(w, x, k)) == Terms(w, Evens(x), k)
    ensures Odds(Terms(w, x, k)) == Scaled(w.ring, w.W(|x|, k), Terms(w, Odds(x), k))
  {
    var evens, odds := Evens(Terms(w, x, k)), Odds(Terms(w, x, k));
    forall j: nat | j < Pow2(s)
      ensures evens[j] == Terms(w, Evens(x), k)[j] && odds[j] == w.Mul(w.W(|x|, k), Terms(w, Odds(x), k)[j])
    {
      EvenTermAt(w, s, x, k, j);
      OddTermAt(w, s, x, k, j);
    }
  }

  /** Bin `k` of the whole from bin `k` of the two halves. */
  lemma LowBin<T(!new)>(w: Roots<T>, s: nat, x: seq<T>, k: nat)
    requires |x| == Pow2(s + 1)
    requires RootsOfUnity(w, s + 1)
    ensures Bin(w, x, k) == w.Add(Bin(w, Evens(x), k), w.Mul(w.W(|x|, k), Bin(w, Odds(x), k)))
  {
    SplitTerms(w, s, x, k);
    SumOfHalves(w.ring, Terms(w, x, k), Terms(w, Evens(x), k), w.W(|x|, k), Terms(w, Odds(x), k));
  }

  lemma SumOfHalves<T(!new)>(r: Ring<T>, ts: seq<T>, evens: seq<T>, v: T, odds: seq<T>)
    requires IsRing(r) && |ts| % 2 == 0
    requires Evens(ts) == evens && Odds(ts) == Scaled(r, v, odds)
    ensures Sum(r, ts) == r.add(Sum(r, evens), r.mul(v, Sum(r, odds)))
  {
    SumSplits(r, ts);
    SumScales(r, v, odds);
  }

  /** A whole turn is one. */
  lemma {:induction false} WholeTurns<T(!new)>(w: Roots<T>, s: nat, j: nat)
    requires RootsOfUnity(w, s)
    ensures w.W(Pow2(s), j * Pow2(s)) == w.ring.one
  {
    if s > 0 {
      WholeTurns(w, s - 1, j);
      assert Halves(w, Pow2(s - 1), j * Pow2(s - 1));
      assert j * Pow2(s) == 2 * (j * Pow2(s - 1));
    } else {
      assert j * Pow2(s) == j;
    }
  }

  /** Bins repeat after a whole turn. */
  lemma BinsRepeat<T(!new)>(w: Roots<T>, s: nat, x: seq<T>, k: nat)
    requires |x| == Pow2(s)
    requires RootsOfUnity(w, s)
    ensures Bin(w, x, k + Pow2(s)) == Bin(w, x, k)
  {
    forall j | 0 <= j < |x| ensures Terms(w, x, k + Pow2(s))[j] == Terms(w, x, k)[j] {
      WholeTurns(w, s, j);
      var u := w.W(Pow2(s), j * k);
      assert RingLaw(w.ring, u, u, u);
      assert Turns(w, Pow2(s), j * k, j * Pow2(s));
      assert j * (k + Pow2(s)) == j * k + j * Pow2(s);
    }
    assert Terms(w, x, k + Pow2(s)) == Terms(w, x, k);
  }

  // ---- One stage ----

  /** What the butterflies of one block make of it. */
  function Butterfly<T>(w: Roots<T>, a: seq<T>): (y: seq<T>)
    ensures |y| == |a|
  {
    Butterflied(w, a, |a| / 2)
  }

  /** The block after its first `done` butterflies. */
  function Butterflied<T>(w: Roots<T>, a: seq<T>, done: nat): (y: seq<T>)
    requires done <= |a| / 2
    ensures |y| == |a|
  {
    var h := |a| / 2;
    seq(|a|, p requires 0 <= p < |a| =>
      if p < done then w.Add(a[p], w.Mul(w.W(|a|, p), a[p + h]))
      else if h <= p < h + done then w.Sub(a[p - h], w.Mul(w.W(|a|, p - h), a[p]))
      else a[p])
  }

  lemma HalfTurn<T(!new)>(w: Roots<T>, s: nat, k: nat)
    requires RootsOfUnity(w, s + 1)
    ensures w.W(Pow2(s + 1), k + Pow2(s)) == w.Mul(w.W(Pow2(s + 1), k), w.ring.neg(w.ring.one))
  {
    assert Turns(w, Pow2(s + 1), k, Pow2(s)) && Halves(w, Pow2(s), 0);
  }

  lemma TurnedHalf<T(!new)>(w: Roots<T>, s: nat, k: nat, a: T, b: T)
    requires RootsOfUnity(w, s + 1)
    ensures w.Add(a, w.Mul(w.W(Pow2(s + 1), k + Pow2(s)), b)) == w.Sub(a, w.Mul(w.W(Pow2(s + 1), k), b))
  {
    HalfTurn(w, s, k);
    NegatedFactor(w.ring, a, w.W(Pow2(s + 1), k), b);
  }

  /** Bin `k + h` of the whole comes from bin `k` of the two halves. */
  lemma HighBin<T(!new)>(w: Roots<T>, s: nat, x: seq<T>, k: nat)
    requires |x| == Pow2(s + 1)
    requires RootsOfUnity(w, s + 1)
    ensures Bin(w, x, k + Pow2(s)) == w.Sub(Bin(w, Evens(x), k), w.Mul(w.W(|x|, k), Bin(w, Odds(x), k)))
  {
    LowBin(w, s, x, k + Pow2(s));
    BinsRepeat(w, s, Evens(x), k);
    BinsRepeat(w, s, Odds(x), k);
    TurnedHalf(w, s, k, Bin(w, Evens(x), k), Bin(w, Odds(x), k));
  }

  /** The low half of what a block's butterflies make of two transforms. */
  function Lows<T>(w: Roots<T>, e: seq<T>, o: seq<T>): (y: seq<T>)
    requires |e| == |o|
    ensures |y| == |e|
  {
    seq(|e|, k requires 0 <= k < |e| => w.Add(e[k], w.Mul(w.W(2 * |e|, k), o[k])))
  }

  function Highs<T>(w: Roots<T>, e: seq<T>, o: seq<T>): (y: seq<T>)
    requires |e| == |o|
    ensures |y| == |e|
  {
    seq(|e|, k requires 0 <= k < |e| => w.Sub(e[k], w.Mul(w.W(2 * |e|, k), o[k])))
  }

  lemma HalvesAt<T>(w: Roots<T>, e: seq<T>, o: seq<T>, k: nat)
    requires |e| == |o| && k < |e|
    ensures Lows(w, e, o)[k] == w.Add(e[k], w.Mul(w.W(2 * |e|, k), o[k]))
    ensures Highs(w, e, o)[k] == w.Sub(e[k], w.Mul(w.W(2 * |e|, k), o[k]))
  {
  }

  lemma ButterflyLow<T>(w: Roots<T>, e: seq<T>, o: seq<T>, k: nat)
    requires |e| == |o| && k < |e|
    ensures Butterfly(w, e + o)[k] == w.Add(e[k], w.Mul(w.W(2 * |e|, k), o[k]))
  {
  }

  lemma ButterflyHigh<T>(w: Roots<T>, e: seq<T>, o: seq<T>, k: nat)
    requires |e| == |o| && k < |e|
    ensures Butterfly(w, e + o)[k + |e|] == w.Sub(e[k], w.Mul(w.W(2 * |e|, k), o[k]))
  {
  }

  lemma ButterflyHalves<T>(w: Roots<T>, e: seq<T>, o: seq<T>)
    requires |e| == |o|
    ensures Butterfly(w, e + o) == Lows(w, e, o) + Highs(w, e, o)
  {
    forall k: nat | k < |e| ensures Lows(w, e, o)[k] == Butterfly(w, e + o)[k] {
      ButterflyLow(w, e, o, k);
      HalvesAt(w, e, o, k);
    }
    forall k: nat | k < |e| ensures Highs(w, e, o)[k] == Butterfly(w, e + o)[|e| + k] {
      ButterflyHigh(w, e, o, k);
      HalvesAt(w, e, o, k);
    }
    TwoParts(Lows(w, e, o), Highs(w, e, o), Butterfly(w, e + o));
  }

  /** `part` stands in `y` from `at` on. */
  ghost predicate StandsIn<T>(part: seq<T>, y: seq<T>, at: nat) {
    at + |part| <= |y| && forall k: nat :: k < |part| ==> part[k] == y[at + k]
  }

  lemma TwoParts<T>(a: seq<T>, b: seq<T>, y: seq<T>)
    requires |y| == |a| + |b| && StandsIn(a, y, 0) && StandsIn(b, y, |a|)
    ensures a + b == y
  {
    forall k: nat | k < |y| ensures (a + b)[k] == y[k] {
      if k >= |a| {
        assert b[k - |a|] == y[|a| + (k - |a|)];
      }
    }
  }

  /** `y` is the transform of `x`; sealed: see `Seals`. */
  ghost predicate IsDft<T>(w: Roots<T>, x: seq<T>, y: seq<T>) {
    && |y| == |x|
    && forall n: nat :: Look(Transforming, n) ==> y == Dft(w, x)
  }

  lemma DftSealed<T>(w: Roots<T>, x: seq<T>)
    ensures IsDft(w, x, Dft(w, x))
  {
  }

  /** `v` is bin `k` of `x`; sealed as well. */
  ghost predicate IsBin<T>(w: Roots<T>, x: seq<T>, k: nat, v: T) {
    forall n: nat :: Look(Transforming, n) ==> v == Bin(w, x, k)
  }

  lemma DftAt<T>(w: Roots<T>, x: seq<T>, y: seq<T>, k: nat)
    requires k < |x| == |y|
    ensures IsDft(w, x, y) ==> IsBin(w, x, k, y[k])
  {
    assert Look(Transforming, k);
  }

  lemma LowIs<T(!new)>(w: Roots<T>, s: nat, x: seq<T>, k: nat, v: T, e: T, o: T)
    requires |x| == Pow2(s + 1)
    requires Lawful(w, s + 1)
    ensures IsBin(w, x, k, v) && IsBin(w, Evens(x), k, e) && IsBin(w, Odds(x), k, o)
      ==> v == w.Add(e, w.Mul(w.W(|x|, k), o))
  {
    assert Look(Transforming, k) && Look(Turning, k);
    LowBin(w, s, x, k);
  }

  lemma HighIs<T(!new)>(w: Roots<T>, s: nat, x: seq<T>, k: nat, v: T, e: T, o: T)
    requires |x| == Pow2(s + 1)
    requires Lawful(w, s + 1)
    ensures IsBin(w, x, k + Pow2(s), v) && IsBin(w, Evens(x), k, e) && IsBin(w, Odds(x), k, o)
      ==> v == w.Sub(e, w.Mul(w.W(|x|, k), o))
  {
    assert Look(Transforming, k) && Look(Turning, k);
    HighBin(w, s, x, k);
  }

  lemma LowAt<T(!new)>(w: Roots<T>, s: nat, x: seq<T>, y: seq<T>, e: seq<T>, o: seq<T>, k: nat)
    requires |x| == Pow2(s + 1) && k < Pow2(s)
    requires Lawful(w, s + 1)
    requires IsDft(w, Evens(x), e) && IsDft(w, Odds(x), o) && IsDft(w, x, y)
    ensures y[k] == w.Add(e[k], w.Mul(w.W(|x|, k), o[k]))
  {
    DftAt(w, Evens(x), e, k);
    DftAt(w, Odds(x), o, k);
    DftAt(w, x, y, k);
    LowIs(w, s, x, k, y[k], e[k], o[k]);
  }

  lemma HighAt<T(!new)>(w: Roots<T>, s: nat, x: seq<T>, y: seq<T>, e: seq<T>, o: seq<T>, k: nat)
    requires |x| == Pow2(s + 1) && k < Pow2(s)
    requires Lawful(w, s + 1)
    requires IsDft(w, Evens(x), e) && IsDft(w, Odds(x), o) && IsDft(w, x, y)
    ensures y[Pow2(s) + k] == w.Sub(e[k], w.Mul(w.W(|x|, k), o[k]))
  {
    DftAt(w, Evens(x), e, k);
    DftAt(w, Odds(x), o, k);
    DftAt(w, x, y, k + Pow2(s));
    HighIs(w, s, x, k, y[k + Pow2(s)], e[k], o[k]);
  }

  lemma LowsAreBins<T(!new)>(w: Roots<T>, s: nat, x: seq<T>, y: seq<T>, e: seq<T>, o: seq<T>)
    requires |x| == Pow2(s + 1) && |y| == |x| && |e| == |o| == Pow2(s)
    requires forall k: nat :: k < Pow2(s) ==> y[k] == w.Add(e[k], w.Mul(w.W(|x|, k), o[k]))
    ensures StandsIn(Lows(w, e, o), y, 0)
  {
    forall k: nat | k < Pow2(s) ensures Lows(w, e, o)[k] == y[k] {
      HalvesAt(w, e, o, k);
    }
  }

  lemma HighsAreBins<T(!new)>(w: Roots<T>, s: nat, x: seq<T>, y: seq<T>, e: seq<T>, o: seq<T>)
    requires |x| == Pow2(s + 1) && |y| == |x| && |e| == |o| == Pow2(s)
    requires forall k: nat :: k < Pow2(s) ==> y[Pow2(s) + k] == w.Sub(e[k], w.Mul(w.W(|x|, k), o[k]))
    ensures StandsIn(Highs(w, e, o), y, Pow2(s))
  {
    forall k: nat | k < Pow2(s) ensures Highs(w, e, o)[k] == y[Pow2(s) + k] {
      HalvesAt(w, e, o, k);
    }
  }

  /** The butterflies join two half-size transforms into one. */
  lemma CooleyTukey<T(!new)>(w: Roots<T>, s: nat, x: seq<T>)
    requires |x| == Pow2(s + 1)
    requires RootsOfUnity(w, s + 1)
    ensures Butterfly(w, Dft(w, Evens(x)) + Dft(w, Odds(x))) == Dft(w, x)
  {
    DftSealed(w, Evens(x));
    DftSealed(w, Odds(x));
    DftSealed(w, x);
    JoinHalves(w, s, x, Dft(w, x), Dft(w, Evens(x)), Dft(w, Odds(x)));
  }

  lemma JoinHalves<T(!new)>(w: Roots<T>, s: nat, x: seq<T>, y: seq<T>, e: seq<T>, o: seq<T>)
    requires |x| == Pow2(s + 1)
    requires Lawful(w, s + 1)
    requires IsDft(w, Evens(x), e) && IsDft(w, Odds(x), o) && IsDft(w, x, y)
    ensures Butterfly(w, e + o) == y
  {
    forall k: nat | k < Pow2(s)
      ensures y[k] == w.Add(e[k], w.Mul(w.W(|x|, k), o[k]))
      ensures y[Pow2(s) + k] == w.Sub(e[k], w.Mul(w.W(|x|, k), o[k]))
    {
      LowAt(w, s, x, y, e, o, k);
      HighAt(w, s, x, y, e, o, k);
    }
    ButterflyHalves(w, e, o);
    LowsAreBins(w, s, x, y, e, o);
    HighsAreBins(w, s, x, y, e, o);
    TwoParts(Lows(w, e, o), Highs(w, e, o), y);
  }

  /** One stage: the butterflies of every block of `len`. */
  function Stage<T>(w: Roots<T>, len: nat, a: seq<T>): (y: seq<T>)
    requires len > 0
    ensures |y| == |a|
    decreases |a|
  {
    if |a| < len then a else Butterfly(w, a[..len]) + Stage(w, len, a[len..])
  }

  lemma {:induction false} StageConcat<T(!new)>(w: Roots<T>, len: nat, a: seq<T>, b: seq<T>)
    requires len > 0 && Whole(|a|, len)
    ensures Stage(w, len, a + b) == Stage(w, len, a) + Stage(w, len, b)
    decreases |a|
  {
    if |a| == 0 {
      assert a + b == b;
    } else {
      assert (a + b)[..len] == a[..len] && (a + b)[len..] == a[len..] + b;
      StageConcat(w, len, a[len..], b);
    }
  }

  lemma {:induction false} PowersDivide(s: nat, t: nat)
    requires s <= t
    ensures Whole(Pow2(t), Pow2(s))
  {
    if s < t {
      PowersDivide(s, t - 1);
      WholeSum(Pow2(t - 1), Pow2(t - 1), Pow2(s));
    } else {
      assert Whole(Pow2(t) - Pow2(s), Pow2(s));
    }
  }

  // ---- The array between stages ----

  /** The array after `s` stages: blocks of 2^s, each the transform of its part
      of the input, the parts in bit-reversed order. */
  function Blocks<T>(w: Roots<T>, x: seq<T>, t: nat, s: nat): (y: seq<T>)
    requires |x| == Pow2(t) && s <= t
    ensures |y| == |x|
    decreases t
  {
    if s == t then Dft(w, x)
    else Blocks(w, Evens(x), t - 1, s) + Blocks(w, Odds(x), t - 1, s)
  }

  /** Before the first stage the array is the bit-reversed input. */
  lemma {:induction false} BlocksStart<T(!new)>(w: Roots<T>, x: seq<T>, t: nat, i: nat)
    requires |x| == Pow2(t) && i < Pow2(t)
    requires RootsOfUnity(w, 0)
    decreases t
    ensures Blocks(w, x, t, 0)[i] == x[Rev(t, i)]
  {
    if t == 0 {
      SingleBin(w, x);
    } else if i < Pow2(t - 1) {
      LowerHalf(w, x, t - 1, i);
      BlocksStart(w, Evens(x), t - 1, i);
    } else {
      UpperHalf(w, x, t - 1, i);
      BlocksStart(w, Odds(x), t - 1, i - Pow2(t - 1));
    }
  }

  lemma LowerHalf<T>(w: Roots<T>, x: seq<T>, t: nat, i: nat)
    requires |x| == Pow2(t + 1) && i < Pow2(t)
    ensures Blocks(w, x, t + 1, 0)[i] == Blocks(w, Evens(x), t, 0)[i]
    ensures Evens(x)[Rev(t, i)] == x[Rev(t + 1, i)]
  {
    RevFromTop(t, i);
  }

  lemma UpperHalf<T>(w: Roots<T>, x: seq<T>, t: nat, i: nat)
    requires |x| == Pow2(t + 1) && Pow2(t) <= i < Pow2(t + 1)
    ensures Blocks(w, x, t + 1, 0)[i] == Blocks(w, Odds(x), t, 0)[i - Pow2(t)]
    ensures Odds(x)[Rev(t, i - Pow2(t))] == x[Rev(t + 1, i)]
  {
    RevFromTop(t, i);
  }

  lemma SingleBin<T(!new)>(w: Roots<T>, x: seq<T>)
    requires |x| == 1 && RootsOfUnity(w, 0)
    ensures Bin(w, x, 0) == x[0]
  {
    var r := w.ring;
    assert RingLaw(r, x[0], r.zero, r.zero) && RingLaw(r, r.zero, x[0], r.zero);
    assert Terms(w, x, 0)[0] == x[0];
    assert Sum(r, Terms(w, x, 0)[..0]) == r.zero;
  }

  /** One stage doubles the blocks. */
  lemma {:induction false} BlocksStep<T(!new)>(w: Roots<T>, x: seq<T>, t: nat, s: nat)
    requires |x| == Pow2(t) && s < t
    requires RootsOfUnity(w, t)
    ensures Stage(w, Pow2(s + 1), Blocks(w, x, t, s)) == Blocks(w, x, t, s + 1)
    decreases t
  {
    var a := Blocks(w, Evens(x), t - 1, s);
    var b := Blocks(w, Odds(x), t - 1, s);
    if s + 1 == t {
      CooleyTukey(w, s, x);
      assert (a + b)[..Pow2(t)] == a + b && (a + b)[Pow2(t)..] == [];
    } else {
      assert RootsOfUnity(w, t - 1);
      PowersDivide(s + 1, t - 1);
      StageConcat(w, Pow2(s + 1), a, b);
      BlocksStep(w, Evens(x), t - 1, s);
      BlocksStep(w, Odds(x), t - 1, s);
    }
  }

  // ---- The in-place algorithm ----

  /** The two arrays read as complex numbers. */
  ghost function View(re: array<real>, im: array<real>): (z: seq<Complex>)
    requires re.Length == im.Length
    reads re, im
    ensures |z| == re.Length
  {
    seq(re.Length, i requires 0 <= i < re.Length reads re, im => Complex(re[i], im[i]))
  }

  ghost predicate Holds(re: array<real>, im: array<real>, z: seq<Complex>)
    reads re, im
  {
    |z| == re.Length == im.Length && forall i :: 0 <= i < |z| ==> z[i] == Complex(re[i], im[i])
  }

  lemma ButterfliedStep(w: Roots<Complex>, a: seq<Complex>, h: nat, k: nat)
    requires |a| == 2 * h && k < h
    ensures var factored := w.Mul(w.W(|a|, k), a[k + h]);
      Butterflied(w, a, k + 1) ==
        Butterflied(w, a, k)[k := w.Add(a[k], factored)][k + h := w.Sub(a[k], factored)]
  {
  }

  ghost predicate Realises(w: Roots<Complex>, a: Complex, b: Complex) {
    w.Add(a, b) == CAdd(a, b) && w.Sub(a, b) == CAdd(a, CNeg(b)) && w.Mul(a, b) == CMul(a, b)
  }

  /** The ring is the one the arrays hold. Stated element by element, so that
      only the arithmetic itself meets products of reals. */
  ghost predicate OverComplex(w: Roots<Complex>) {
    forall a, b :: Realises(w, a, b)
  }

  /** The source's real arithmetic is the product of complex numbers. */
  method Product(w: Roots<Complex>, factor: Complex, a: Complex) returns (tr: real, ti: real)
    requires OverComplex(w)
    ensures Complex(tr, ti) == w.Mul(factor, a)
  {
    var cos, sin := factor.re, factor.im;
    tr := a.re * cos - a.im * sin;
    ti := a.re * sin + a.im * cos;
    assert Realises(w, factor, a);
  }

  lemma SumAndDifference(w: Roots<Complex>, a: Complex, t: Complex)
    requires OverComplex(w)
    ensures w.Add(a, t) == Complex(a.re + t.re, a.im + t.im)
    ensures w.Sub(a, t) == Complex(a.re - t.re, a.im - t.im)
  {
    assert Realises(w, a, t);
  }

  /** One butterfly, on the elements `a` and `b`. */
  method ButterflyInPlace(re: array<real>, im: array<real>, w: Roots<Complex>, factor: Complex, a: nat, b: nat,
                          ghost z: seq<Complex>)
    requires re != im && Holds(re, im, z) && OverComplex(w)
    requires a < b < re.Length
    modifies re, im
    ensures Holds(re, im, z[a := w.Add(z[a], w.Mul(factor, z[b]))][b := w.Sub(z[a], w.Mul(factor, z[b]))])
  {
    var tr, ti := Product(w, factor, Complex(re[b], im[b]));
    SumAndDifference(w, z[a], Complex(tr, ti));
    re[b] := re[a] - tr;
    im[b] := im[a] - ti;
    re[a] := re[a] + tr;
    im[a] := im[a] + ti;
  }

  /** The butterflies of the block at `start`; nothing else changes. */
  method BlockInPlace(re: array<real>, im: array<real>, w: Roots<Complex>, start: nat, len: nat,
                      ghost pre: seq<Complex>, ghost block: seq<Complex>, ghost post: seq<Complex>)
    requires re != im && Holds(re, im, pre + block + post) && OverComplex(w)
    requires len % 2 == 0 && len == |block| && start == |pre|
    modifies re, im
    ensures Holds(re, im, pre + Butterfly(w, block) + post)
  {
    NoButterfly(w, block);
    for k := 0 to len / 2
      invariant Holds(re, im, pre + Butterflied(w, block, k) + post)
    {
      ButterflyOfBlock(re, im, w, start, len, len / 2, k, pre, block, post);
    }
  }

  /** The k-th butterfly of the block at `start`. */
  method ButterflyOfBlock(re: array<real>, im: array<real>, w: Roots<Complex>, start: nat, len: nat, half: nat, k: nat,
                          ghost pre: seq<Complex>, ghost block: seq<Complex>, ghost post: seq<Complex>)
    requires len == 2 * half == |block| && start == |pre| && k < half
    requires re != im && Holds(re, im, pre + Butterflied(w, block, k) + post) && OverComplex(w)
    modifies re, im
    ensures Holds(re, im, pre + Butterflied(w, block, k + 1) + post)
  {
    var a, b := start + k, start + k + half;
    ghost var z := pre + Butterflied(w, block, k) + post;
    ghost var z' := ButterflyStep(w, pre, block, post, half, k, z);
    ButterflyInPlace(re, im, w, w.W(len, k), a, b, z);
    assert Holds(re, im, z');
  }

  lemma NoButterfly(w: Roots<Complex>, a: seq<Complex>)
    ensures Butterflied(w, a, 0) == a
  {
  }

  lemma ButterflyStep(w: Roots<Complex>, pre: seq<Complex>, a: seq<Complex>, post: seq<Complex>, h: nat, k: nat,
                      z: seq<Complex>) returns (z': seq<Complex>)
    requires |a| == 2 * h && k < h
    requires z == pre + Butterflied(w, a, k) + post
    ensures z' == pre + Butterflied(w, a, k + 1) + post
    ensures var p, q := |pre| + k, |pre| + k + h;
      var factored := w.Mul(w.W(|a|, k), z[q]);
      z' == z[p := w.Add(z[p], factored)][q := w.Sub(z[p], factored)]
  {
    var mid, next := Butterflied(w, a, k), Butterflied(w, a, k + 1);
    z' := pre + next + post;
    ButterfliedStep(w, a, h, k);
    UpdateInside(pre, mid, post, k, next[k]);
    UpdateInside(pre, mid[k := next[k]], post, k + h, next[k + h]);
  }

  lemma UpdateInside<T>(pre: seq<T>, mid: seq<T>, post: seq<T>, k: nat, v: T)
    requires k < |mid|
    ensures (pre + mid + post)[|pre| + k := v] == pre + mid[k := v] + post
  {
  }

  /** Every block of one stage in turn. */
  method StageInPlace(re: array<real>, im: array<real>, w: Roots<Complex>, len: nat, ghost z: seq<Complex>)
    requires re != im && Holds(re, im, z) && OverComplex(w)
    requires len > 0 && len % 2 == 0 && Whole(|z|, len)
    modifies re, im
    ensures Holds(re, im, Stage(w, len, z))
  {
    var start := 0;
    ghost var done: seq<Complex>, rest: seq<Complex> := [], z;
    assert done + rest == z && done + Stage(w, len, rest) == Stage(w, len, z);
    while start < re.Length
      invariant start == |done| && |done| + |rest| == re.Length && Whole(|rest|, len)
      invariant Holds(re, im, done + rest)
      invariant done + Stage(w, len, rest) == Stage(w, len, z)
      decreases |rest|
    {
      ghost var block, after := NextBlock(w, len, done, rest);
      BlockInPlace(re, im, w, start, len, done, block, after);
      done, rest := done + Butterfly(w, block), after;
      start := start + len;
    }
    assert done + Stage(w, len, rest) == done + rest;
  }

  lemma NextBlock(w: Roots<Complex>, len: nat, done: seq<Complex>, rest: seq<Complex>)
    returns (block: seq<Complex>, after: seq<Complex>)
    requires 0 < len && rest != [] && Whole(|rest|, len)
    ensures |block| == len && |rest| == len + |after| && Whole(|after|, len)
    ensures done + rest == done + block + after
    ensures done + Stage(w, len, rest) == done + Butterfly(w, block) + Stage(w, len, after)
  {
    block, after := rest[..len], rest[len..];
    Regroup(done, block, after);
    Regroup(done, Butterfly(w, block), Stage(w, len, after));
  }

  lemma Regroup<T>(a: seq<T>, b: seq<T>, c: seq<T>)
    ensures a + b + c == a + (b + c)
  {
  }

  /** All the stages, from single samples to the whole transform. */
  method Butterflies(re: array<real>, im: array<real>, w: Roots<Complex>, ghost t: nat, ghost x: seq<Complex>)
    requires re != im && |x| == Pow2(t) && Holds(re, im, Blocks(w, x, t, 0))
    requires RootsOfUnity(w, t) && OverComplex(w)
    modifies re, im
    ensures Holds(re, im, Dft(w, x))
  {
    var n := re.Length;
    var len := 2;
    ghost var s := 0;
    SizeBound(s, t);
    while len <= n
      invariant s <= t && len == Pow2(s + 1)
      invariant len <= n <==> s < t
      invariant Holds(re, im, Blocks(w, x, t, s))
      decreases t - s
    {
      PowersDivide(s + 1, t);
      StageInPlace(re, im, w, len, Blocks(w, x, t, s));
      BlocksStep(w, x, t, s);
      len := len * 2;
      s := s + 1;
      SizeBound(s, t);
    }
  }

  lemma SizeBound(s: nat, t: nat)
    requires s <= t
    ensures Pow2(s + 1) <= Pow2(t) <==> s < t
  {
    if s < t {
      Pow2Monotone(s + 1, t);
    }
  }

  lemma {:induction false} Pow2Monotone(s: nat, t: nat)
    requires s <= t
    ensures Pow2(s) <= Pow2(t)
  {
    if s < t {
      Pow2Monotone(s, t - 1);
    }
  }

  lemma ComplexRingIsRealised(w: Roots<Complex>)
    requires w.ring == COMPLEX
    ensures OverComplex(w)
  {
  }

  /** Slot k of the arrays ends up holding the sum over j of x[j] * w.W(n, j*k),
      for every input of a power-of-two length. */
  method FftInPlace(re: array<real>, im: array<real>, w: Roots<Complex>, ghost t: nat)
    requires re != im && re.Length == im.Length == Pow2(t)
    requires RootsOfUnity(w, t) && w.ring == COMPLEX
    modifies re, im
    ensures View(re, im) == Dft(w, old(View(re, im)))
  {
    ghost var x := View(re, im);
    BitReverse(re, im, t);
    forall i: nat | i < Pow2(t) ensures Blocks(w, x, t, 0)[i] == x[Rev(t, i)] {
      BlocksStart(w, x, t, i);
    }
    ComplexRingIsRealised(w);
    Butterflies(re, im, w, t, x);
    assert View(re, im) == Dft(w, x);
  }
}
