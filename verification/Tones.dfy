/**
 What the transform makes of a tone centred on a bin.
*/
module Tones {
  import opened Rings
  import opened BitReversal
  import opened Fft

  /** The samples of the tone that turns backwards through `d` steps a sample. */
  function Tone<T>(w: Roots<T>, n: nat, d: nat): (x: seq<T>)
    ensures |x| == n
  {
    seq(n, j requires 0 <= j < n => w.W(n, j * d))
  }

  /** `n` in the ring, for a power of two. */
  function Power<T>(r: Ring<T>, s: nat): T {
    if s == 0 then r.one else r.add(Power(r, s - 1), Power(r, s - 1))
  }

  lemma EvenTone<T(!new)>(w: Roots<T>, s: nat, d: nat)
    requires RootsOfUnity(w, s + 1)
    ensures Evens(Tone(w, Pow2(s + 1), d)) == Tone(w, Pow2(s), d)
  {
    forall j: nat | j < Pow2(s) ensures Evens(Tone(w, Pow2(s + 1), d))[j] == Tone(w, Pow2(s), d)[j] {
      EvenTerm(w, s, d, j);
    }
  }

  /** One step after an even number of steps. */
  lemma OneStepOn<T(!new)>(w: Roots<T>, s: nat, d: nat, even: nat, odd: nat)
    requires RootsOfUnity(w, s) && odd == even + d
    ensures w.W(Pow2(s), odd) == w.Mul(w.W(Pow2(s), d), w.W(Pow2(s), even))
  {
    var u, v := w.W(Pow2(s), even), w.W(Pow2(s), d);
    assert Turns(w, Pow2(s), even, d);
    assert RingLaw(w.ring, u, v, v);
  }

  lemma OddStep<T(!new)>(w: Roots<T>, s: nat, d: nat, j: nat)
    requires RootsOfUnity(w, s + 1)
    ensures w.W(Pow2(s + 1), (2 * j + 1) * d) == w.Mul(w.W(Pow2(s + 1), d), w.W(Pow2(s), j * d))
  {
    EvenTerm(w, s, d, j);
    assert (2 * j + 1) * d == (2 * j) * d + d;
    OneStepOn(w, s + 1, d, (2 * j) * d, (2 * j + 1) * d);
  }

  lemma OddTone<T(!new)>(w: Roots<T>, s: nat, d: nat)
    requires RootsOfUnity(w, s + 1)
    ensures Odds(Tone(w, Pow2(s + 1), d)) == Scaled(w.ring, w.W(Pow2(s + 1), d), Tone(w, Pow2(s), d))
  {
    var v := w.W(Pow2(s + 1), d);
    forall j: nat | j < Pow2(s)
      ensures Odds(Tone(w, Pow2(s + 1), d))[j] == Scaled(w.ring, v, Tone(w, Pow2(s), d))[j]
    {
      OddStep(w, s, d, j);
    }
  }

  /** The turns of a tone cancel unless it makes whole turns only. */
  lemma {:induction false} TonesCancel<T(!new)>(w: Roots<T>, s: nat, d: nat, q: nat, m: nat)
    requires RootsOfUnity(w, s)
    requires m < Pow2(s) && d == q * Pow2(s) + m
    ensures Sum(w.ring, Tone(w, Pow2(s), d)) == if m == 0 then Power(w.ring, s) else w.ring.zero
  {
    if s == 0 {
      assert Tone(w, 1, d) == [w.ring.one];
      OneTerm(w.ring, w.ring.one);
    } else {
      var h := Pow2(s - 1);
      HalveRemainder(q, h, m, d);
      if m < h {
        TonesCancel(w, s - 1, d, 2 * q, m);
      } else {
        TonesCancel(w, s - 1, d, 2 * q + 1, m - h);
      }
      JoinHalves(w, s - 1, d, q, m);
    }
  }

  lemma HalveRemainder(q: nat, h: nat, m: nat, d: nat)
    requires d == q * (2 * h) + m
    ensures d == (2 * q) * h + m && d == (2 * q + 1) * h + (m - h)
  {
  }

  lemma ToneSplits<T(!new)>(w: Roots<T>, s: nat, d: nat)
    requires RootsOfUnity(w, s + 1)
    ensures var half := Sum(w.ring, Tone(w, Pow2(s), d));
      Sum(w.ring, Tone(w, Pow2(s + 1), d)) == w.Add(half, w.Mul(w.W(Pow2(s + 1), d), half))
  {
    EvenTone(w, s, d);
    OddTone(w, s, d);
    SumSplits(w.ring, Tone(w, Pow2(s + 1), d));
    SumScales(w.ring, w.W(Pow2(s + 1), d), Tone(w, Pow2(s), d));
  }

  lemma JoinHalves<T(!new)>(w: Roots<T>, s: nat, d: nat, q: nat, m: nat)
    requires RootsOfUnity(w, s + 1)
    requires m < Pow2(s + 1) && d == q * Pow2(s + 1) + m
    requires Sum(w.ring, Tone(w, Pow2(s), d)) == if m == 0 || m == Pow2(s) then Power(w.ring, s) else w.ring.zero
    ensures Sum(w.ring, Tone(w, Pow2(s + 1), d)) == if m == 0 then Power(w.ring, s + 1) else w.ring.zero
  {
    var r, v, half := w.ring, w.W(Pow2(s + 1), d), Sum(w.ring, Tone(w, Pow2(s), d));
    ToneSplits(w, s, d);
    HalfTurns(w, s, d, q, m);
    if m == 0 {
      assert RingLaw(r, r.one, half, half) && RingLaw(r, half, r.one, r.one);
    } else if m == Pow2(s) {
      assert RingLaw(r, r.one, half, half) && RingLaw(r, half, r.one, r.one);
    } else {
      TimesZero(r, v);
      assert RingLaw(r, r.zero, r.zero, r.zero);
    }
  }

  lemma OneTerm<T(!new)>(r: Ring<T>, a: T)
    requires IsRing(r)
    ensures Sum(r, [a]) == a
  {
    assert RingLaw(r, a, r.zero, r.zero) && RingLaw(r, r.zero, a, a);
    assert [a][..0] == [];
  }

  /** Whole half-turns are plus or minus one. */
  lemma HalfTurns<T(!new)>(w: Roots<T>, s: nat, d: nat, q: nat, m: nat)
    requires RootsOfUnity(w, s + 1) && d == q * Pow2(s + 1) + m
    ensures m == 0 ==> w.W(Pow2(s + 1), d) == w.ring.one
    ensures m == Pow2(s) ==> w.W(Pow2(s + 1), d) == w.ring.neg(w.ring.one)
  {
    var n, one := Pow2(s + 1), w.ring.one;
    WholeTurns(w, s + 1, q);
    assert Turns(w, n, q * n, m) && Halves(w, Pow2(s), 0);
    assert RingLaw(w.ring, one, w.ring.neg(one), one) && RingLaw(w.ring, w.ring.neg(one), one, one);
  }

  lemma StepsAdd<T(!new)>(w: Roots<T>, s: nat, j: nat, d: nat, k: nat)
    requires RootsOfUnity(w, s)
    ensures w.Mul(w.W(Pow2(s), j * d), w.W(Pow2(s), j * k)) == w.W(Pow2(s), j * (d + k))
  {
    assert Turns(w, Pow2(s), j * d, j * k);
    assert j * d + j * k == j * (d + k);
  }

  lemma ToneTerms<T(!new)>(w: Roots<T>, s: nat, d: nat, k: nat)
    requires RootsOfUnity(w, s)
    ensures Terms(w, Tone(w, Pow2(s), d), k) == Tone(w, Pow2(s), d + k)
  {
    forall j: nat | j < Pow2(s) ensures Terms(w, Tone(w, Pow2(s), d), k)[j] == Tone(w, Pow2(s), d + k)[j] {
      StepsAdd(w, s, j, d, k);
    }
  }

  /** A tone centred on bin `f` fills that bin with `n` and leaves every other
      bin at zero. */
  lemma ToneFillsItsBin<T(!new)>(w: Roots<T>, s: nat, f: nat, k: nat)
    requires RootsOfUnity(w, s) && f < Pow2(s) && k < Pow2(s)
    ensures Dft(w, Tone(w, Pow2(s), Pow2(s) - f))[k] == if k == f then Power(w.ring, s) else w.ring.zero
  {
    var d := Pow2(s) - f;
    ToneTerms(w, s, d, k);
    if k < f {
      TonesCancel(w, s, d + k, 0, d + k);
    } else {
      TonesCancel(w, s, d + k, 1, k - f);
    }
  }
}
