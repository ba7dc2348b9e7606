/**
 Where roots of unity come from: in any ring, an element one of whose powers of two
 is minus one gives all the twiddle factors the transform asks for.
*/
module UnityRoots {
  import opened Arithmetic
  import opened Rings
  import opened BitReversal
  import opened Fft

  /** `z` to the power `k`. */
  function Raised<T>(r: Ring<T>, z: T, k: nat): T {
    if k == 0 then r.one else r.mul(z, Raised(r, z, k - 1))
  }

  /** The `n`-th roots, for `n` a power of two up to `Pow2(t)`, whose root is `z`. */
  function RootsFrom<T>(r: Ring<T>, z: T, t: nat): Roots<T> {
    Roots(r, (n: nat, a: nat) => if n == 0 then r.one else Raised(r, z, Pow2(t) / n * a))
  }

  lemma {:induction false} RaisedAdds<T(!new)>(r: Ring<T>, z: T, a: nat, b: nat)
    requires IsRing(r)
    ensures r.mul(Raised(r, z, a), Raised(r, z, b)) == Raised(r, z, a + b)
  {
    var y := Raised(r, z, b);
    if a == 0 {
      assert RingLaw(r, r.one, y, y) && RingLaw(r, y, r.one, y);
    } else {
      RaisedAdds(r, z, a - 1, b);
      assert RingLaw(r, z, Raised(r, z, a - 1), y);
    }
  }

  lemma {:induction false} Pow2Product(i: nat, j: nat)
    ensures Pow2(i) * Pow2(j) == Pow2(i + j)
  {
    if i == 0 {
    } else {
      Pow2Product(i - 1, j);
      Factor(Pow2(j), Pow2(i - 1), Pow2(i - 1));
    }
  }

  /** The step between neighbouring roots. */
  lemma StepOf(s: nat, t: nat)
    requires s <= t
    ensures Pow2(t) / Pow2(s) == Pow2(t - s)
  {
    Pow2Product(s, t - s);
    DivUnique(Pow2(t), Pow2(s), Pow2(t - s), 0);
  }

  lemma RootAt<T>(r: Ring<T>, z: T, t: nat, s: nat, a: nat)
    requires s <= t
    ensures RootsFrom(r, z, t).W(Pow2(s), a) == Raised(r, z, Pow2(t - s) * a)
  {
    StepOf(s, t);
  }

  lemma TheyTurn<T(!new)>(r: Ring<T>, z: T, t: nat, s: nat, a: nat, b: nat)
    requires IsRing(r) && s <= t
    ensures Turns(RootsFrom(r, z, t), Pow2(s), a, b)
  {
    var k := Pow2(t - s);
    RootAt(r, z, t, s, a);
    RootAt(r, z, t, s, b);
    RootAt(r, z, t, s, a + b);
    StepsAdd(r, z, k, a, b);
  }

  lemma StepsAdd<T(!new)>(r: Ring<T>, z: T, k: nat, a: nat, b: nat)
    requires IsRing(r)
    ensures r.mul(Raised(r, z, k * a), Raised(r, z, k * b)) == Raised(r, z, k * (a + b))
  {
    RaisedAdds(r, z, k * a, k * b);
    Factor(k, a, b);
  }

  lemma TheyHalve<T(!new)>(r: Ring<T>, z: T, t: nat, s: nat, a: nat)
    requires IsRing(r) && s < t && Raised(r, z, Pow2(t - 1)) == r.neg(r.one)
    ensures Halves(RootsFrom(r, z, t), Pow2(s), a)
  {
    var k := Pow2(t - s - 1);
    RootAt(r, z, t, s, a);
    RootAt(r, z, t, s + 1, 2 * a);
    RootAt(r, z, t, s + 1, Pow2(s));
    Pow2Product(t - s - 1, s);
    Twice(k, a);
  }

  lemma Twice(k: nat, a: nat)
    ensures k * (2 * a) == 2 * k * a
  {
  }

  lemma {:induction false} WholeCircles<T(!new)>(r: Ring<T>, z: T, n: nat, a: nat)
    requires IsRing(r) && Raised(r, z, n) == r.one
    ensures Raised(r, z, n * a) == r.one
  {
    if a == 0 {
    } else {
      WholeCircles(r, z, n, a - 1);
      RaisedAdds(r, z, n, n * (a - 1));
      Factor(n, 1, a - 1);
      assert RingLaw(r, r.one, r.one, r.one);
    }
  }

  lemma OneCircle<T(!new)>(r: Ring<T>, z: T, t: nat)
    requires IsRing(r) && t > 0 && Raised(r, z, Pow2(t - 1)) == r.neg(r.one)
    ensures Raised(r, z, Pow2(t)) == r.one
  {
    var minus := r.neg(r.one);
    RaisedAdds(r, z, Pow2(t - 1), Pow2(t - 1));
    assert RingLaw(r, r.one, minus, minus) && RingLaw(r, minus, r.one, r.one);
  }

  /** The laws the transform asks for hold of them. */
  lemma TheyAreRoots<T(!new)>(r: Ring<T>, z: T, t: nat)
    requires IsRing(r) && t > 0 && Raised(r, z, Pow2(t - 1)) == r.neg(r.one)
    ensures RootsOfUnity(RootsFrom(r, z, t), t)
  {
    var w := RootsFrom(r, z, t);
    OneCircle(r, z, t);
    forall a: nat ensures w.W(1, a) == r.one {
      RootAt(r, z, t, 0, a);
      WholeCircles(r, z, Pow2(t), a);
    }
    forall s: nat, a: nat, b: nat | s <= t ensures Turns(w, Pow2(s), a, b) {
      TheyTurn(r, z, t, s, a, b);
    }
    forall s: nat, a: nat | s < t ensures Halves(w, Pow2(s), a) {
      TheyHalve(r, z, t, s, a);
    }
  }

  const MINUS_I := Complex(0.0, -1.0)

  /** Over the complex numbers, -i is such an element: its square is minus one. So the
      laws `FftInPlace` asks for can be met. */
  lemma FourthRootsExist() returns (w: Roots<Complex>)
    ensures RootsOfUnity(w, 2) && w.ring == COMPLEX
  {
    ComplexIsRing();
    Squared(COMPLEX, MINUS_I);
    MinusOne();
    TheyAreRoots(COMPLEX, MINUS_I, 2);
    w := RootsFrom(COMPLEX, MINUS_I, 2);
  }

  lemma Squared<T(!new)>(r: Ring<T>, z: T)
    requires IsRing(r)
    ensures Raised(r, z, Pow2(1)) == r.mul(z, z)
  {
    assert Pow2(1) == 2 * Pow2(0);
    assert Raised(r, z, 1) == r.mul(z, Raised(r, z, 0));
    assert RingLaw(r, z, z, z);
  }

  lemma MinusOne()
    ensures CMul(MINUS_I, MINUS_I) == CNeg(Complex(1.0, 0.0))
  {
  }
}
