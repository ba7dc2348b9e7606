/**
 Commutative rings as values, and the ring of complex numbers over `real`. The
 transform is proved over any ring, so that its proofs never meet products of
 reals; the arrays instantiate it.
*/
module Rings {

  datatype Ring<!T> = Ring(zero: T, one: T, add: (T, T) -> T, neg: T -> T, mul: (T, T) -> T) {
    function Sub(a: T, b: T): T {
      add(a, neg(b))
    }
  }

  ghost predicate RingLaw<T>(r: Ring<T>, a: T, b: T, c: T) {
    && r.add(a, r.add(b, c)) == r.add(r.add(a, b), c)
    && r.add(a, b) == r.add(b, a)
    && r.add(a, r.zero) == a
    && r.add(a, r.neg(a)) == r.zero
    && r.neg(r.neg(a)) == a
    && r.mul(a, r.mul(b, c)) == r.mul(r.mul(a, b), c)
    && r.mul(a, b) == r.mul(b, a)
    && r.mul(a, r.one) == a
    && r.mul(r.neg(a), b) == r.neg(r.mul(a, b))
    && r.mul(a, r.add(b, c)) == r.add(r.mul(a, b), r.mul(a, c))
  }

  ghost predicate IsRing<T(!new)>(r: Ring<T>) {
    forall a, b, c :: RingLaw(r, a, b, c)
  }

  lemma Interchange<T(!new)>(r: Ring<T>, e: T, o: T, p: T, q: T)
    requires IsRing(r)
    ensures r.add(r.add(r.add(e, o), p), q) == r.add(r.add(e, p), r.add(o, q))
  {
    assert RingLaw(r, e, o, p) && RingLaw(r, e, p, o) && RingLaw(r, o, p, p);
    assert RingLaw(r, r.add(e, p), o, q);
  }

  lemma Rotate<T(!new)>(r: Ring<T>, a: T, b: T, c: T)
    requires IsRing(r)
    ensures r.mul(a, r.mul(b, c)) == r.mul(c, r.mul(a, b))
  {
    assert RingLaw(r, a, b, c) && RingLaw(r, r.mul(a, b), c, c);
  }

  lemma TimesZero<T(!new)>(r: Ring<T>, a: T)
    requires IsRing(r)
    ensures r.mul(a, r.zero) == r.zero
  {
    var p := r.mul(a, r.zero);
    assert RingLaw(r, r.zero, p, p) && RingLaw(r, a, r.zero, r.zero);
    assert r.add(p, p) == p;
    assert RingLaw(r, p, p, r.neg(p));
  }

  lemma NegatedFactor<T(!new)>(r: Ring<T>, e: T, u: T, o: T)
    requires IsRing(r)
    ensures r.add(e, r.mul(r.mul(u, r.neg(r.one)), o)) == r.Sub(e, r.mul(u, o))
  {
    assert RingLaw(r, u, r.neg(r.one), o) && RingLaw(r, r.one, u, u) && RingLaw(r, u, r.one, o);
    assert RingLaw(r, u, o, o);
  }

  datatype Complex = Complex(re: real, im: real)

  function CAdd(a: Complex, b: Complex): Complex {
    Complex(a.re + b.re, a.im + b.im)
  }

  function CNeg(a: Complex): Complex {
    Complex(-a.re, -a.im)
  }

  function CMul(a: Complex, b: Complex): Complex {
    Complex(a.re * b.re - a.im * b.im, a.re * b.im + a.im * b.re)
  }

  const COMPLEX: Ring<Complex> :=
    Ring(Complex(0.0, 0.0), Complex(1.0, 0.0), (a, b) => CAdd(a, b), a => CNeg(a), (a, b) => CMul(a, b))

  lemma ComplexIsRing()
    ensures IsRing(COMPLEX)
  {
    forall a, b, c ensures RingLaw(COMPLEX, a, b, c) {
      MulAssoc(a, b, c);
      MulDistributes(a, b, c);
      MulUnits(a, b);
    }
  }

  lemma MulAssoc(a: Complex, b: Complex, c: Complex)
    ensures CMul(a, CMul(b, c)) == CMul(CMul(a, b), c)
  {
  }

  lemma MulDistributes(a: Complex, b: Complex, c: Complex)
    ensures CMul(a, CAdd(b, c)) == CAdd(CMul(a, b), CMul(a, c))
  {
  }

  lemma MulUnits(a: Complex, b: Complex)
    ensures CMul(a, b) == CMul(b, a) && CMul(a, Complex(1.0, 0.0)) == a
    ensures CMul(CNeg(a), b) == CNeg(CMul(a, b))
  {
  }
}
