/** The `Complex` value type: a pair of doubles with the usual arithmetic,
    modelled over exact reals. `sqr(x)` is taken to be `x * x`. */
module ComplexMath {

  datatype Complex = Complex(re: real, im: real) {

    /** `magnitudeSquared()`: re² + im², never negative, and zero exactly
        at the origin. */
    function MagnitudeSquared(): (r: real)
      ensures r >= 0.0
      ensures r == 0.0 <==> this == Zero
    {
      SquareSign(re);
      SquareSign(im);
      Sqr(re) + Sqr(im)
    }

    /** `operator*(double)`: both parts scaled by the same real. */
    function Scale(rhs: real): (r: Complex)
      ensures rhs != 0.0 ==> r.DivScalar(rhs) == this
    {
      var s := Complex(re * rhs, im * rhs);
      if rhs != 0.0 then
        CancelFactor(re, rhs);
        CancelFactor(im, rhs);
        s
      else
        s
    }

    /** `operator/(double)`: the divisor must not be zero. */
    function DivScalar(rhs: real): (r: Complex)
      requires rhs != 0.0
      ensures Complex(r.re * rhs, r.im * rhs) == this
    {
      Complex(re / rhs, im / rhs)
    }

    /** `operator*(const Complex&)`. */
    function Mul(rhs: Complex): (r: Complex)
      ensures r.MagnitudeSquared() == MagnitudeSquared() * rhs.MagnitudeSquared()
    {
      MulMagnitude(this, rhs);
      Complex(re * rhs.re - im * rhs.im, re * rhs.im + im * rhs.re)
    }

    /** `operator/(const Complex&)`: multiplication by the conjugate over
        the squared magnitude of the divisor, which must not be zero.
        Division undoes multiplication by the divisor. */
    function Div(rhs: Complex): (r: Complex)
      requires rhs.MagnitudeSquared() != 0.0
      ensures r.Mul(rhs) == this
    {
      var den := Sqr(rhs.re) + Sqr(rhs.im);
      DivMulCancel(this, rhs);
      Complex((re * rhs.re + im * rhs.im) / den, (im * rhs.re - re * rhs.im) / den)
    }

    /** `operator+(const Complex&)`: subtracting the addend part by part
        gives the original back. */
    function Add(rhs: Complex): (r: Complex)
      ensures Complex(r.re - rhs.re, r.im - rhs.im) == this
    {
      Complex(re + rhs.re, im + rhs.im)
    }

    /** `operator-(const Complex&)`: subtraction is adding the negation. */
    function Sub(rhs: Complex): (r: Complex)
      ensures r == Add(rhs.Neg())
    {
      Complex(re - rhs.re, im - rhs.im)
    }

    /** Unary `operator-()`: the additive inverse. */
    function Neg(): (r: Complex)
      ensures Add(r) == Zero
    {
      Complex(-re, -im)
    }
  }

  const Zero := Complex(0.0, 0.0)

  /** `sqr` of the program's math helpers, assumed to be the square. */
  function Sqr(x: real): real { x * x }

  /** Product of two reals, kept as a named term so that sign facts about
      a square stay attached to it in the solver. */
  function Times(a: real, b: real): real { a * b }

  lemma ProductSign(a: real, b: real)
    ensures a > 0.0 && b > 0.0 ==> Times(a, b) > 0.0
    ensures a < 0.0 && b < 0.0 ==> Times(a, b) > 0.0
    ensures a == 0.0 ==> Times(a, b) == 0.0
  {
    if a < 0.0 && b < 0.0 {
      assert a * b == (-a) * (-b);
    }
  }

  lemma SquareSign(x: real)
    ensures Sqr(x) >= 0.0
    ensures x != 0.0 ==> Sqr(x) > 0.0
    ensures x == 0.0 ==> Sqr(x) == 0.0
  {
    ProductSign(x, x);
  }

  lemma CancelFactor(x: real, d: real)
    requires d != 0.0
    ensures (x * d) / d == x
  {
  }

  lemma MulMagnitude(a: Complex, b: Complex)
    ensures Sqr(a.re * b.re - a.im * b.im) + Sqr(a.re * b.im + a.im * b.re)
         == (Sqr(a.re) + Sqr(a.im)) * (Sqr(b.re) + Sqr(b.im))
  {
  }

  /** The real identity behind division: with den = br² + bi², the
      quotient's parts multiply back to the dividend's parts. */
  lemma DivParts(ar: real, ai: real, br: real, bi: real)
    requires Sqr(br) + Sqr(bi) != 0.0
    ensures var den := Sqr(br) + Sqr(bi);
            ((ar * br + ai * bi) / den) * br - ((ai * br - ar * bi) / den) * bi == ar &&
            ((ar * br + ai * bi) / den) * bi + ((ai * br - ar * bi) / den) * br == ai
  {
    var den := Sqr(br) + Sqr(bi);
    var x := ar * br + ai * bi;
    var y := ai * br - ar * bi;
    assert x * br - y * bi == ar * den;
    assert x * bi + y * br == ai * den;
    assert (x / den) * br - (y / den) * bi == (x * br - y * bi) / den;
    assert (x / den) * bi + (y / den) * br == (x * bi + y * br) / den;
    CancelFactor(ar, den);
    CancelFactor(ai, den);
  }

  lemma DivMulCancel(a: Complex, b: Complex)
    requires Sqr(b.re) + Sqr(b.im) != 0.0
    ensures var den := Sqr(b.re) + Sqr(b.im);
            var q := Complex((a.re * b.re + a.im * b.im) / den, (a.im * b.re - a.re * b.im) / den);
            q.Mul(b) == a
  {
    DivParts(a.re, a.im, b.re, b.im);
  }

  // ---------------------------------------------------------------------
  // Compound assignments. Each one updates the fields of its left operand
  // in the order the program does; `*=` and `/=` compute both new parts
  // into temporaries before the first field is written.

  method ScaleAssign(a: Complex, rhs: real) returns (a': Complex)
    ensures a' == a.Scale(rhs)
  {
    a' := a;
    a' := a'.(re := a'.re * rhs);
    a' := a'.(im := a'.im * rhs);
  }

  method DivScalarAssign(a: Complex, rhs: real) returns (a': Complex)
    requires rhs != 0.0
    ensures a' == a.DivScalar(rhs)
  {
    a' := a;
    a' := a'.(re := a'.re / rhs);
    a' := a'.(im := a'.im / rhs);
  }

  method MulAssign(a: Complex, rhs: Complex) returns (a': Complex)
    ensures a' == a.Mul(rhs)
  {
    var r := a.re * rhs.re - a.im * rhs.im;
    var i := a.re * rhs.im + a.im * rhs.re;
    a' := a;
    a' := a'.(re := r);
    a' := a'.(im := i);
  }

  method DivAssign(a: Complex, rhs: Complex) returns (a': Complex)
    requires rhs.MagnitudeSquared() != 0.0
    ensures a' == a.Div(rhs)
  {
    var denom := Sqr(rhs.re) + Sqr(rhs.im);
    var r := (a.re * rhs.re + a.im * rhs.im) / denom;
    var i := (a.im * rhs.re - a.re * rhs.im) / denom;
    a' := a;
    a' := a'.(re := r);
    a' := a'.(im := i);
  }

  method AddAssign(a: Complex, rhs: Complex) returns (a': Complex)
    ensures a' == a.Add(rhs)
  {
    a' := a;
    a' := a'.(re := a'.re + rhs.re);
    a' := a'.(im := a'.im + rhs.im);
  }

  method SubAssign(a: Complex, rhs: Complex) returns (a': Complex)
    ensures a' == a.Sub(rhs)
  {
    a' := a;
    a' := a'.(re := a'.re - rhs.re);
    a' := a'.(im := a'.im - rhs.im);
  }

  // ---------------------------------------------------------------------
  // Algebraic laws of the operators.

  /** Complex multiplication commutes. */
  lemma MulCommutes(a: Complex, b: Complex)
    ensures a.Mul(b) == b.Mul(a)
  {
  }

  /** Dividing a product by a nonzero factor gives the other factor back. */
  lemma MulDivRoundTrip(a: Complex, b: Complex)
    requires b.MagnitudeSquared() != 0.0
    ensures a.Mul(b).Div(b) == a
  {
    var p := a.Mul(b);
    var den := Sqr(b.re) + Sqr(b.im);
    assert p.re * b.re + p.im * b.im == a.re * den;
    assert p.im * b.re - p.re * b.im == a.im * den;
    CancelFactor(a.re, den);
    CancelFactor(a.im, den);
  }

  /** Scaling by a nonzero real and dividing by it again is the identity. */
  lemma ScaleRoundTrip(a: Complex, s: real)
    requires s != 0.0
    ensures a.Scale(s).DivScalar(s) == a
  {
  }
}
