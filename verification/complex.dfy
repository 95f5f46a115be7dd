/** Complex numbers as pairs of reals, with the field operations the
    transfer-function evaluators need. */
module Complex {

  datatype Complex = Complex(re: real, im: real)

  const Zero := Complex(0.0, 0.0)
  const One := Complex(1.0, 0.0)

  /** A real number seen as a complex one. */
  function Of(x: real): Complex {
    Complex(x, 0.0)
  }

  function Add(x: Complex, y: Complex): Complex {
    Complex(x.re + y.re, x.im + y.im)
  }

  function Sub(x: Complex, y: Complex): Complex {
    Complex(x.re - y.re, x.im - y.im)
  }

  function Mul(x: Complex, y: Complex): Complex {
    Complex(x.re * y.re - x.im * y.im, x.re * y.im + x.im * y.re)
  }

  /** |x|^2 */
  function NormSq(x: Complex): real {
    x.re * x.re + x.im * x.im
  }

  lemma NormSqPositive(x: Complex)
    requires x != Zero
    ensures NormSq(x) > 0.0
  {
    calc {
      NormSq(x);
      x.re * x.re + x.im * x.im;
    > { SumOfSquaresPositive(x.re, x.im); }
      0.0;
    }
  }

  lemma SumOfSquaresPositive(a: real, b: real)
    requires a != 0.0 || b != 0.0
    ensures a * a + b * b > 0.0
  {
    if a != 0.0 {
      assert a * a > 0.0;
      assert b * b >= 0.0;
    } else {
      assert b * b > 0.0;
      assert a * a == 0.0;
    }
  }

  /** The quotient: the unique `q` with `q * y == x`. */
  function Div(x: Complex, y: Complex): (q: Complex)
    requires y != Zero
    ensures Mul(q, y) == x
  {
    NormSqPositive(y);
    var n := NormSq(y);
    var q := Complex((x.re * y.re + x.im * y.im) / n, (x.im * y.re - x.re * y.im) / n);
    QuotientSolves(x.re, x.im, y.re, y.im, n, q.re, q.im);
    q
  }

  /** The real and imaginary parts of the quotient solve the two real equations
      of `q * y == x`. */
  lemma QuotientSolves(a: real, b: real, c: real, d: real, n: real, u: real, v: real)
    requires n == c * c + d * d && n > 0.0
    requires u == (a * c + b * d) / n && v == (b * c - a * d) / n
    ensures u * c - v * d == a && u * d + v * c == b
  {
    assert u * n == a * c + b * d;
    assert v * n == b * c - a * d;
    calc {
      (u * c - v * d) * n;
      (u * n) * c - (v * n) * d;
    == { Substitute(u * n, a * c + b * d, c); Substitute(v * n, b * c - a * d, d); }
      (a * c + b * d) * c - (b * c - a * d) * d;
      a * (c * c + d * d);
      a * n;
    }
    Cancel(u * c - v * d, a, n);
    calc {
      (u * d + v * c) * n;
      (u * n) * d + (v * n) * c;
    == { Substitute(u * n, a * c + b * d, d); Substitute(v * n, b * c - a * d, c); }
      (a * c + b * d) * d + (b * c - a * d) * c;
      b * (c * c + d * d);
      b * n;
    }
    Cancel(u * d + v * c, b, n);
  }

  lemma Substitute(s: real, t: real, k: real)
    requires s == t
    ensures s * k == t * k
  {
  }

  lemma Cancel(s: real, t: real, n: real)
    requires n != 0.0 && s * n == t * n
    ensures s == t
  {
    calc {
      s;
      (s * n) / n;
      (t * n) / n;
      t;
    }
  }

  /** The multiplicative inverse. */
  function Inv(z: Complex): (w: Complex)
    requires z != Zero
    ensures Mul(w, z) == One
  {
    Div(One, z)
  }

  /** w^k for a natural exponent. */
  function Pow(w: Complex, k: nat): Complex {
    if k == 0 then One else Mul(w, Pow(w, k - 1))
  }

  lemma MulAssoc(x: Complex, y: Complex, z: Complex)
    ensures Mul(Mul(x, y), z) == Mul(x, Mul(y, z))
  {
  }

  lemma MulOne(x: Complex)
    ensures Mul(x, One) == x && Mul(One, x) == x
  {
  }

  /** A product of complex numbers is zero exactly when a factor is. */
  lemma ZeroProduct(x: Complex, y: Complex)
    ensures Mul(x, y) == Zero <==> x == Zero || y == Zero
  {
    if x != Zero && Mul(x, y) == Zero {
      var a, b, c, d := x.re, x.im, y.re, y.im;
      assert a * c - b * d == 0.0 && a * d + b * c == 0.0;
      assert (a * a + b * b) * c == a * (a * c - b * d) + b * (a * d + b * c);
      assert (a * a + b * b) * d == a * (a * d + b * c) - b * (a * c - b * d);
      SumOfSquaresPositive(a, b);
      assert (a * a + b * b) * c == 0.0;
      assert (a * a + b * b) * d == 0.0;
    }
  }

  /** Division is the unique solution of `q * y == x`. */
  lemma DivUnique(x: Complex, y: Complex, q: Complex)
    requires y != Zero
    requires Mul(q, y) == x
    ensures q == Div(x, y)
  {
    var d := Div(x, y);
    assert Mul(Sub(q, d), y) == Zero;
    ZeroProduct(Sub(q, d), y);
  }

  lemma PowOne(k: nat)
    ensures Pow(One, k) == One
  {
  }

  lemma InvOne()
    ensures Inv(One) == One
  {
  }
}
