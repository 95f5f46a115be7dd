/** Transfer-function evaluators: a Laplace transfer function given by gain,
    zeros and poles, and a Z transfer function given by coefficient lists in
    powers of z⁻¹. */
module Transform {
  import opened Outcomes
  import opened Numeric
  import opened Complex
  import Filtering
  import SystemAnalyzer

  // ---------------------------------------------------------------------------
  // Laplace transform

  /** Π (s − r) over the roots. */
  function Product(s: Complex, roots: seq<Complex>): Complex
    decreases |roots|
  {
    if |roots| == 0 then One else Mul(Sub(s, roots[0]), Product(s, roots[1..]))
  }

  /** The evaluator's loop: the accumulator is multiplied by (s − r) for each
      root in turn. */
  function FoldFactors(acc: Complex, s: Complex, roots: seq<Complex>): Complex
    decreases |roots|
  {
    if |roots| == 0 then acc else FoldFactors(Mul(acc, Sub(s, roots[0])), s, roots[1..])
  }

  /** The loop computes the start value times the product of the factors. */
  lemma {:induction false} FoldIsProduct(acc: Complex, s: Complex, roots: seq<Complex>)
    ensures FoldFactors(acc, s, roots) == Mul(acc, Product(s, roots))
    decreases |roots|
  {
    if |roots| == 0 {
      MulOne(acc);
    } else {
      var f := Sub(s, roots[0]);
      FoldIsProduct(Mul(acc, f), s, roots[1..]);
      MulAssoc(acc, f, Product(s, roots[1..]));
    }
  }

  /** The product of the factors vanishes exactly at a root. */
  lemma {:induction false} ProductZero(s: Complex, roots: seq<Complex>)
    ensures Product(s, roots) == Zero <==> s in roots
    decreases |roots|
  {
    if |roots| > 0 {
      ProductZero(s, roots[1..]);
      ZeroProduct(Sub(s, roots[0]), Product(s, roots[1..]));
      assert Sub(s, roots[0]) == Zero <==> s == roots[0];
      assert s in roots <==> s == roots[0] || s in roots[1..] by {
        assert roots == [roots[0]] + roots[1..];
      }
    }
  }

  /** `LaplaceTransform.evaluate`: gain·Π(s − zᵢ) divided by Π(s − pⱼ); a
      vanishing denominator is a division by zero. */
  function LaplaceEvaluate(s: Complex, poles: seq<Complex>, zeros: seq<Complex>, gain: real): (r: Result<Complex>)
    ensures r.Err? <==> s in poles
    ensures r.Err? ==> r.error == DivisionByZero
    ensures r.Ok? ==> Mul(r.value, Product(s, poles)) == Mul(Of(gain), Product(s, zeros))
  {
    var numerator := FoldFactors(Of(gain), s, zeros);
    var denominator := FoldFactors(One, s, poles);
    FoldIsProduct(Of(gain), s, zeros);
    FoldIsProduct(One, s, poles);
    MulOne(Product(s, poles));
    ProductZero(s, poles);
    if denominator == Zero then Err(DivisionByZero)
    else Ok(Div(numerator, denominator))
  }

  /** Away from the poles, the value is the one complex number h with
      h·Π(s − pⱼ) = gain·Π(s − zᵢ). */
  lemma LaplaceCharacterised(s: Complex, poles: seq<Complex>, zeros: seq<Complex>, gain: real, h: Complex)
    requires s !in poles
    ensures (Mul(h, Product(s, poles)) == Mul(Of(gain), Product(s, zeros)))
              <==> (LaplaceEvaluate(s, poles, zeros, gain) == Ok(h))
  {
    ProductZero(s, poles);
    var r := LaplaceEvaluate(s, poles, zeros, gain).value;
    if Mul(h, Product(s, poles)) == Mul(Of(gain), Product(s, zeros)) {
      DivUnique(Mul(Of(gain), Product(s, zeros)), Product(s, poles), h);
      DivUnique(Mul(Of(gain), Product(s, zeros)), Product(s, poles), r);
    }
  }

  /** Without zeros or poles the transfer function is the constant gain. */
  lemma LaplaceConstant(s: Complex, gain: real)
    ensures LaplaceEvaluate(s, [], [], gain) == Ok(Of(gain))
  {
    MulOne(Of(gain));
    LaplaceCharacterised(s, [], [], gain, Of(gain));
  }

  /** At a zero that is not also a pole the transfer function vanishes. */
  lemma LaplaceAtZero(s: Complex, poles: seq<Complex>, zeros: seq<Complex>, gain: real)
    requires s in zeros && s !in poles
    ensures LaplaceEvaluate(s, poles, zeros, gain) == Ok(Zero)
  {
    ProductZero(s, zeros);
    ZeroProduct(Of(gain), Product(s, zeros));
    ZeroProduct(Zero, Product(s, poles));
    LaplaceCharacterised(s, poles, zeros, gain, Zero);
  }

  // ---------------------------------------------------------------------------
  // Z transform

  /** Σ_{k ≥ j} c[k]·w^k: a coefficient list read as a polynomial in w = z⁻¹. */
  function Series(c: seq<real>, w: Complex, j: nat): Complex
    decreases |c| - j
  {
    if j >= |c| then Zero else Add(Mul(Of(c[j]), Pow(w, j)), Series(c, w, j + 1))
  }

  lemma SeriesSingle(c: real, w: Complex)
    ensures Series([c], w, 0) == Of(c)
  {
    MulOne(Of(c));
  }

  /** At z = 1 every power is 1, so the series is the plain coefficient sum. */
  lemma {:induction false} SeriesAtOne(c: seq<real>, j: nat)
    requires j <= |c|
    ensures Series(c, One, j) == Of(Sum(c[j..]))
    decreases |c| - j
  {
    if j < |c| {
      calc {
        Series(c, One, j);
        Add(Mul(Of(c[j]), Pow(One, j)), Series(c, One, j + 1));
      == { PowOne(j); }
        Add(Mul(Of(c[j]), One), Series(c, One, j + 1));
      == { MulOne(Of(c[j])); }
        Add(Of(c[j]), Series(c, One, j + 1));
      == { SeriesAtOne(c, j + 1); }
        Add(Of(c[j]), Of(Sum(c[j + 1..])));
        Of(c[j] + Sum(c[j + 1..]));
      == { assert c[j..][1..] == c[j + 1..]; }
        Of(Sum(c[j..]));
      }
    }
  }

  lemma SeriesSumAtOne(c: seq<real>, w: Complex)
    requires w == One
    ensures Series(c, w, 0) == Of(Sum(c))
  {
    SeriesAtOne(c, 0);
    assert c[0..] == c;
  }

  /** A real quotient seen as a complex one. */
  lemma QuotientOf(p: real, q: real)
    requires q != 0.0
    ensures Div(Of(p), Of(q)) == Of(p / q)
  {
    Quotient(p, q);
    assert Mul(Of(p / q), Of(q)) == Of(p);
    DivUnique(Of(p), Of(q), Of(p / q));
  }

  /** The quotient of two series, failing when the denominator vanishes. */
  function Ratio(num: Complex, den: Complex): (r: Result<Complex>)
    ensures r.Err? <==> den == Zero
    ensures r.Err? ==> r.error == DivisionByZero
    ensures r.Ok? ==> Mul(r.value, den) == num
  {
    if den == Zero then Err(DivisionByZero) else Ok(Div(num, den))
  }

  lemma RatioOfReals(p: real, q: real, num: Complex, den: Complex)
    requires num == Of(p) && den == Of(q)
    ensures Ratio(num, den) == if q == 0.0 then Err(DivisionByZero) else Ok(Of(p / q))
  {
    if q != 0.0 {
      QuotientOf(p, q);
    }
  }

  lemma SingleCoefficientRatio(b: seq<real>, a: seq<real>, w: Complex)
    requires |b| == 1 && |a| == 1
    ensures Ratio(Series(b, w, 0), Series(a, w, 0))
              == if a[0] == 0.0 then Err(DivisionByZero) else Ok(Of(b[0] / a[0]))
  {
    assert b == [b[0]] && a == [a[0]];
    SeriesSingle(b[0], w);
    SeriesSingle(a[0], w);
    RatioOfReals(b[0], a[0], Series(b, w, 0), Series(a, w, 0));
  }

  lemma UnitRatio(b: seq<real>, a: seq<real>, w: Complex)
    requires w == One
    ensures Ratio(Series(b, w, 0), Series(a, w, 0))
              == if Sum(a) == 0.0 then Err(DivisionByZero) else Ok(Of(Sum(b) / Sum(a)))
  {
    SeriesSumAtOne(b, w);
    SeriesSumAtOne(a, w);
    RatioOfReals(Sum(b), Sum(a), Series(b, w, 0), Series(a, w, 0));
  }

  lemma InvAtOne(z: Complex)
    requires z == One
    ensures z != Zero && Inv(z) == One
  {
    InvOne();
  }

  /** `ZTransform.evaluate`: Σ b[k]·z⁻ᵏ divided by Σ a[k]·z⁻ᵏ. At z = 0 a
      negative power is not finite, and neither is a quotient by a vanishing
      denominator; both come out as a division by zero. Single coefficients
      give b0/a0 at every z, and at z = 1 the value is Σb/Σa. */
  function ZEvaluate(z: Complex, b: seq<real>, a: seq<real>): (r: Result<Complex>)
    ensures z == Zero && (|b| > 1 || |a| > 1) ==> r == Err(DivisionByZero)
    ensures z != Zero ==> (r.Err? <==> Series(a, Inv(z), 0) == Zero)
    ensures z != Zero && r.Ok? ==> Mul(r.value, Series(a, Inv(z), 0)) == Series(b, Inv(z), 0)
    ensures r.Err? ==> r.error == DivisionByZero
    ensures |b| == 1 && |a| == 1 ==>
              r == if a[0] == 0.0 then Err(DivisionByZero) else Ok(Of(b[0] / a[0]))
    ensures z == One ==>
              r == if Sum(a) == 0.0 then Err(DivisionByZero) else Ok(Of(Sum(b) / Sum(a)))
  {
    if z == Zero && (|b| > 1 || |a| > 1) then Err(DivisionByZero)
    else
      var w := if z == Zero then Zero else Inv(z);
      var num := Series(b, w, 0);
      var den := Series(a, w, 0);
      assert |b| == 1 && |a| == 1 ==>
               Ratio(num, den) == if a[0] == 0.0 then Err(DivisionByZero) else Ok(Of(b[0] / a[0])) by {
        if |b| == 1 && |a| == 1 {
          SingleCoefficientRatio(b, a, w);
        }
      }
      assert z == One ==>
               Ratio(num, den) == if Sum(a) == 0.0 then Err(DivisionByZero) else Ok(Of(Sum(b) / Sum(a))) by {
        if z == One {
          InvAtOne(z);
          UnitRatio(b, a, w);
        }
      }
      Ratio(num, den)
  }

  /** A moving average has gain 1 at zero frequency. */
  lemma MovingAverageDcGain(window: int)
    ensures var ba := SystemAnalyzer.MovingAverageCoefficients(window);
              ZEvaluate(One, ba.0, ba.1) == Ok(One)
  {
    var ba := SystemAnalyzer.MovingAverageCoefficients(window);
    assert Sum(ba.1) == 1.0;
  }

  /** Without feedback, the gain at zero frequency is Σb / a0. */
  lemma FirDcGain(b: seq<real>, a0: real)
    requires a0 != 0.0
    ensures ZEvaluate(One, b, [a0]) == Ok(Of(1.0 * Sum(b) / a0))
  {
    assert Sum([a0]) == a0 by {
      assert [a0][1..] == [];
    }
    assert 1.0 * Sum(b) / a0 == Sum(b) / a0;
  }

  /** The step response of a system without feedback settles, once every tap
      sees the step, on its gain at zero frequency. */
  lemma StepSettlesToDcGain(b: seq<real>, a0: real, len: nat, n: nat)
    requires a0 != 0.0
    requires |b| - 1 <= n < len
    ensures ZEvaluate(One, b, [a0]) == Ok(Of(Filtering.LFilter(b, [a0], Constant(len, 1.0))[n]))
  {
    FirDcGain(b, a0);
    Filtering.FirSettles(b, [a0], len, 1.0, n);
  }
}
