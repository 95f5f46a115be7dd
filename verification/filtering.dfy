/** The direct-form linear recurrence behind every `scipy.signal.lfilter` call:

      a[0]·y[n] = Σ_{k=0}^{|b|-1} b[k]·x[n−k] − Σ_{k=1}^{|a|-1} a[k]·y[n−k]

    with samples at negative indices read as 0. */
module Filtering {
  import opened Numeric

  /** s[i], or 0 outside the sequence (the recurrence's zero initial conditions). */
  function At(s: seq<real>, i: int): real {
    if 0 <= i < |s| then s[i] else 0.0
  }

  /** Σ_{k=lo}^{hi-1} c[k]·s[n−k] */
  function Taps(c: seq<real>, s: seq<real>, n: int, lo: nat, hi: nat): real
    requires lo <= hi <= |c|
    decreases hi - lo
  {
    if lo == hi then 0.0 else c[lo] * At(s, n - lo) + Taps(c, s, n, lo + 1, hi)
  }

  /** A coefficient pair the recurrence accepts: both arrays present and a
      leading denominator coefficient to divide by. */
  predicate WellFormed(b: seq<real>, a: seq<real>) {
    |b| > 0 && |a| > 0 && a[0] != 0.0
  }

  /** `lfilter(b, a, x)`: output n is computed from inputs 0..n and outputs 0..n-1. */
  function LFilter(b: seq<real>, a: seq<real>, x: seq<real>): (y: seq<real>)
    requires |a| > 0 && a[0] != 0.0
    ensures |y| == |x|
    decreases |x|
  {
    if |x| == 0 then []
    else
      var n := |x| - 1;
      var prev := LFilter(b, a, x[..n]);
      prev + [(Taps(b, x, n, 0, |b|) - Taps(a, prev, n, 1, |a|)) / a[0]]
  }

  /** Two sequences that read alike at every index below m. */
  predicate AgreeBelow(s: seq<real>, t: seq<real>, m: int) {
    forall i :: 0 <= i < m ==> At(s, i) == At(t, i)
  }

  /** The taps at time n only read samples n - lo and earlier. */
  lemma {:induction false} TapsAgree(c: seq<real>, s: seq<real>, t: seq<real>, n: int, lo: nat, hi: nat)
    requires lo <= hi <= |c|
    requires AgreeBelow(s, t, n - lo + 1)
    ensures Taps(c, s, n, lo, hi) == Taps(c, t, n, lo, hi)
    decreases hi - lo
  {
    if lo < hi {
      assert At(s, n - lo) == At(t, n - lo);
      TapsAgree(c, s, t, n, lo + 1, hi);
    }
  }

  /** Causality: a prefix of the input determines the same prefix of the output. */
  lemma {:induction false} LFilterPrefix(b: seq<real>, a: seq<real>, x: seq<real>, m: nat)
    requires |a| > 0 && a[0] != 0.0
    requires m <= |x|
    ensures LFilter(b, a, x[..m]) == LFilter(b, a, x)[..m]
    decreases |x|
  {
    if m < |x| {
      var n := |x| - 1;
      LFilterPrefix(b, a, x[..n], m);
      assert x[..n][..m] == x[..m];
    } else {
      assert x[..m] == x;
    }
  }

  /** The sample a filter appends after the outputs `prev` at time n. */
  function NextOutput(b: seq<real>, a: seq<real>, x: seq<real>, prev: seq<real>, n: int): real
    requires |a| > 0 && a[0] != 0.0
  {
    (Taps(b, x, n, 0, |b|) - Taps(a, prev, n, 1, |a|)) / a[0]
  }

  lemma LFilterLast(b: seq<real>, a: seq<real>, x: seq<real>)
    requires |a| > 0 && a[0] != 0.0
    requires |x| > 0
    ensures LFilter(b, a, x)[|x| - 1] == NextOutput(b, a, x, LFilter(b, a, x[..|x| - 1]), |x| - 1)
  {
  }

  /** Every output sample satisfies the recurrence over the whole input and output. */
  lemma LFilterAt(b: seq<real>, a: seq<real>, x: seq<real>, n: nat)
    requires |a| > 0 && a[0] != 0.0
    requires n < |x|
    ensures LFilter(b, a, x)[n] == NextOutput(b, a, x, LFilter(b, a, x), n)
  {
    var y := LFilter(b, a, x);
    var xp := x[..n + 1];
    LFilterPrefix(b, a, x, n + 1);
    LFilterPrefix(b, a, x, n);
    assert xp[..n] == x[..n];
    var prev := LFilter(b, a, x[..n]);
    assert prev == y[..n];
    LFilterLast(b, a, xp);
    assert y[n] == LFilter(b, a, xp)[n];
    TapsAgree(b, xp, x, n, 0, |b|);
    TapsAgree(a, prev, y, n, 1, |a|);
  }

  /** `y` is a solution of the recurrence driven by `x`. */
  ghost predicate Solves(b: seq<real>, a: seq<real>, x: seq<real>, y: seq<real>)
    requires |a| > 0 && a[0] != 0.0
  {
    |y| == |x| && forall n :: 0 <= n < |x| ==> y[n] == NextOutput(b, a, x, y, n)
  }

  lemma LFilterSolves(b: seq<real>, a: seq<real>, x: seq<real>)
    requires |a| > 0 && a[0] != 0.0
    ensures Solves(b, a, x, LFilter(b, a, x))
  {
    forall n | 0 <= n < |x|
      ensures LFilter(b, a, x)[n] == NextOutput(b, a, x, LFilter(b, a, x), n)
    {
      LFilterAt(b, a, x, n);
    }
  }

  /** An output that obeys the recurrence at time n, with a[0] multiplied back. */
  lemma SolutionEquation(b: seq<real>, a: seq<real>, x: seq<real>, y: seq<real>, n: nat)
    requires |a| > 0 && a[0] != 0.0
    requires n < |y| && y[n] == NextOutput(b, a, x, y, n)
    ensures a[0] * y[n] + Taps(a, y, n, 1, |a|) == Taps(b, x, n, 0, |b|)
  {
    var v := NextOutput(b, a, x, y, n);
    NextOutputEquation(b, a, x, y, n);
    ScaleEqual(y[n], v, a[0]);
  }

  /** Multiplying the next output back by a[0] restores the numerator taps minus the feedback. */
  lemma NextOutputEquation(b: seq<real>, a: seq<real>, x: seq<real>, y: seq<real>, n: int)
    requires |a| > 0 && a[0] != 0.0
    ensures a[0] * NextOutput(b, a, x, y, n) + Taps(a, y, n, 1, |a|) == Taps(b, x, n, 0, |b|)
  {
    UndoQuotient(NextOutput(b, a, x, y, n), a[0], Taps(a, y, n, 1, |a|), Taps(b, x, n, 0, |b|));
  }

  lemma UndoQuotient(v: real, d: real, fb: real, ff: real)
    requires d != 0.0 && v == (ff - fb) / d
    ensures d * v + fb == ff
  {
    MulDiv(ff - fb, d);
  }

  lemma ScaleEqual(u: real, v: real, k: real)
    requires u == v
    ensures k * u == k * v
  {
  }

  lemma DivBoth(p: real, q: real, d: real)
    requires p == q && d != 0.0
    ensures p / d == q / d
  {
  }

  lemma MulDiv(p: real, q: real)
    requires q != 0.0
    ensures q * (p / q) == p
  {
  }

  /** Without feedback (|a| = 1) each output of a solution is the weighted window of inputs. */
  lemma FirSolution(b: seq<real>, a: seq<real>, x: seq<real>, y: seq<real>, n: nat)
    requires |a| == 1 && a[0] != 0.0
    requires Solves(b, a, x, y) && n < |x|
    ensures y[n] == Taps(b, x, n, 0, |b|) / a[0]
  {
    calc {
      y[n];
      NextOutput(b, a, x, y, n);
      (Taps(b, x, n, 0, |b|) - Taps(a, y, n, 1, 1)) / a[0];
      Taps(b, x, n, 0, |b|) / a[0];
    }
  }

  /** Without feedback (|a| = 1) each output is the weighted window of inputs. */
  lemma FirOutput(b: seq<real>, a: seq<real>, x: seq<real>, n: nat)
    requires |a| == 1 && a[0] != 0.0
    requires n < |x|
    ensures LFilter(b, a, x)[n] == Taps(b, x, n, 0, |b|) / a[0]
  {
    LFilterSolves(b, a, x);
    FirSolution(b, a, x, LFilter(b, a, x), n);
  }

  /** The unit impulse of length n. */
  function UnitImpulse(n: nat): (s: seq<real>)
    ensures |s| == n
    ensures forall i :: 0 <= i < n ==> s[i] == if i == 0 then 1.0 else 0.0
  {
    seq(n, i => if i == 0 then 1.0 else 0.0)
  }

  /** Driving the taps with a unit impulse reads back one coefficient. */
  lemma {:induction false} TapsImpulse(c: seq<real>, len: nat, n: nat, lo: nat, hi: nat)
    requires lo <= hi <= |c|
    requires n < len
    ensures Taps(c, UnitImpulse(len), n, lo, hi) == if lo <= n < hi then c[n] else 0.0
    decreases hi - lo
  {
    if lo < hi {
      TapsImpulse(c, len, n, lo + 1, hi);
    }
  }

  lemma FirImpulseSolution(b: seq<real>, a: seq<real>, len: nat, y: seq<real>, n: nat)
    requires |a| == 1 && a[0] != 0.0
    requires Solves(b, a, UnitImpulse(len), y) && n < len
    ensures y[n] == if n < |b| then b[n] / a[0] else 0.0
  {
    FirSolution(b, a, UnitImpulse(len), y, n);
    TapsImpulse(b, len, n, 0, |b|);
  }

  /** The impulse response of a system without feedback is its numerator, padded with zeros. */
  lemma FirImpulseResponse(b: seq<real>, a: seq<real>, len: nat, n: nat)
    requires |a| == 1 && a[0] != 0.0
    requires n < len
    ensures LFilter(b, a, UnitImpulse(len))[n] == if n < |b| then b[n] / a[0] else 0.0
  {
    LFilterSolves(b, a, UnitImpulse(len));
    FirImpulseSolution(b, a, len, LFilter(b, a, UnitImpulse(len)), n);
  }

  /** Once the window is full, taps over a constant input add up the coefficients. */
  lemma {:induction false} TapsConstant(c: seq<real>, len: nat, v: real, n: nat, lo: nat, hi: nat)
    requires lo <= hi <= |c|
    requires hi <= n + 1 && n < len
    ensures Taps(c, Constant(len, v), n, lo, hi) == v * Sum(c[lo..hi])
    decreases hi - lo
  {
    if lo < hi {
      TapsConstant(c, len, v, n, lo + 1, hi);
      assert c[lo..hi][1..] == c[lo + 1..hi];
      calc {
        Taps(c, Constant(len, v), n, lo, hi);
        c[lo] * v + v * Sum(c[lo + 1..hi]);
        v * (c[lo] + Sum(c[lo + 1..hi]));
        v * Sum(c[lo..hi]);
      }
    } else {
      assert c[lo..hi] == [];
    }
  }

  lemma FirConstantSolution(b: seq<real>, a: seq<real>, len: nat, v: real, y: seq<real>, n: nat)
    requires |a| == 1 && a[0] != 0.0
    requires Solves(b, a, Constant(len, v), y) && |b| - 1 <= n < len
    ensures y[n] == v * Sum(b) / a[0]
  {
    FirSolution(b, a, Constant(len, v), y, n);
    ConstantWindowQuotient(b, a[0], len, v, n, y[n]);
  }

  lemma ConstantWindowQuotient(b: seq<real>, d: real, len: nat, v: real, n: nat, r: real)
    requires d != 0.0 && |b| - 1 <= n < len
    requires r == Taps(b, Constant(len, v), n, 0, |b|) / d
    ensures r == v * Sum(b) / d
  {
    calc {
      r;
      Taps(b, Constant(len, v), n, 0, |b|) / d;
    == { TapsConstantWindow(b, len, v, n); DivBoth(Taps(b, Constant(len, v), n, 0, |b|), v * Sum(b), d); }
      v * Sum(b) / d;
    }
  }

  lemma TapsConstantWindow(b: seq<real>, len: nat, v: real, n: nat)
    requires |b| - 1 <= n < len
    ensures Taps(b, Constant(len, v), n, 0, |b|) == v * Sum(b)
  {
    TapsConstant(b, len, v, n, 0, |b|);
    assert b[0..|b|] == b;
  }

  /** A system without feedback settles on v·Σb/a[0] for a constant input v once
      |b| − 1 samples have gone by. */
  lemma FirSettles(b: seq<real>, a: seq<real>, len: nat, v: real, n: nat)
    requires |a| == 1 && a[0] != 0.0
    requires |b| - 1 <= n < len
    ensures LFilter(b, a, Constant(len, v))[n] == v * Sum(b) / a[0]
  {
    LFilterSolves(b, a, Constant(len, v));
    FirConstantSolution(b, a, len, v, LFilter(b, a, Constant(len, v)), n);
  }

  lemma StaticGainSolution(b: seq<real>, a: seq<real>, x: seq<real>, y: seq<real>, n: nat)
    requires |b| == 1 && |a| == 1 && a[0] != 0.0
    requires Solves(b, a, x, y) && n < |x|
    ensures y[n] == b[0] * x[n] / a[0]
  {
    calc {
      y[n];
    == { FirSolution(b, a, x, y, n); }
      Taps(b, x, n, 0, 1) / a[0];
      (b[0] * At(x, n) + Taps(b, x, n, 1, 1)) / a[0];
      b[0] * x[n] / a[0];
    }
  }

  /** With a single coefficient on each side, every output is the input times b[0]/a[0]. */
  lemma StaticGainOutput(b: seq<real>, a: seq<real>, x: seq<real>, n: nat)
    requires |b| == 1 && |a| == 1 && a[0] != 0.0
    requires n < |x|
    ensures LFilter(b, a, x)[n] == b[0] * x[n] / a[0]
  {
    LFilterSolves(b, a, x);
    StaticGainSolution(b, a, x, LFilter(b, a, x), n);
  }

  /** The difference equation `a[0]·y[n] + Σ_{k≥1} a[k]·y[n−k] = Σ_k b[k]·x[n−k]`
      at every sample of `x`, samples before time 0 reading as 0. */
  ghost predicate Recurrence(b: seq<real>, a: seq<real>, x: seq<real>, y: seq<real>)
    requires |a| > 0
  {
    |y| == |x| && forall n :: 0 <= n < |x| ==> a[0] * y[n] + Taps(a, y, n, 1, |a|) == Taps(b, x, n, 0, |b|)
  }

  lemma SolutionRecurrence(b: seq<real>, a: seq<real>, x: seq<real>, y: seq<real>)
    requires |a| > 0 && a[0] != 0.0
    requires Solves(b, a, x, y)
    ensures Recurrence(b, a, x, y)
  {
    forall n | 0 <= n < |x|
      ensures a[0] * y[n] + Taps(a, y, n, 1, |a|) == Taps(b, x, n, 0, |b|)
    {
      SolutionEquation(b, a, x, y, n);
    }
  }

  lemma LFilterSatisfiesRecurrence(b: seq<real>, a: seq<real>, x: seq<real>)
    requires |a| > 0 && a[0] != 0.0
    ensures Recurrence(b, a, x, LFilter(b, a, x))
  {
    LFilterSolves(b, a, x);
    SolutionRecurrence(b, a, x, LFilter(b, a, x));
  }

  lemma SolveLinear(v: real, d: real, fb: real, ff: real)
    requires d != 0.0 && d * v + fb == ff
    ensures v == (ff - fb) / d
  {
    calc {
      (ff - fb) / d;
      (d * v) / d;
      v;
    }
  }

  lemma RecurrenceSolves(b: seq<real>, a: seq<real>, x: seq<real>, y: seq<real>)
    requires |a| > 0 && a[0] != 0.0
    requires Recurrence(b, a, x, y)
    ensures Solves(b, a, x, y)
  {
    forall n | 0 <= n < |x|
      ensures y[n] == NextOutput(b, a, x, y, n)
    {
      SolveLinear(y[n], a[0], Taps(a, y, n, 1, |a|), Taps(b, x, n, 0, |b|));
    }
  }

  /** Two solutions driven by the same input agree on every prefix. */
  lemma {:induction false} SolutionsAgree(b: seq<real>, a: seq<real>, x: seq<real>, y: seq<real>, z: seq<real>, m: nat)
    requires |a| > 0 && a[0] != 0.0
    requires Solves(b, a, x, y) && Solves(b, a, x, z) && m <= |x|
    ensures y[..m] == z[..m]
  {
    if m > 0 {
      SolutionsAgree(b, a, x, y, z, m - 1);
      var n := m - 1;
      assert AgreeBelow(y, z, n) by {
        forall i | 0 <= i < n ensures At(y, i) == At(z, i) {
          assert y[..n][i] == z[..n][i];
        }
      }
      TapsAgree(a, y, z, n, 1, |a|);
      assert y[n] == z[n];
      assert y[..m] == y[..n] + [y[n]];
      assert z[..m] == z[..n] + [z[n]];
    }
  }

  /** The recurrence has exactly one solution for a given input, and `LFilter`
      is it. */
  lemma RecurrenceUnique(b: seq<real>, a: seq<real>, x: seq<real>, y: seq<real>)
    requires |a| > 0 && a[0] != 0.0
    ensures Recurrence(b, a, x, y) <==> y == LFilter(b, a, x)
  {
    LFilterSatisfiesRecurrence(b, a, x);
    if Recurrence(b, a, x, y) {
      RecurrenceSolves(b, a, x, y);
      LFilterSolves(b, a, x);
      SolutionsAgree(b, a, x, y, LFilter(b, a, x), |x|);
      assert y == y[..|x|] && LFilter(b, a, x) == LFilter(b, a, x)[..|x|];
    }
  }

  /** One inner pass of a direct-form filter: the taps from `lo` to the end of
      the coefficient list, accumulated from the last coefficient down. */
  method TapSum(c: seq<real>, s: seq<real>, n: int, lo: nat) returns (acc: real)
    requires lo <= |c|
    ensures acc == Taps(c, s, n, lo, |c|)
  {
    acc := 0.0;
    var k := |c|;
    while k > lo
      invariant lo <= k <= |c|
      invariant acc == Taps(c, s, n, k, |c|)
    {
      k := k - 1;
      acc := c[k] * At(s, n - k) + acc;
    }
  }

  /** The recurrence, computed the way a direct-form filter runs: one pass over the
      input, each output from an inner pass over the numerator and one over the
      denominator. */
  method Filter(b: seq<real>, a: seq<real>, x: seq<real>) returns (y: seq<real>)
    requires |a| > 0 && a[0] != 0.0
    ensures y == LFilter(b, a, x)
  {
    y := [];
    var n := 0;
    while n < |x|
      invariant 0 <= n <= |x|
      invariant y == LFilter(b, a, x[..n])
    {
      var ff := TapSum(b, x, n, 0);
      var fb := TapSum(a, y, n, 1);
      assert x[..n + 1][..n] == x[..n];
      TapsAgree(b, x[..n + 1], x, n, 0, |b|);
      y := y + [(ff - fb) / a[0]];
      n := n + 1;
    }
    assert x[..n] == x;
  }
}
