/** Scalar helpers over idealised reals: Python's `int()`, `np.clip`, `abs`
    and sums of coefficient sequences. */
module Numeric {

  /** Python `int(x)` on a float: truncation toward zero. */
  function Trunc(x: real): (n: int)
    ensures x >= 0.0 ==> 0 <= n && n as real <= x < n as real + 1.0
    ensures x < 0.0 ==> n <= 0 && n as real - 1.0 < x <= n as real
  {
    if x >= 0.0 then x.Floor else -((-x).Floor)
  }

  /** `np.clip(x, lo, hi)`, i.e. `min(max(x, lo), hi)`. */
  function Clip(x: real, lo: real, hi: real): (r: real)
    requires lo <= hi
    ensures lo <= r <= hi
    ensures lo <= x <= hi ==> r == x
    ensures x < lo ==> r == lo
    ensures hi < x ==> r == hi
  {
    if x < lo then lo else if hi < x then hi else x
  }

  function Abs(x: real): real {
    if x < 0.0 then -x else x
  }

  function Max(x: real, y: real): real {
    if x < y then y else x
  }

  function Min(x: real, y: real): real {
    if x < y then x else y
  }

  /** Sum of a sequence, `np.sum`. */
  function Sum(s: seq<real>): real
    decreases |s|
  {
    if |s| == 0 then 0.0 else s[0] + Sum(s[1..])
  }

  /** `n` copies of `c`, as `np.full(n, c)` builds them. */
  function Constant(n: nat, c: real): (s: seq<real>)
    ensures |s| == n
    ensures forall i :: 0 <= i < n ==> s[i] == c
  {
    seq(n, _ => c)
  }

  /** The sum of `n` copies of `c` is `n * c`. */
  lemma {:induction false} SumConstant(n: nat, c: real)
    ensures Sum(Constant(n, c)) == n as real * c
  {
    if n > 0 {
      assert Constant(n, c)[1..] == Constant(n - 1, c);
      SumConstant(n - 1, c);
    }
  }

  /** Dividing by a non-zero d and multiplying back gives the dividend; with d
      positive, the quotient keeps the dividend's sign and its order against d. */
  lemma Quotient(c: real, d: real)
    requires d != 0.0
    ensures (c / d) * d == c
    ensures d > 0.0 && c < d ==> c / d < 1.0
    ensures d > 0.0 && c <= 0.99 * d ==> c / d <= 0.99
    ensures d > 0.0 && c > 0.0 ==> c / d > 0.0
  {
  }

  lemma QuotientMonotone(c1: real, c2: real, d: real)
    requires d > 0.0 && c1 < c2
    ensures c1 / d < c2 / d
  {
  }

  lemma ScaledQuotient(d: real, k: real)
    requires d != 0.0
    ensures (d * k) / d == k
  {
  }
}
