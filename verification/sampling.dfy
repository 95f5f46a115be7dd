/** Evenly spaced sample grids, as `numpy.linspace` builds them. */
module Sampling {
  import opened Outcomes
  import opened Numeric

  /** The distance between neighbouring points of `linspace(start, stop, num, endpoint)`:
      the interval is divided into `num - 1` parts when the end point is included and
      into `num` parts otherwise; a grid with nothing to divide has step 0. */
  function Step(start: real, stop: real, num: int, endpoint: bool): real {
    var div := if endpoint then num - 1 else num;
    if div > 0 then (stop - start) / div as real else 0.0
  }

  /** `numpy.linspace(start, stop, num, endpoint)`; a negative count raises. */
  function LinSpace(start: real, stop: real, num: int, endpoint: bool): (r: Result<seq<real>>)
    ensures r.Err? <==> num < 0
    ensures r.Err? ==> r.error == NegativeSampleCount(num)
    ensures r.Ok? ==> |r.value| == num
    ensures r.Ok? && num > 0 ==> r.value[0] == start
    ensures r.Ok? ==> forall i :: 0 <= i < num - 1 ==>
              r.value[i + 1] - r.value[i] == Step(start, stop, num, endpoint)
    ensures r.Ok? && endpoint && num > 1 ==> r.value[num - 1] == stop
  {
    if num < 0 then Err(NegativeSampleCount(num))
    else
      var h := Step(start, stop, num, endpoint);
      var pts := seq(num, i => start + i as real * h);
      assert forall i :: 0 <= i < num - 1 ==> pts[i + 1] - pts[i] == h by {
        forall i | 0 <= i < num - 1
          ensures pts[i + 1] - pts[i] == h
        {
          calc {
            pts[i + 1] - pts[i];
            (i + 1) as real * h - i as real * h;
            h;
          }
        }
      }
      if endpoint && num > 1 then
        assert pts[num - 1] == stop by {
          calc {
            pts[num - 1];
            start + (num - 1) as real * ((stop - start) / (num - 1) as real);
            stop;
          }
        }
        Ok(pts)
      else
        Ok(pts)
  }

  /** The points of a grid, in closed form. */
  lemma LinSpacePoint(start: real, stop: real, num: int, endpoint: bool, i: int)
    requires 0 <= i < num
    ensures LinSpace(start, stop, num, endpoint).value[i]
              == start + i as real * Step(start, stop, num, endpoint)
  {
  }

  /** A grid over a non-empty interval is strictly increasing. */
  lemma {:induction false} LinSpaceIncreasing(start: real, stop: real, num: int, endpoint: bool)
    requires start < stop && num >= 0
    ensures forall i, j :: 0 <= i < j < num ==>
              LinSpace(start, stop, num, endpoint).value[i] < LinSpace(start, stop, num, endpoint).value[j]
  {
    var pts := LinSpace(start, stop, num, endpoint).value;
    var h := Step(start, stop, num, endpoint);
    forall i, j | 0 <= i < j < num
      ensures pts[i] < pts[j]
    {
      assert h > 0.0;
      calc {
        pts[j] - pts[i];
        j as real * h - i as real * h;
        (j - i) as real * h;
      > { PositiveProduct((j - i) as real, h); }
        0.0;
      }
    }
  }

  lemma PositiveProduct(u: real, v: real)
    requires u > 0.0 && v > 0.0
    ensures u * v > 0.0
  {
  }

  /** Without its end point, a grid over [start, stop) stays inside that half-open interval. */
  lemma {:induction false} LinSpaceWithin(start: real, stop: real, num: int)
    requires start <= stop && num >= 0
    ensures forall i :: 0 <= i < num ==>
              start <= LinSpace(start, stop, num, false).value[i]
              && (start < stop ==> LinSpace(start, stop, num, false).value[i] < stop)
  {
    var pts := LinSpace(start, stop, num, false).value;
    forall i | 0 <= i < num
      ensures start <= pts[i] && (start < stop ==> pts[i] < stop)
    {
      var w := stop - start;
      var q := w / num as real;
      assert q >= 0.0;
      assert i as real * q >= 0.0;
      if start < stop {
        calc {
          pts[i];
          start + i as real * q;
        < { assert (num - i) as real * q > 0.0 by { PositiveProduct((num - i) as real, q); } }
          start + num as real * q;
          start + w;
          stop;
        }
      }
    }
  }
}
