/** Signal utilities: validating a (time, signal) pair and scaling a signal
    into [-1, 1]. */
module Utils {
  import opened Outcomes
  import opened Numeric
  import SignalGenerator

  /** A sample of a floating-point signal: a finite value, or an infinity or NaN. */
  datatype Sample = Finite(value: real) | NonFinite

  predicate AllFinite(x: seq<Sample>) {
    forall i :: 0 <= i < |x| ==> x[i].Finite?
  }

  /** `np.all(np.diff(t) > 0)`: every step between neighbours is positive. */
  predicate StepsPositive(t: seq<real>) {
    forall i :: 0 <= i < |t| - 1 ==> t[i + 1] - t[i] > 0.0
  }

  predicate StrictlyIncreasing(t: seq<real>) {
    forall i, j :: 0 <= i < j < |t| ==> t[i] < t[j]
  }

  /** Positive neighbour steps make every later time larger. */
  lemma {:induction false} StepsPositiveIncreasing(t: seq<real>, i: nat, j: nat)
    requires StepsPositive(t) && i < j < |t|
    ensures t[i] < t[j]
    decreases j - i
  {
    if j > i + 1 {
      StepsPositiveIncreasing(t, i + 1, j);
    }
  }

  /** `validate_signal`: equal lengths, finite samples, and a strictly increasing
      time axis. */
  function ValidateSignal(t: seq<real>, x: seq<Sample>): (ok: bool)
    ensures ok <==> |t| == |x| && AllFinite(x) && StrictlyIncreasing(t)
  {
    if |t| != |x| then false
    else if !AllFinite(x) then false
    else if !StepsPositive(t) then
      assert !StrictlyIncreasing(t);
      false
    else
      assert StrictlyIncreasing(t) by {
        forall i, j | 0 <= i < j < |t| ensures t[i] < t[j] {
          StepsPositiveIncreasing(t, i, j);
        }
      }
      true
  }

  function Finites(x: seq<real>): (s: seq<Sample>)
    ensures |s| == |x| && AllFinite(s)
  {
    seq(|x|, i requires 0 <= i < |x| => Finite(x[i]))
  }

  /** Every non-custom signal generated over a positive duration passes validation. */
  lemma GeneratedSignalsValidate(g: SignalGenerator.Generator, name: string, p: SignalGenerator.SignalParams,
                                 waveform: (real, real, real) -> real, custom: Option<seq<real>>)
    requires SignalGenerator.Consistent(g) && g.duration > 0.0
    requires SignalGenerator.ParseSignal(name) != Some(SignalGenerator.CustomFunction)
    requires SignalGenerator.Generate(g, name, p, waveform, custom).Ok?
    ensures var r := SignalGenerator.Generate(g, name, p, waveform, custom).value;
              ValidateSignal(r.0, Finites(r.1))
  {
    SignalGenerator.TimeVectorShape(g.fs, g.duration);
  }

  /** `np.max(np.abs(x))`. */
  function MaxAbs(x: seq<real>): (m: real)
    requires |x| > 0
    ensures forall i :: 0 <= i < |x| ==> Abs(x[i]) <= m
    ensures exists i :: 0 <= i < |x| && Abs(x[i]) == m
    decreases |x|
  {
    if |x| == 1 then Abs(x[0])
    else
      var rest := MaxAbs(x[1..]);
      assert forall i :: 1 <= i < |x| ==> x[i] == x[1..][i - 1];
      if Abs(x[0]) < rest then rest else Abs(x[0])
  }

  /** Dividing by a positive bound of |v| lands in [-1, 1] and keeps the sign. */
  lemma ScaleByBound(v: real, m: real)
    requires m > 0.0 && Abs(v) <= m
    ensures -1.0 <= v / m <= 1.0
    ensures v > 0.0 <==> v / m > 0.0
    ensures v < 0.0 <==> v / m < 0.0
    ensures Abs(v) == m ==> Abs(v / m) == 1.0
    ensures m * (v / m) == v
  {
  }

  /** Every sample divided by m, a positive bound on their magnitudes. */
  function Scale(x: seq<real>, m: real): (y: seq<real>)
    requires m > 0.0 && forall i :: 0 <= i < |x| ==> Abs(x[i]) <= m
    ensures |y| == |x|
    ensures forall i :: 0 <= i < |x| ==> -1.0 <= y[i] <= 1.0
    ensures forall i :: 0 <= i < |x| ==> (y[i] > 0.0 <==> x[i] > 0.0) && (y[i] < 0.0 <==> x[i] < 0.0)
    ensures forall i :: 0 <= i < |x| ==> x[i] == m * y[i]
    ensures forall i :: 0 <= i < |x| && Abs(x[i]) == m ==> Abs(y[i]) == 1.0
  {
    var y := seq(|x|, i requires 0 <= i < |x| => x[i] / m);
    forall i | 0 <= i < |x|
      ensures -1.0 <= y[i] <= 1.0
      ensures (y[i] > 0.0 <==> x[i] > 0.0) && (y[i] < 0.0 <==> x[i] < 0.0)
      ensures x[i] == m * y[i]
      ensures Abs(x[i]) == m ==> Abs(y[i]) == 1.0
    {
      ScaleByBound(x[i], m);
    }
    y
  }

  /** `normalize_signal`: divide by the largest magnitude, unless it is 0; an empty
      signal has no maximum and raises. */
  function NormalizeSignal(x: seq<real>): (r: Result<seq<real>>)
    ensures r.Err? <==> |x| == 0
    ensures r.Err? ==> r.error == EmptySequence
    ensures r.Ok? ==> |r.value| == |x|
    ensures r.Ok? && MaxAbs(x) == 0.0 ==> r.value == x
    ensures r.Ok? ==> forall i :: 0 <= i < |x| ==> -1.0 <= r.value[i] <= 1.0
    ensures r.Ok? ==> forall i :: 0 <= i < |x| ==>
              (r.value[i] > 0.0 <==> x[i] > 0.0) && (r.value[i] < 0.0 <==> x[i] < 0.0)
    ensures r.Ok? && MaxAbs(x) != 0.0 ==> exists i :: 0 <= i < |x| && Abs(r.value[i]) == 1.0
  {
    if |x| == 0 then Err(EmptySequence)
    else
      if MaxAbs(x) == 0.0 then
        assert forall i :: 0 <= i < |x| ==> x[i] == 0.0;
        Ok(x)
      else
        Ok(Scale(x, MaxAbs(x)))
  }

  /** Every sample multiplied by m. */
  function Rescale(y: seq<real>, m: real): (x: seq<real>)
    ensures |x| == |y|
  {
    seq(|y|, i requires 0 <= i < |y| => m * y[i])
  }

  /** Scaling down by m and back up by m is the identity. */
  lemma ScaleInverse(x: seq<real>, m: real)
    requires m > 0.0 && forall j :: 0 <= j < |x| ==> Abs(x[j]) <= m
    ensures Rescale(Scale(x, m), m) == x
  {
    var y := Scale(x, m);
    var z := Rescale(y, m);
    forall i | 0 <= i < |x| ensures z[i] == x[i] {
      assert z[i] == m * y[i];
    }
  }

  lemma NormalizeIsScale(x: seq<real>)
    requires |x| > 0 && MaxAbs(x) != 0.0
    ensures NormalizeSignal(x) == Ok(Scale(x, MaxAbs(x)))
  {
  }

  /** Multiplying the normalised signal by the original peak magnitude gives the
      original signal back. */
  lemma NormalizeInverse(x: seq<real>)
    requires |x| > 0
    ensures Rescale(NormalizeSignal(x).value, MaxAbs(x)) == x
  {
    if MaxAbs(x) != 0.0 {
      NormalizeIsScale(x);
      ScaleInverse(x, MaxAbs(x));
    } else {
      assert forall i :: 0 <= i < |x| ==> x[i] == 0.0;
    }
  }

  /** Normalising twice is normalising once. */
  lemma NormalizeIdempotent(x: seq<real>)
    requires |x| > 0
    ensures NormalizeSignal(NormalizeSignal(x).value) == NormalizeSignal(x)
  {
    var y := NormalizeSignal(x).value;
    if MaxAbs(x) != 0.0 {
      var k :| 0 <= k < |y| && Abs(y[k]) == 1.0;
      assert MaxAbs(y) == 1.0 by {
        var j :| 0 <= j < |y| && Abs(y[j]) == MaxAbs(y);
        assert Abs(y[k]) <= MaxAbs(y);
      }
      assert NormalizeSignal(y).value == y;
    }
  }
}
