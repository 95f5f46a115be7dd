/** `SystemAnalyzer`: builds a system's coefficient pair (b, a) from a system
    name and keyword parameters, and computes its impulse, step and frequency
    responses and its output for an input signal. */
module SystemAnalyzer {
  import opened Outcomes
  import opened Numeric
  import opened Filtering
  import opened Complex
  import Sampling

  /** The seven system families the analyzer knows. */
  datatype SystemTag =
    | LowPass | HighPass | BandPass | MovingAverage | Differentiator | Integrator | CustomSystem

  function SystemName(tag: SystemTag): string {
    match tag
    case LowPass => "Low-pass Filter"
    case HighPass => "High-pass Filter"
    case BandPass => "Band-pass Filter"
    case MovingAverage => "Moving Average"
    case Differentiator => "Differentiator"
    case Integrator => "Integrator"
    case CustomSystem => "Custom System"
  }

  /** The string comparison chain of `create_system`: a name selects a family or nothing. */
  function ParseSystem(name: string): (r: Option<SystemTag>)
    ensures r.Some? ==> SystemName(r.value) == name
    ensures r.None? ==> forall tag: SystemTag :: SystemName(tag) != name
  {
    if name == "Low-pass Filter" then Some(LowPass)
    else if name == "High-pass Filter" then Some(HighPass)
    else if name == "Band-pass Filter" then Some(BandPass)
    else if name == "Moving Average" then Some(MovingAverage)
    else if name == "Differentiator" then Some(Differentiator)
    else if name == "Integrator" then Some(Integrator)
    else if name == "Custom System" then Some(CustomSystem)
    else None
  }

  lemma SystemNameRoundTrip(tag: SystemTag)
    ensures ParseSystem(SystemName(tag)) == Some(tag)
  {
  }

  /** A coefficient list argument of a custom system: not given (the source then
      reads "[1]"), given but not evaluable, or evaluated to a list of numbers. */
  datatype Coefficients = Absent | Unparsable | Parsed(values: seq<real>)

  /** The keyword arguments of `create_system`; `None` is a missing keyword. */
  datatype SystemParams = SystemParams(
    cutoff: Option<real>,
    order: Option<real>,
    lowcut: Option<real>,
    highcut: Option<real>,
    windowSize: Option<real>,
    alpha: Option<real>,
    beta: Option<real>,
    numerator: Coefficients,
    denominator: Coefficients)

  datatype BandType = Low | High | Band

  /** What `create_system` produces: either the request it hands to the
      Butterworth designer (order, band type and critical frequencies normalised
      to Nyquist), or a coefficient pair built directly. */
  datatype System =
    | Butterworth(order: int, band: BandType, wn: seq<real>)
    | Rational(b: seq<real>, a: seq<real>)

  /** The smallest leading denominator coefficient a custom system may have. */
  const Epsilon: real := 0.000000000001

  // ---------------------------------------------------------------------------
  // Cutoff normalisation for the Butterworth families

  /** Low-pass: a cutoff at or above Nyquist is pulled to 0.99·Nyquist, then the
      cutoff is expressed as a fraction of Nyquist. */
  function LowPassCutoff(cutoff: real, fs: real): (wn: real)
    requires fs != 0.0
    ensures fs > 0.0 ==> wn < 1.0
    ensures fs > 0.0 && cutoff > 0.0 ==> wn > 0.0
    ensures cutoff >= fs / 2.0 ==> wn == 0.99
    ensures cutoff < fs / 2.0 ==> wn * (fs / 2.0) == cutoff
  {
    var nyquist := fs / 2.0;
    var c := if cutoff >= nyquist then nyquist * 0.99 else cutoff;
    Quotient(c, nyquist);
    ScaledQuotient(nyquist, 0.99);
    c / nyquist
  }

  /** High-pass: a non-positive cutoff becomes 1 Hz, a cutoff at or above Nyquist
      becomes 0.99·Nyquist, then it is expressed as a fraction of Nyquist. */
  function HighPassCutoff(cutoff: real, fs: real): (wn: real)
    requires fs != 0.0
    ensures fs > 0.0 ==> 0.0 < wn < 1.0
    ensures cutoff <= 0.0 && fs > 2.0 ==> wn * (fs / 2.0) == 1.0
    ensures 0.0 < cutoff < fs / 2.0 ==> wn * (fs / 2.0) == cutoff
    ensures (cutoff >= fs / 2.0 || (cutoff <= 0.0 && 1.0 >= fs / 2.0)) ==> wn == 0.99
  {
    var nyquist := fs / 2.0;
    var c1 := if cutoff <= 0.0 then 1.0 else cutoff;
    var c2 := if c1 >= nyquist then nyquist * 0.99 else c1;
    Quotient(c2, nyquist);
    ScaledQuotient(nyquist, 0.99);
    c2 / nyquist
  }

  /** Band-pass edges in Hz: the low edge is raised to at least 0.1 Hz, the high
      edge lowered to at most 0.99·Nyquist, and an empty band is replaced by the
      fixed band (5, 15) without any error. */
  function BandEdges(lowcut: real, highcut: real, fs: real): (e: (real, real))
    ensures e.0 >= 0.1 && e.0 < e.1
    ensures var lo, hi := Max(lowcut, 0.1), Min(highcut, fs / 2.0 * 0.99);
              (lo < hi ==> e == (lo, hi)) && (lo >= hi ==> e == (5.0, 15.0))
    ensures e != (5.0, 15.0) ==> e.1 <= fs / 2.0 * 0.99
  {
    var lo := Max(lowcut, 0.1);
    var hi := Min(highcut, fs / 2.0 * 0.99);
    if lo >= hi then (5.0, 15.0) else (lo, hi)
  }

  /** The band edges as fractions of Nyquist. */
  function BandPassCutoffs(lowcut: real, highcut: real, fs: real): (wn: seq<real>)
    requires fs != 0.0
    ensures |wn| == 2
    ensures fs > 0.0 ==> 0.0 < wn[0] < wn[1]
    ensures fs > 0.0 && BandEdges(lowcut, highcut, fs) != (5.0, 15.0) ==> wn[1] <= 0.99
    ensures fs > 30.0 ==> wn[1] < 1.0
    ensures wn[0] * (fs / 2.0) == BandEdges(lowcut, highcut, fs).0
    ensures wn[1] * (fs / 2.0) == BandEdges(lowcut, highcut, fs).1
  {
    var e := BandEdges(lowcut, highcut, fs);
    var nyquist := fs / 2.0;
    Quotient(e.0, nyquist);
    Quotient(e.1, nyquist);
    assert fs > 0.0 ==> e.0 / nyquist < e.1 / nyquist by {
      if fs > 0.0 { QuotientMonotone(e.0, e.1, nyquist); }
    }
    [e.0 / nyquist, e.1 / nyquist]
  }

  // ---------------------------------------------------------------------------
  // Fixed-shape families

  /** Moving average over `window` samples (clamped to at least one):
      `window` equal taps of 1/window and no feedback. */
  function MovingAverageCoefficients(window: int): (ba: (seq<real>, seq<real>))
    ensures |ba.0| == if window < 1 then 1 else window
    ensures forall i :: 0 <= i < |ba.0| ==> ba.0[i] == 1.0 / |ba.0| as real
    ensures Sum(ba.0) == 1.0
    ensures ba.1 == [1.0]
  {
    var n := if window < 1 then 1 else window;
    var b := Constant(n, 1.0 / n as real);
    SumConstant(n, 1.0 / n as real);
    assert n as real * (1.0 / n as real) == 1.0;
    (b, [1.0])
  }

  /** Stable differentiator (1 − z⁻¹)/(1 − α·z⁻¹) with α clipped to [0, 0.999]. */
  function DifferentiatorCoefficients(alpha: real): (ba: (seq<real>, seq<real>))
    ensures ba.0 == [1.0, -1.0]
    ensures |ba.1| == 2 && ba.1[0] == 1.0
    ensures -0.999 <= ba.1[1] <= 0.0 && Abs(ba.1[1]) < 1.0
    ensures 0.0 <= alpha <= 0.999 ==> ba.1[1] == -alpha
    ensures alpha < 0.0 ==> ba.1[1] == 0.0
    ensures alpha > 0.999 ==> ba.1[1] == -0.999
  {
    ([1.0, -1.0], [1.0, -Clip(alpha, 0.0, 0.999)])
  }

  /** Leaky integrator 1/(1 − β·z⁻¹) with β clipped to [0, 0.9999]. */
  function IntegratorCoefficients(beta: real): (ba: (seq<real>, seq<real>))
    ensures ba.0 == [1.0]
    ensures |ba.1| == 2 && ba.1[0] == 1.0
    ensures -0.9999 <= ba.1[1] <= 0.0 && Abs(ba.1[1]) < 1.0
    ensures 0.0 <= beta <= 0.9999 ==> ba.1[1] == -beta
    ensures beta < 0.0 ==> ba.1[1] == 0.0
    ensures beta > 0.9999 ==> ba.1[1] == -0.9999
  {
    ([1.0], [1.0, -Clip(beta, 0.0, 0.9999)])
  }

  // ---------------------------------------------------------------------------
  // Custom systems

  /** `np.trim_zeros(s, 'f')`: drop the exact zeros at the front. */
  function TrimFront(s: seq<real>): (r: seq<real>)
    ensures |r| <= |s| && r == s[|s| - |r|..]
    ensures forall i :: 0 <= i < |s| - |r| ==> s[i] == 0.0
    ensures |r| > 0 ==> r[0] != 0.0
    decreases |s|
  {
    if |s| == 0 then []
    else if s[0] == 0.0 then TrimFront(s[1..])
    else s
  }

  /** The numerator and denominator of a custom system: both must be given as
      non-empty lists; front zeros are trimmed, an all-zero numerator becomes [0]
      and an all-zero denominator becomes [1]; a leading denominator coefficient
      below 1e-12 in magnitude is refused. */
  function CustomCoefficients(num: Coefficients, den: Coefficients): (r: Result<(seq<real>, seq<real>)>)
    ensures r.Err? ==> r.error == InvalidCoefficients
    ensures r.Err? <==>
              || num.Unparsable? || den.Unparsable?
              || (num.Parsed? && |num.values| == 0) || (den.Parsed? && |den.values| == 0)
              || (den.Parsed? && |TrimFront(den.values)| > 0 && Abs(TrimFront(den.values)[0]) < Epsilon)
    ensures r.Ok? ==> |r.value.0| > 0 && |r.value.1| > 0 && Abs(r.value.1[0]) >= Epsilon
  {
    if num.Unparsable? || den.Unparsable? then Err(InvalidCoefficients)
    else
      var b := if num.Absent? then [1.0] else num.values;
      var a := if den.Absent? then [1.0] else den.values;
      if |b| == 0 || |a| == 0 then Err(InvalidCoefficients)
      else
        var bt := TrimFront(b);
        var at := TrimFront(a);
        var b' := if |bt| > 0 then bt else [0.0];
        var a' := if |at| > 0 then at else [1.0];
        if Abs(a'[0]) < Epsilon then Err(InvalidCoefficients)
        else Ok((b', a'))
  }

  /** A missing list reads as the one-element list [1]. */
  lemma CustomAbsentIsOne(num: Coefficients, den: Coefficients)
    ensures CustomCoefficients(Absent, den) == CustomCoefficients(Parsed([1.0]), den)
    ensures CustomCoefficients(num, Absent) == CustomCoefficients(num, Parsed([1.0]))
  {
  }

  /** An unparsable list, or an empty one, is refused. */
  lemma CustomRefusesMalformed(num: Coefficients, den: Coefficients)
    requires num.Unparsable? || den.Unparsable?
             || (num.Parsed? && |num.values| == 0) || (den.Parsed? && |den.values| == 0)
    ensures CustomCoefficients(num, den) == Err(InvalidCoefficients)
  {
  }

  /** Without either list the system is the identity b = a = [1]. */
  lemma CustomDefaults()
    ensures CustomCoefficients(Absent, Absent) == Ok(([1.0], [1.0]))
  {
    assert TrimFront([1.0]) == [1.0];
  }

  /** An accepted numerator is the given list without its front zeros, or [0]
      when the list held nothing but zeros. */
  lemma CustomNumerator(num: seq<real>, den: Coefficients)
    ensures CustomCoefficients(Parsed(num), den).Ok? ==>
      var b := CustomCoefficients(Parsed(num), den).value.0;
      || (b == [0.0] && forall i :: 0 <= i < |num| ==> num[i] == 0.0)
      || (b[0] != 0.0 && b == TrimFront(num))
  {
    var bt := TrimFront(num);
    assert |bt| == 0 ==> forall i :: 0 <= i < |num| ==> num[i] == 0.0;
  }

  /** An accepted denominator is the given list without its front zeros, or [1]
      when the list held nothing but zeros. */
  lemma CustomDenominator(num: Coefficients, den: seq<real>)
    ensures CustomCoefficients(num, Parsed(den)).Ok? ==>
      var a := CustomCoefficients(num, Parsed(den)).value.1;
      || (a == [1.0] && forall i :: 0 <= i < |den| ==> den[i] == 0.0)
      || (a[0] != 0.0 && a == TrimFront(den))
  {
    var at := TrimFront(den);
    assert |at| == 0 ==> forall i :: 0 <= i < |den| ==> den[i] == 0.0;
  }

  /** An all-zero denominator is accepted and replaced by [1]. */
  lemma CustomZeroDenominator()
    ensures CustomCoefficients(Absent, Parsed([0.0])) == Ok(([1.0], [1.0]))
  {
  }

  /** A denominator [0, 1] loses its front zero and becomes [1]. */
  lemma CustomLeadingZeroDenominator()
    ensures CustomCoefficients(Absent, Parsed([0.0, 1.0])) == Ok(([1.0], [1.0]))
  {
    assert TrimFront([1.0]) == [1.0];
    assert [0.0, 1.0][1..] == [1.0];
    assert TrimFront([0.0, 1.0]) == [1.0];
  }

  /** Only the zeros at the front of the numerator are dropped. */
  lemma CustomTrimsFrontOnly()
    ensures CustomCoefficients(Parsed([0.0, 0.0, 2.0, 0.0]), Absent) == Ok(([2.0, 0.0], [1.0]))
  {
    assert [0.0, 0.0, 2.0, 0.0][1..] == [0.0, 2.0, 0.0];
    assert [0.0, 2.0, 0.0][1..] == [2.0, 0.0];
    assert TrimFront([2.0, 0.0]) == [2.0, 0.0];
    assert TrimFront([0.0, 0.0, 2.0, 0.0]) == [2.0, 0.0];
    assert TrimFront([1.0]) == [1.0];
    assert Abs(1.0) >= Epsilon;
  }

  /** An empty list and a leading denominator coefficient below 1e-12 are refused. */
  lemma CustomRefusals()
    ensures CustomCoefficients(Absent, Parsed([])) == Err(InvalidCoefficients)
    ensures CustomCoefficients(Absent, Parsed([0.0, 0.0000000000001])) == Err(InvalidCoefficients)
  {
    assert [0.0, 0.0000000000001][1..] == [0.0000000000001];
    assert TrimFront([0.0, 0.0000000000001]) == [0.0000000000001];
  }

  // ---------------------------------------------------------------------------
  // create_system

  /** The Butterworth order: `int(order)`, or 4 when no order is given. */
  function Order(p: SystemParams): (o: int)
    ensures p.order.None? ==> o == 4
    ensures p.order.Some? ==> o == Trunc(p.order.value)
  {
    Trunc(p.order.GetOr(4.0))
  }

  predicate IsButterworth(tag: SystemTag) {
    tag == LowPass || tag == HighPass || tag == BandPass
  }

  function CreateSystem(name: string, p: SystemParams, fs: real): (r: Result<System>)
    ensures ParseSystem(name).None? ==> r == Err(UnknownSystemType(name))
    ensures ParseSystem(name).Some? && IsButterworth(ParseSystem(name).value) ==>
              (r.Err? <==> fs == 0.0) && (r.Err? ==> r.error == DivisionByZero)
              && (r.Ok? ==> r.value.Butterworth? && r.value.order == Order(p))
    ensures ParseSystem(name) == Some(CustomSystem) ==>
              && (r.Err? <==> CustomCoefficients(p.numerator, p.denominator).Err?)
              && (r.Err? ==> r.error == InvalidCoefficients)
    ensures ParseSystem(name).Some? && ParseSystem(name).value in {MovingAverage, Differentiator, Integrator} ==>
              r.Ok? && r.value.Rational?
    ensures r.Ok? && r.value.Rational? ==>
              WellFormed(r.value.b, r.value.a) && Abs(r.value.a[0]) >= Epsilon
    // What each family yields, with the keyword defaults of the source
    ensures name == "Low-pass Filter" && fs != 0.0 ==>
              r == Ok(Butterworth(Order(p), Low, [LowPassCutoff(p.cutoff.GetOr(10.0), fs)]))
    ensures name == "High-pass Filter" && fs != 0.0 ==>
              r == Ok(Butterworth(Order(p), High, [HighPassCutoff(p.cutoff.GetOr(10.0), fs)]))
    ensures name == "Band-pass Filter" && fs != 0.0 ==>
              r == Ok(Butterworth(Order(p), Band, BandPassCutoffs(p.lowcut.GetOr(5.0), p.highcut.GetOr(15.0), fs)))
    ensures name == "Moving Average" ==>
              var ba := MovingAverageCoefficients(Trunc(p.windowSize.GetOr(5.0)));
              r == Ok(Rational(ba.0, ba.1))
    ensures name == "Differentiator" ==>
              var ba := DifferentiatorCoefficients(p.alpha.GetOr(0.95));
              r == Ok(Rational(ba.0, ba.1))
    ensures name == "Integrator" ==>
              var ba := IntegratorCoefficients(p.beta.GetOr(0.99));
              r == Ok(Rational(ba.0, ba.1))
    ensures name == "Custom System" && r.Ok? ==>
              var ba := CustomCoefficients(p.numerator, p.denominator).value;
              r.value == Rational(ba.0, ba.1)
  {
    match ParseSystem(name)
    case None => Err(UnknownSystemType(name))
    case Some(tag) =>
      match tag
      case LowPass =>
        if fs == 0.0 then Err(DivisionByZero)
        else Ok(Butterworth(Order(p), Low, [LowPassCutoff(p.cutoff.GetOr(10.0), fs)]))
      case HighPass =>
        if fs == 0.0 then Err(DivisionByZero)
        else Ok(Butterworth(Order(p), High, [HighPassCutoff(p.cutoff.GetOr(10.0), fs)]))
      case BandPass =>
        if fs == 0.0 then Err(DivisionByZero)
        else Ok(Butterworth(Order(p), Band, BandPassCutoffs(p.lowcut.GetOr(5.0), p.highcut.GetOr(15.0), fs)))
      case MovingAverage =>
        var ba := MovingAverageCoefficients(Trunc(p.windowSize.GetOr(5.0)));
        Ok(Rational(ba.0, ba.1))
      case Differentiator =>
        var ba := DifferentiatorCoefficients(p.alpha.GetOr(0.95));
        Ok(Rational(ba.0, ba.1))
      case Integrator =>
        var ba := IntegratorCoefficients(p.beta.GetOr(0.99));
        Ok(Rational(ba.0, ba.1))
      case CustomSystem =>
        match CustomCoefficients(p.numerator, p.denominator)
        case Err(e) => Err(e)
        case Ok(ba) => Ok(Rational(ba.0, ba.1))
  }

  /** The band-pass family with an inverted band (low 50 Hz, high 10 Hz) silently
      designs the fixed (5, 15) Hz band. */
  lemma InvertedBandFallsBack(p: SystemParams)
    requires p.lowcut == Some(50.0) && p.highcut == Some(10.0)
    ensures CreateSystem("Band-pass Filter", p, 1000.0)
              == Ok(Butterworth(Order(p), Band, [5.0 / 500.0, 15.0 / 500.0]))
  {
  }

  /** The fallback band is not checked against Nyquist again: at 20 Hz sampling its
      upper edge lies above Nyquist. */
  lemma FallbackBandCanExceedNyquist(p: SystemParams)
    requires p.lowcut == Some(10.0) && p.highcut == None
    ensures CreateSystem("Band-pass Filter", p, 20.0).value.wn[1] == 1.5
  {
  }

  // ---------------------------------------------------------------------------
  // Responses

  /** A response: the time grid and the values on it. */
  datatype Response = Response(times: seq<real>, values: seq<real>)

  /** A frequency response: frequencies in Hz and complex values. */
  datatype FrequencyResponse = FrequencyResponse(freqs: seq<real>, values: seq<Complex>)

  /** The time grid of a response: the caller's, or two seconds at fs
      (`linspace(0, 2, int(2·fs), endpoint=False)`). */
  function ResponseTimes(fs: real, t: Option<seq<real>>): (r: Result<seq<real>>)
    ensures t.Some? ==> r == Ok(t.value)
    ensures t.None? ==> (r.Ok? <==> Trunc(2.0 * fs) >= 0)
    ensures t.None? && r.Err? ==> r.error == NegativeSampleCount(Trunc(2.0 * fs))
    ensures t.None? && r.Ok? ==> |r.value| == Trunc(2.0 * fs)
    ensures t.None? && r.Ok? ==> forall i :: 0 <= i < |r.value| ==>
              r.value[i] == i as real * (2.0 / |r.value| as real)
  {
    match t
    case Some(times) => Ok(times)
    case None =>
      var n := Trunc(2.0 * fs);
      var grid := Sampling.LinSpace(0.0, 2.0, n, false);
      assert grid.Ok? ==> forall i :: 0 <= i < n ==> grid.value[i] == i as real * (2.0 / n as real) by {
        forall i | 0 <= i < n
          ensures grid.value[i] == i as real * (2.0 / n as real)
        {
          Sampling.LinSpacePoint(0.0, 2.0, n, false, i);
        }
      }
      grid
  }

  predicate IsStaticGain(b: seq<real>, a: seq<real>) {
    |a| == 1 && |b| == 1
  }

  predicate IsImproper(b: seq<real>, a: seq<real>) {
    |b| > |a|
  }

  /** `impulse_response`. A static gain is answered in closed form, an improper
      system by the recurrence driven by a unit impulse, and a proper system by the
      state-space routine (`dimpulse`, `None` when it raised) with the recurrence
      as fallback. The closed form and the recurrence write sample 0 of the
      response, which fails on an empty grid. */
  function ImpulseResponse(fs: real, b: seq<real>, a: seq<real>, t: Option<seq<real>>,
                           dimpulse: Option<Response>): (r: Result<Response>)
    requires WellFormed(b, a)
    ensures ResponseTimes(fs, t).Err? ==> r == Err(ResponseTimes(fs, t).error)
    ensures ResponseTimes(fs, t).Ok? ==>
              (r.Err? <==> |ResponseTimes(fs, t).value| == 0
                           && (IsStaticGain(b, a) || IsImproper(b, a) || dimpulse.None?))
    ensures ResponseTimes(fs, t).Ok? && r.Err? ==> r.error == IndexOutOfRange
    ensures ResponseTimes(fs, t).Ok? && IsStaticGain(b, a) && r.Ok? ==>
              var n := |ResponseTimes(fs, t).value|;
              && r.value.times == ResponseTimes(fs, t).value
              && |r.value.values| == n && n > 0
              && r.value.values[0] == b[0] / a[0]
              && forall i :: 1 <= i < n ==> r.value.values[i] == 0.0
    ensures !IsStaticGain(b, a) && !IsImproper(b, a) && dimpulse.Some? && ResponseTimes(fs, t).Ok? ==>
              r == Ok(dimpulse.value)
  {
    match ResponseTimes(fs, t)
    case Err(e) => Err(e)
    case Ok(times) =>
      var n := |times|;
      if IsStaticGain(b, a) then
        if n == 0 then Err(IndexOutOfRange)
        else Ok(Response(times, seq(n, i => if i == 0 then b[0] / a[0] else 0.0)))
      else if IsImproper(b, a) then
        if n == 0 then Err(IndexOutOfRange)
        else Ok(Response(times, LFilter(b, a, UnitImpulse(n))))
      else
        match dimpulse
        case Some(response) => Ok(response)
        case None =>
          if n == 0 then Err(IndexOutOfRange)
          else Ok(Response(times, LFilter(b, a, UnitImpulse(n))))
  }

  /** `step_response`: as the impulse response, with a constant closed form for a
      static gain and the recurrence driven by all ones otherwise. No sample is
      written, so an empty grid gives an empty response, except for an improper
      system with a single denominator coefficient: the recurrence then runs as a
      convolution, which refuses an empty input. */
  function StepResponse(fs: real, b: seq<real>, a: seq<real>, t: Option<seq<real>>,
                        dstep: Option<Response>): (r: Result<Response>)
    requires WellFormed(b, a)
    ensures ResponseTimes(fs, t).Err? ==> r == Err(ResponseTimes(fs, t).error)
    ensures ResponseTimes(fs, t).Ok? ==>
              (r.Err? <==> |ResponseTimes(fs, t).value| == 0 && IsImproper(b, a) && |a| == 1)
    ensures ResponseTimes(fs, t).Ok? && r.Err? ==> r.error == EmptySequence
    ensures r.Ok? && IsStaticGain(b, a) ==>
              && r.value.times == ResponseTimes(fs, t).value
              && |r.value.values| == |r.value.times|
              && forall i :: 0 <= i < |r.value.values| ==> r.value.values[i] == b[0] / a[0]
    ensures !IsStaticGain(b, a) && !IsImproper(b, a) && dstep.Some? && ResponseTimes(fs, t).Ok? ==>
              r == Ok(dstep.value)
  {
    match ResponseTimes(fs, t)
    case Err(e) => Err(e)
    case Ok(times) =>
      var n := |times|;
      if IsStaticGain(b, a) then
        Ok(Response(times, Constant(n, b[0] / a[0])))
      else if IsImproper(b, a) then
        if n == 0 && |a| == 1 then Err(EmptySequence)
        else Ok(Response(times, LFilter(b, a, Constant(n, 1.0))))
      else
        match dstep
        case Some(response) => Ok(response)
        case None => Ok(Response(times, LFilter(b, a, Constant(n, 1.0))))
  }

  /** `frequency_response`: `freqz`'s answer when it succeeded (`None` when it
      raised); otherwise an all-zero response on `n_points // 2 + 1` frequencies
      evenly spread over [0, fs/2], end point included. */
  function FreqResponse(fs: real, nPoints: int, freqz: Option<FrequencyResponse>): (r: Result<FrequencyResponse>)
    ensures freqz.Some? ==> r == Ok(freqz.value)
    ensures freqz.None? ==> (r.Ok? <==> nPoints >= -2)
    ensures freqz.None? && r.Err? ==> r.error == NegativeSampleCount(nPoints / 2 + 1)
    ensures freqz.None? && r.Ok? ==>
              var m := nPoints / 2 + 1;
              && |r.value.freqs| == m && |r.value.values| == m
              && (forall i :: 0 <= i < m ==> r.value.values[i] == Zero)
              && (m > 0 ==> r.value.freqs[0] == 0.0)
              && (m > 1 ==> r.value.freqs[m - 1] == fs / 2.0)
              && (forall i :: 0 <= i < m - 1 ==>
                    r.value.freqs[i + 1] - r.value.freqs[i] == (fs / 2.0) / (m - 1) as real)
  {
    match freqz
    case Some(response) => Ok(response)
    case None =>
      var m := nPoints / 2 + 1;
      match Sampling.LinSpace(0.0, fs / 2.0, m, true)
      case Err(e) => Err(e)
      case Ok(w) => Ok(FrequencyResponse(w, seq(m, _ => Zero)))
  }

  /** The sampling rate an analyzer is built with when none is given. */
  const DefaultSamplingRate: real := 1000.0

  /** The number of frequency points `frequency_response` asks for when none is given. */
  const DefaultFrequencyPoints: int := 1024

  /** With the default arguments the response grid is two seconds of 2000 samples. */
  lemma DefaultResponseGrid()
    ensures ResponseTimes(DefaultSamplingRate, None).Ok?
    ensures |ResponseTimes(DefaultSamplingRate, None).value| == 2000
  {
  }

  /** With the default arguments the fallback frequency grid has 513 points
      from 0 to Nyquist, fs/1024 apart. */
  lemma DefaultFallbackGrid(fs: real)
    ensures var r := FreqResponse(fs, DefaultFrequencyPoints, None);
              && r.Ok? && |r.value.freqs| == 513
              && forall i :: 0 <= i < 512 ==> r.value.freqs[i + 1] - r.value.freqs[i] == fs / 1024.0
  {
    assert DefaultFrequencyPoints / 2 + 1 == 513;
    assert (fs / 2.0) / 512.0 == fs / 1024.0;
  }

  /** `apply_system`: the recurrence over the input; empty in, empty out, whatever
      the coefficients are. */
  function ApplySystem(b: seq<real>, a: seq<real>, x: seq<real>): (y: seq<real>)
    requires |x| > 0 ==> WellFormed(b, a)
    ensures |x| == 0 ==> y == []
    ensures |x| > 0 ==> Recurrence(b, a, x, y)
  {
    if |x| == 0 then []
    else
      LFilterSatisfiesRecurrence(b, a, x);
      LFilter(b, a, x)
  }

  /** The output of `apply_system` is the only sequence satisfying the system's
      difference equation for the input. */
  lemma ApplySystemUnique(b: seq<real>, a: seq<real>, x: seq<real>, y: seq<real>)
    requires WellFormed(b, a)
    ensures Recurrence(b, a, x, y) <==> y == ApplySystem(b, a, x)
  {
    if |x| == 0 {
      assert LFilter(b, a, x) == [];
    }
    RecurrenceUnique(b, a, x, y);
  }

  /** Whenever the response is not the state-space routine's, it is the recurrence
      driven by a unit impulse on the response grid; the static-gain closed form
      is that recurrence too. */
  lemma ImpulseResponseMatchesRecurrence(fs: real, b: seq<real>, a: seq<real>, t: Option<seq<real>>,
                                         dimpulse: Option<Response>)
    requires WellFormed(b, a)
    requires IsStaticGain(b, a) || IsImproper(b, a) || dimpulse.None?
    requires ImpulseResponse(fs, b, a, t, dimpulse).Ok?
    ensures var r := ImpulseResponse(fs, b, a, t, dimpulse).value;
              && r.times == ResponseTimes(fs, t).value
              && r.values == LFilter(b, a, UnitImpulse(|r.times|))
  {
    var r := ImpulseResponse(fs, b, a, t, dimpulse).value;
    if IsStaticGain(b, a) {
      var n := |r.times|;
      var y := LFilter(b, a, UnitImpulse(n));
      forall i | 0 <= i < n ensures r.values[i] == y[i] {
        FirImpulseResponse(b, a, n, i);
      }
    }
  }

  /** Whenever the response is not the state-space routine's, it is the recurrence
      driven by all ones on the response grid; the static-gain constant is that
      recurrence too. */
  lemma StepResponseMatchesRecurrence(fs: real, b: seq<real>, a: seq<real>, t: Option<seq<real>>,
                                      dstep: Option<Response>)
    requires WellFormed(b, a)
    requires IsStaticGain(b, a) || IsImproper(b, a) || dstep.None?
    requires StepResponse(fs, b, a, t, dstep).Ok?
    ensures var r := StepResponse(fs, b, a, t, dstep).value;
              && r.times == ResponseTimes(fs, t).value
              && r.values == LFilter(b, a, Constant(|r.times|, 1.0))
  {
    var r := StepResponse(fs, b, a, t, dstep).value;
    if IsStaticGain(b, a) {
      var n := |r.times|;
      var y := LFilter(b, a, Constant(n, 1.0));
      forall i | 0 <= i < n ensures r.values[i] == y[i] {
        StaticGainOutput(b, a, Constant(n, 1.0), i);
      }
    }
  }

  /** A moving average passes a constant signal unchanged once its window is
      full. */
  lemma MovingAveragePassesConstants(p: SystemParams, fs: real, v: real, len: nat)
    ensures var s := CreateSystem("Moving Average", p, fs);
              && s.Ok? && s.value.Rational?
              && forall n :: |s.value.b| - 1 <= n < len ==> ApplySystem(s.value.b, s.value.a, Constant(len, v))[n] == v
  {
    var s := CreateSystem("Moving Average", p, fs).value;
    var ba := MovingAverageCoefficients(Trunc(p.windowSize.GetOr(5.0)));
    assert s == Rational(ba.0, ba.1);
    forall n | |s.b| - 1 <= n < len
      ensures ApplySystem(s.b, s.a, Constant(len, v))[n] == v
    {
      FirSettles(s.b, s.a, len, v, n);
    }
  }
}
