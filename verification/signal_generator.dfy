/** `SignalGenerator`: a sampling grid fixed by a sampling rate and a duration,
    and the signals generated on it. */
module SignalGenerator {
  import opened Outcomes
  import opened Numeric
  import Sampling

  /** The ten signal families the generator knows. */
  datatype SignalTag =
    | SineWave | CosineWave | SquareWave | TriangleWave | SawtoothWave
    | ExponentialDecay | UnitStep | Impulse | GaussianPulse | CustomFunction

  function SignalName(tag: SignalTag): string {
    match tag
    case SineWave => "Sine Wave"
    case CosineWave => "Cosine Wave"
    case SquareWave => "Square Wave"
    case TriangleWave => "Triangle Wave"
    case SawtoothWave => "Sawtooth Wave"
    case ExponentialDecay => "Exponential Decay"
    case UnitStep => "Unit Step"
    case Impulse => "Impulse"
    case GaussianPulse => "Gaussian Pulse"
    case CustomFunction => "Custom Function"
  }

  /** The string comparison chain of `generate`: a name selects a family or nothing. */
  function ParseSignal(name: string): (r: Option<SignalTag>)
    ensures r.Some? ==> SignalName(r.value) == name
    ensures r.None? ==> forall tag: SignalTag :: SignalName(tag) != name
  {
    if name == "Sine Wave" then Some(SineWave)
    else if name == "Cosine Wave" then Some(CosineWave)
    else if name == "Square Wave" then Some(SquareWave)
    else if name == "Triangle Wave" then Some(TriangleWave)
    else if name == "Sawtooth Wave" then Some(SawtoothWave)
    else if name == "Exponential Decay" then Some(ExponentialDecay)
    else if name == "Unit Step" then Some(UnitStep)
    else if name == "Impulse" then Some(Impulse)
    else if name == "Gaussian Pulse" then Some(GaussianPulse)
    else if name == "Custom Function" then Some(CustomFunction)
    else None
  }

  lemma SignalNameRoundTrip(tag: SignalTag)
    ensures ParseSignal(SignalName(tag)) == Some(tag)
  {
  }

  // ---------------------------------------------------------------------------
  // The sampling grid

  /** The generator's state: sampling rate, duration and the time grid. */
  datatype Generator = Generator(fs: real, duration: real, t: seq<real>)

  /** The number of samples: Python `int(fs * duration)`. */
  function SampleCount(fs: real, duration: real): int {
    Trunc(fs * duration)
  }

  /** `linspace(0, duration, int(fs·duration), endpoint=False)`: n samples
      t[i] = i·duration/n; a negative count raises. */
  function TimeVector(fs: real, duration: real): (r: Result<seq<real>>)
    ensures r.Err? <==> SampleCount(fs, duration) < 0
    ensures r.Err? ==> r.error == NegativeSampleCount(SampleCount(fs, duration))
    ensures r.Ok? ==> |r.value| == SampleCount(fs, duration)
    ensures r.Ok? ==> forall i :: 0 <= i < |r.value| ==>
              r.value[i] == i as real * (duration / |r.value| as real)
  {
    var n := SampleCount(fs, duration);
    var r := Sampling.LinSpace(0.0, duration, n, false);
    if n >= 0 then
      assert forall i :: 0 <= i < n ==> r.value[i] == i as real * (duration / n as real) by {
        forall i | 0 <= i < n
          ensures r.value[i] == i as real * (duration / n as real)
        {
          Sampling.LinSpacePoint(0.0, duration, n, false, i);
        }
      }
      r
    else r
  }

  /** The grid held by a generator is the one its rate and duration determine. */
  predicate Consistent(g: Generator) {
    TimeVector(g.fs, g.duration) == Ok(g.t)
  }

  /** `__init__`. */
  function Init(fs: real, duration: real): (r: Result<Generator>)
    ensures r.Err? <==> SampleCount(fs, duration) < 0
    ensures r.Err? ==> r.error == NegativeSampleCount(SampleCount(fs, duration))
    ensures r.Ok? ==> r.value.fs == fs && r.value.duration == duration && Consistent(r.value)
  {
    match TimeVector(fs, duration)
    case Err(e) => Err(e)
    case Ok(t) => Ok(Generator(fs, duration, t))
  }

  /** The rate and duration a generator is built with when none are given. */
  const DefaultSamplingRate: real := 1000.0
  const DefaultDuration: real := 2.0

  /** The default generator holds 2000 samples, one millisecond apart. */
  lemma DefaultGenerator(i: nat)
    requires i + 1 < 2000
    ensures Init(DefaultSamplingRate, DefaultDuration).Ok?
    ensures var t := Init(DefaultSamplingRate, DefaultDuration).value.t;
              |t| == 2000 && t[i + 1] - t[i] == 0.001
  {
    assert SampleCount(DefaultSamplingRate, DefaultDuration) == 2000;
  }

  /** Over a positive duration the grid starts at 0, increases strictly and stays
      below the duration. */
  lemma TimeVectorShape(fs: real, duration: real)
    requires duration > 0.0 && SampleCount(fs, duration) >= 0
    ensures var t := TimeVector(fs, duration).value;
              && (|t| > 0 ==> t[0] == 0.0)
              && (forall i, j :: 0 <= i < j < |t| ==> t[i] < t[j])
              && (forall i :: 0 <= i < |t| ==> 0.0 <= t[i] < duration)
  {
    var n := SampleCount(fs, duration);
    Sampling.LinSpaceIncreasing(0.0, duration, n, false);
    Sampling.LinSpaceWithin(0.0, duration, n);
  }

  /** The spacing is duration/int(fs·duration); it is 1/fs when fs·duration is a
      whole number. */
  lemma TimeVectorSpacing(fs: real, duration: real, i: nat)
    requires fs > 0.0 && duration > 0.0
    requires (fs * duration).Floor as real == fs * duration
    requires i + 1 < SampleCount(fs, duration)
    ensures var t := TimeVector(fs, duration).value;
              t[i + 1] - t[i] == 1.0 / fs
  {
    var n := SampleCount(fs, duration);
    var t := TimeVector(fs, duration).value;
    assert n as real == fs * duration;
    calc {
      t[i + 1] - t[i];
      (i + 1) as real * (duration / n as real) - i as real * (duration / n as real);
      duration / n as real;
      duration / (fs * duration);
    == { ScaledQuotient(duration, 1.0 / fs); }
      1.0 / fs;
    }
  }

  // ---------------------------------------------------------------------------
  // Generation

  /** The keyword arguments `generate` reads for the modelled families; `None` is
      a missing keyword. */
  datatype SignalParams = SignalParams(
    amplitude: Option<real>,
    frequency: Option<real>,
    phase: Option<real>,
    dcOffset: Option<real>,
    stepTime: Option<real>,
    impulseTime: Option<real>)

  const NoParams := SignalParams(None, None, None, None, None, None)

  /** The index `np.argmin(|t − s|)` selects: the first index among those at the
      smallest distance from s. */
  predicate IsFirstNearest(t: seq<real>, s: real, k: int) {
    && 0 <= k < |t|
    && (forall i :: 0 <= i < |t| ==> Abs(t[k] - s) <= Abs(t[i] - s))
    && (forall i :: 0 <= i < k ==> Abs(t[k] - s) < Abs(t[i] - s))
  }

  /** The scan `argmin` performs: keep the best index so far, replace it only on
      a strictly smaller distance. */
  function FirstNearest(t: seq<real>, s: real): (k: nat)
    requires |t| > 0
    ensures IsFirstNearest(t, s, k)
    decreases |t|
  {
    if |t| == 1 then 0
    else
      var last := |t| - 1;
      var k := FirstNearest(t[..last], s);
      NearestExtends(t, s, k);
      if Abs(t[last] - s) < Abs(t[k] - s) then last else k
  }

  /** One more sample: it becomes the first nearest only when strictly nearer
      than the best of the samples before it. */
  lemma NearestExtends(t: seq<real>, s: real, k: int)
    requires |t| > 1 && IsFirstNearest(t[..|t| - 1], s, k)
    ensures IsFirstNearest(t, s, if Abs(t[|t| - 1] - s) < Abs(t[k] - s) then |t| - 1 else k)
  {
    var last := |t| - 1;
    var prefix := t[..last];
    forall i | 0 <= i < last
      ensures Abs(t[i] - s) == Abs(prefix[i] - s)
    {
    }
  }

  /** Only one index is the first nearest. */
  lemma FirstNearestUnique(t: seq<real>, s: real, k: int)
    requires |t| > 0
    ensures IsFirstNearest(t, s, k) <==> k == FirstNearest(t, s)
  {
    var m := FirstNearest(t, s);
  }

  /** The unit step: amplitude plus offset from the step time on, the offset
      before. */
  function StepSignal(t: seq<real>, amplitude: real, dcOffset: real, stepTime: real): (x: seq<real>)
    ensures |x| == |t|
    ensures forall i :: 0 <= i < |t| ==> x[i] == if t[i] >= stepTime then amplitude + dcOffset else dcOffset
  {
    seq(|t|, i requires 0 <= i < |t| => amplitude * (if t[i] >= stepTime then 1.0 else 0.0) + dcOffset)
  }

  /** The impulse: the amplitude at the sample nearest the impulse time, zero
      everywhere else; no offset is added. */
  function ImpulseSignal(t: seq<real>, amplitude: real, impulseTime: real): (x: seq<real>)
    requires |t| > 0
    ensures |x| == |t|
    ensures forall i :: 0 <= i < |t| ==>
              x[i] == if IsFirstNearest(t, impulseTime, i) then amplitude else 0.0
  {
    var k := FirstNearest(t, impulseTime);
    FirstNearestUnique(t, impulseTime, k);
    assert forall i :: 0 <= i < |t| ==> (IsFirstNearest(t, impulseTime, i) <==> i == k) by {
      forall i | 0 <= i < |t| ensures IsFirstNearest(t, impulseTime, i) <==> i == k {
        FirstNearestUnique(t, impulseTime, i);
      }
    }
    seq(|t|, i => if i == k then amplitude else 0.0)
  }

  /** The signal of one family on the grid t, with the keyword defaults of
      `generate`: amplitude 1, frequency 1, phase 0, offset 0, step and impulse
      time 0. */
  function FamilySignal(tag: SignalTag, t: seq<real>, p: SignalParams,
                        waveform: (real, real, real) -> real, custom: Option<seq<real>>): (r: Result<seq<real>>)
    ensures r.Ok? && tag != CustomFunction ==> |r.value| == |t|
    ensures r.Err? ==>
              || (tag == Impulse && r == Err(EmptySequence) && |t| == 0)
              || (tag == CustomFunction && r == Err(InvalidExpression) && custom.None?)
    ensures tag == Impulse && |t| == 0 ==> r == Err(EmptySequence)
    ensures tag == CustomFunction && custom.None? ==> r == Err(InvalidExpression)
    ensures tag == UnitStep ==>
              r == Ok(StepSignal(t, p.amplitude.GetOr(1.0), p.dcOffset.GetOr(0.0), p.stepTime.GetOr(0.0)))
    ensures tag == Impulse && |t| > 0 ==>
              r == Ok(ImpulseSignal(t, p.amplitude.GetOr(1.0), p.impulseTime.GetOr(0.0)))
    ensures tag == CustomFunction && custom.Some? ==>
              r.Ok? && |r.value| == |custom.value|
              && forall i :: 0 <= i < |custom.value| ==> r.value[i] == custom.value[i] + p.dcOffset.GetOr(0.0)
  {
    var amplitude := p.amplitude.GetOr(1.0);
    var frequency := p.frequency.GetOr(1.0);
    var phase := p.phase.GetOr(0.0);
    var dcOffset := p.dcOffset.GetOr(0.0);
    match tag
    case UnitStep =>
      Ok(StepSignal(t, amplitude, dcOffset, p.stepTime.GetOr(0.0)))
    case Impulse =>
      if |t| == 0 then Err(EmptySequence)
      else Ok(ImpulseSignal(t, amplitude, p.impulseTime.GetOr(0.0)))
    case CustomFunction =>
      (match custom
       case None => Err(InvalidExpression)
       case Some(v) => Ok(seq(|v|, i requires 0 <= i < |v| => v[i] + dcOffset)))
    case _ =>
      Ok(seq(|t|, i requires 0 <= i < |t| => amplitude * waveform(frequency, phase, t[i]) + dcOffset))
  }

  /** `generate`. The periodic, decaying and Gaussian families are
      `amplitude · waveform(frequency, phase, t) + dc_offset`, where `waveform` is
      the family's shape; the custom family adds the offset to the evaluated
      expression (`None` when evaluating it raised). The result is the time grid
      and the signal. */
  function Generate(g: Generator, name: string, p: SignalParams,
                    waveform: (real, real, real) -> real, custom: Option<seq<real>>): (r: Result<(seq<real>, seq<real>)>)
    ensures ParseSignal(name).None? ==> r == Err(UnknownSignalType(name))
    ensures r.Ok? ==> r.value.0 == g.t
    ensures r.Ok? && ParseSignal(name) != Some(CustomFunction) ==> |r.value.1| == |g.t|
    ensures r.Err? ==> ParseSignal(name).None?
                       || (ParseSignal(name) == Some(Impulse) && r == Err(EmptySequence) && |g.t| == 0)
                       || (ParseSignal(name) == Some(CustomFunction) && r == Err(InvalidExpression) && custom.None?)
    ensures ParseSignal(name) == Some(Impulse) && |g.t| == 0 ==> r == Err(EmptySequence)
    ensures ParseSignal(name) == Some(CustomFunction) && custom.None? ==> r == Err(InvalidExpression)
    ensures ParseSignal(name) == Some(UnitStep) ==>
              r == Ok((g.t, StepSignal(g.t, p.amplitude.GetOr(1.0), p.dcOffset.GetOr(0.0), p.stepTime.GetOr(0.0))))
    ensures ParseSignal(name) == Some(Impulse) && |g.t| > 0 ==>
              r == Ok((g.t, ImpulseSignal(g.t, p.amplitude.GetOr(1.0), p.impulseTime.GetOr(0.0))))
    ensures ParseSignal(name) == Some(CustomFunction) && custom.Some? ==>
              r.Ok? && |r.value.1| == |custom.value|
              && forall i :: 0 <= i < |custom.value| ==> r.value.1[i] == custom.value[i] + p.dcOffset.GetOr(0.0)
  {
    match ParseSignal(name)
    case None => Err(UnknownSignalType(name))
    case Some(tag) =>
      match FamilySignal(tag, g.t, p, waveform, custom)
      case Err(e) => Err(e)
      case Ok(x) => Ok((g.t, x))
  }

  /** Missing keywords read as amplitude 1, frequency 1, phase 0, offset 0, step
      time 0 and impulse time 0. */
  lemma GenerateDefaults(g: Generator, name: string, waveform: (real, real, real) -> real, custom: Option<seq<real>>)
    ensures Generate(g, name, NoParams, waveform, custom)
              == Generate(g, name, SignalParams(Some(1.0), Some(1.0), Some(0.0), Some(0.0), Some(0.0), Some(0.0)), waveform, custom)
  {
  }

  /** On an increasing grid the unit step is the offset up to some sample and
      amplitude plus offset from there on. */
  lemma StepIsSuffix(t: seq<real>, amplitude: real, dcOffset: real, stepTime: real)
    requires forall i, j :: 0 <= i < j < |t| ==> t[i] < t[j]
    ensures exists m :: 0 <= m <= |t| &&
              StepSignal(t, amplitude, dcOffset, stepTime)
                == Constant(m, dcOffset) + Constant(|t| - m, amplitude + dcOffset)
  {
    var m := FirstAtOrAfter(t, stepTime);
    var x := StepSignal(t, amplitude, dcOffset, stepTime);
    var y := Constant(m, dcOffset) + Constant(|t| - m, amplitude + dcOffset);
    forall i | 0 <= i < |t| ensures x[i] == y[i] {
      if i >= m {
        assert t[m] <= t[i];
      }
    }
    assert x == y;
  }

  /** The first index whose time is at or after s (the length when none is). */
  function FirstAtOrAfter(t: seq<real>, s: real): (m: nat)
    ensures m <= |t|
    ensures forall i :: 0 <= i < m ==> t[i] < s
    ensures m < |t| ==> t[m] >= s
    decreases |t|
  {
    if |t| == 0 then 0
    else if t[0] >= s then 0
    else 1 + FirstAtOrAfter(t[1..], s)
  }

  /** On the generator's grid, an impulse placed exactly on a sample lands on
      that sample. */
  lemma ImpulseOnGridPoint(g: Generator, amplitude: real, j: nat)
    requires Consistent(g) && g.duration > 0.0 && j < |g.t|
    ensures ImpulseSignal(g.t, amplitude, g.t[j])[j] == amplitude
    ensures forall i :: 0 <= i < |g.t| && i != j ==> ImpulseSignal(g.t, amplitude, g.t[j])[i] == 0.0
  {
    TimeVectorShape(g.fs, g.duration);
    var s := g.t[j];
    assert IsFirstNearest(g.t, s, j) by {
      forall i | 0 <= i < j ensures Abs(g.t[j] - s) < Abs(g.t[i] - s) {
        assert g.t[i] < g.t[j];
      }
    }
    FirstNearestUnique(g.t, s, j);
    forall i | 0 <= i < |g.t| && i != j
      ensures !IsFirstNearest(g.t, s, i)
    {
      FirstNearestUnique(g.t, s, i);
    }
  }

  // ---------------------------------------------------------------------------
  // set_parameters

  /** The generator after `set_parameters`, and the error it raised if any. The
      new rate and duration are stored before the grid is rebuilt, so a failed
      rebuild leaves them changed and the old grid in place. */
  datatype Update = Update(generator: Generator, error: Option<Error>)

  function SetParameters(g: Generator, fs: Option<real>, duration: Option<real>): (u: Update)
    ensures u.generator.fs == fs.GetOr(g.fs)
    ensures u.generator.duration == duration.GetOr(g.duration)
    ensures u.error.None? <==> SampleCount(u.generator.fs, u.generator.duration) >= 0
    ensures u.error.Some? ==>
              u.error.value == NegativeSampleCount(SampleCount(u.generator.fs, u.generator.duration))
    ensures u.error.None? ==> Consistent(u.generator)
    ensures u.error.Some? ==> u.generator.t == g.t
  {
    var fs' := fs.GetOr(g.fs);
    var duration' := duration.GetOr(g.duration);
    match TimeVector(fs', duration')
    case Err(e) => Update(Generator(fs', duration', g.t), Some(e))
    case Ok(t) => Update(Generator(fs', duration', t), None)
  }

  /** Setting nothing on a consistent generator changes nothing. */
  lemma SetNothingKeeps(g: Generator)
    requires Consistent(g)
    ensures SetParameters(g, None, None) == Update(g, None)
  {
  }

  /** Setting both values builds the same generator `__init__` would. */
  lemma SetBothIsInit(g: Generator, fs: real, duration: real)
    ensures var u := SetParameters(g, Some(fs), Some(duration));
              match Init(fs, duration)
              case Ok(h) => u == Update(h, None)
              case Err(e) => u.error == Some(e)
  {
  }
}
