# Signals and systems simulator: core model

This project models the computational core of an educational signals-and-systems
simulator. The simulator generates test signals on a sampling grid. It builds
linear time-invariant (LTI) systems from a family name and keyword parameters.
It computes their impulse, step and frequency responses, and runs signals
through them. It also validates and normalises signals, and evaluates Laplace
and Z transfer functions at a point.

Arithmetic is idealised: `real` stands for a float and a pair of reals stands
for a complex number. The difference equation that `scipy.signal.lfilter`
implements is given its documented meaning:

  a[0]·y[n] = Σ_k b[k]·x[n−k] − Σ_{k≥1} a[k]·y[n−k], where samples before time 0 are 0.

It is defined once (`Filtering.LFilter`) and used wherever the simulator filters.

Modules, one per concern:

- `Outcomes`: `Option`, `Result`, and the errors the simulator raises.
- `Numeric`: Python `int()` on floats (truncation toward 0), `np.clip`, sums.
- `Complex`: complex arithmetic, with division characterised by `q·y = x`.
- `Sampling`: `numpy.linspace`.
- `Filtering`: the `lfilter` recurrence, its characterisation as the unique
  solution of the difference equation, and a loop implementation of it.
- `SystemAnalyzer`:
  - `create_system` and its parameter clamps;
  - the custom-coefficient checks;
  - the dispatch in `impulse_response`, `step_response`,
    `frequency_response` and `apply_system`.
- `SignalGenerator`:
  - the time grid;
  - `generate`, with the unit step and the impulse in full;
  - `set_parameters`.
- `Utils`: `validate_signal` and `normalize_signal`.
- `Transform`: `LaplaceTransform.evaluate` and `ZTransform.evaluate`.

Behaviour of the code worth knowing:

- A custom system trims only EXACT zeros from the front of its coefficient
  lists. An all-zero denominator becomes `[1]`, so a denominator of `[0]` is
  accepted (`SystemAnalyzer.CustomZeroDenominator`).
- The grid spacing is `duration / int(fs·duration)`. It equals `1/fs` only when
  `fs·duration` is a whole number (`SignalGenerator.TimeVectorSpacing`).
- The fallback frequency grid has `n_points // 2 + 1` points starting at 0. It
  ends at the Nyquist frequency when it has two or more points; with
  `n_points` 0 or 1 it is the single point 0.
- On an empty time grid, the impulse response fails when it writes sample 0.
  The step response returns an empty response instead, with one exception. An
  improper system with a single denominator coefficient, such as every moving
  average with a window of 2 or more, is filtered as a convolution. A
  convolution refuses an empty input.
- The band-pass fallback band (5 Hz, 15 Hz) is not checked against Nyquist again
  (`SystemAnalyzer.FallbackBandCanExceedNyquist`).

Calls into code whose body is not modelled are parameters of the model:

- the state-space routines `dimpulse`/`dstep` and `freqz`: an `Option` of their
  answer, where `None` means the call raised;
- the waveform shape of the transcendental signal families: a function
  parameter;
- the evaluated custom expression: an `Option` of the evaluated samples;
- custom coefficient strings: the `Coefficients` datatype (absent, not
  evaluable, or a list).

## Model

| member | source | states |
|---|---|---|
| SystemAnalyzer.ParseSystem | core/system_analyzer.py:32-106 | a name selects the family whose display name it is, and an unknown name selects none |
| SystemAnalyzer.SystemNameRoundTrip | config/__init__.py:31-39 | every one of the seven system families is selected by its own display name |
| SystemAnalyzer.LowPassCutoff | core/system_analyzer.py:33-38 | for fs > 0 the normalised cutoff is below 1 (and above 0 for a positive cutoff); at or above Nyquist it is exactly 0.99; below Nyquist it times Nyquist is the cutoff |
| SystemAnalyzer.HighPassCutoff | core/system_analyzer.py:41-48 | for fs > 0 the normalised cutoff lies strictly in (0, 1); a non-positive cutoff acts as 1 Hz; a cutoff inside (0, Nyquist) is kept; a clamped one gives 0.99 |
| SystemAnalyzer.BandEdges | core/system_analyzer.py:51-59 | the low edge is at least 0.1 and below the high edge; edges are max(low, 0.1) and min(high, 0.99·Nyquist) when those form a band, else exactly (5, 15); outside the fallback the high edge is at most 0.99·Nyquist |
| SystemAnalyzer.BandPassCutoffs | core/system_analyzer.py:54-62 | the two entries are the band edges divided by Nyquist; for fs > 0, 0 < low < high; the high entry is at most 0.99 unless the fallback band was taken, and below 1 when fs > 30 |
| SystemAnalyzer.MovingAverageCoefficients | core/system_analyzer.py:64-68 | the window is clamped to at least 1; b holds that many copies of 1/window, so Σb = 1; a = [1] |
| SystemAnalyzer.DifferentiatorCoefficients | core/system_analyzer.py:71-74 | b = [1, −1], a = [1, −α] with α clipped to [0, 0.999]: an α inside the range is kept, a negative α gives 0 and a larger one gives 0.999; the pole has magnitude below 1 |
| SystemAnalyzer.IntegratorCoefficients | core/system_analyzer.py:77-80 | b = [1], a = [1, −β] with β clipped to [0, 0.9999]: a β inside the range is kept, a negative β gives 0 and a larger one gives 0.9999; the pole has magnitude below 1 |
| SystemAnalyzer.TrimFront | core/system_analyzer.py:94-95 | the result is a suffix of the input, everything dropped was an exact zero, and a non-empty result starts with a non-zero |
| SystemAnalyzer.CustomCoefficients | core/system_analyzer.py:82-104 | refused, always with the invalid-coefficients error, exactly when a list is unevaluable or empty or the front-trimmed denominator starts with a coefficient of magnitude below 1e-12; on success both lists are non-empty and the leading denominator coefficient has magnitude at least 1e-12 |
| SystemAnalyzer.CustomRefusesMalformed | core/system_analyzer.py:84-91 | an unevaluable list or an empty list is refused with the invalid-coefficients error |
| SystemAnalyzer.CustomAbsentIsOne | core/system_analyzer.py:82-83 | a missing numerator or denominator behaves exactly like the list [1], whatever the other list is |
| SystemAnalyzer.CustomDefaults | core/system_analyzer.py:82-83 | with neither list given the system is b = a = [1] |
| SystemAnalyzer.CustomNumerator | core/system_analyzer.py:94-96 | an accepted numerator is the list without its front zeros, or [0] when it held only zeros |
| SystemAnalyzer.CustomDenominator | core/system_analyzer.py:95-97 | an accepted denominator is the list without its front zeros, or [1] when it held only zeros |
| SystemAnalyzer.CustomZeroDenominator | core/system_analyzer.py:97-101 | the denominator [0] is accepted and becomes [1] |
| SystemAnalyzer.CustomLeadingZeroDenominator | core/system_analyzer.py:95-97 | the denominator [0, 1] becomes [1] |
| SystemAnalyzer.CustomTrimsFrontOnly | core/system_analyzer.py:94-96 | [0, 0, 2, 0] becomes [2, 0]: zeros after the first non-zero stay |
| SystemAnalyzer.CustomRefusals | core/system_analyzer.py:90-101 | an empty denominator is refused, and so is [0, 1e-13], whose trimmed leading coefficient is below 1e-12 |
| SystemAnalyzer.Order | core/system_analyzer.py:34 | the Butterworth order is the given order truncated toward zero, or 4 when none is given |
| SystemAnalyzer.CreateSystem | core/system_analyzer.py:14-108 | an unknown name is the unknown-system error. A Butterworth family fails exactly when fs = 0 (division by a zero Nyquist); otherwise it requests the parsed order, its band type and its normalised cutoffs (defaults: cutoff 10, band 5 to 15, order 4). The moving average, differentiator and integrator yield their coefficient pairs (defaults: window 5, α 0.95, β 0.99). A custom system fails, with the invalid-coefficients error, exactly when its coefficients are refused, and otherwise yields them. Every coefficient pair returned has non-empty lists and a leading denominator coefficient of magnitude at least 1e-12 |
| SystemAnalyzer.InvertedBandFallsBack | core/system_analyzer.py:56-61 | an inverted band (low 50, high 10) at 1000 Hz silently becomes the (5, 15) Hz band |
| SystemAnalyzer.FallbackBandCanExceedNyquist | core/system_analyzer.py:57-61 | at 20 Hz sampling the fallback band's upper edge normalises to 1.5, above Nyquist |
| SystemAnalyzer.ResponseTimes | core/system_analyzer.py:113-114 | a given grid is used as is; the default grid has n = int(2·fs) samples at t[i] = 2i/n (from 0, the end point 2 excluded) and fails, with the negative-sample-count error for n, only when n is negative |
| SystemAnalyzer.ImpulseResponse | core/system_analyzer.py:110-141 | grid errors propagate; otherwise it fails, with an index error, exactly when the grid is empty and sample 0 would be written (static gain, improper system, or the fallback). A static gain gives b0/a0 at sample 0 and 0 at every other sample. A proper system uses the state-space answer whenever there is one |
| SystemAnalyzer.ImpulseResponseMatchesRecurrence | core/system_analyzer.py:117-141 | whenever the state-space answer is not used (static gain, improper system, or a raised call), the response on the grid is the recurrence driven by a unit impulse of the grid's length |
| SystemAnalyzer.StepResponse | core/system_analyzer.py:143-170 | grid errors propagate; otherwise it fails exactly for an improper system with one denominator coefficient on an empty grid (a convolution of nothing). A static gain gives the constant b0/a0 on the whole grid. A proper system uses the state-space answer whenever there is one |
| SystemAnalyzer.StepResponseMatchesRecurrence | core/system_analyzer.py:150-170 | whenever the state-space answer is not used, the response is the recurrence driven by all ones of the grid's length |
| SystemAnalyzer.FreqResponse | core/system_analyzer.py:172-187 | the frequency routine's answer when it succeeded; otherwise n_points // 2 + 1 zero values on evenly spaced frequencies starting at 0 and ending at fs/2 when there are two or more of them, failing only for a negative point count and then with the negative-sample-count error for n_points // 2 + 1 |
| SystemAnalyzer.DefaultResponseGrid | core/system_analyzer.py:11-12 | with the analyzer's default rate the default response grid has 2000 samples |
| SystemAnalyzer.DefaultFallbackGrid | core/system_analyzer.py:172-187 | with the default 1024 points the fallback grid has 513 frequencies, fs/1024 apart |
| SystemAnalyzer.ApplySystem | core/system_analyzer.py:189-194 | empty input gives empty output for any coefficients, well-formed or not; for a non-empty input the output satisfies the system's difference equation at every sample |
| SystemAnalyzer.ApplySystemUnique | core/system_analyzer.py:192-194 | a sequence satisfies the difference equation for the input exactly when it is the output of `apply_system` |
| SystemAnalyzer.MovingAveragePassesConstants | core/system_analyzer.py:63-68 | a moving average built by create_system passes a constant signal unchanged once its window is full |
| Filtering.LFilter | core/system_analyzer.py:194 | the filter returns one output sample per input sample; its values are characterised by `Filtering.RecurrenceUnique` |
| Filtering.RecurrenceUnique | core/system_analyzer.py:194 | a sequence satisfies a0·y[n] + Σ_{k≥1} a_k·y[n−k] = Σ b_k·x[n−k] for all n exactly when it is the filter output |
| Filtering.LFilterPrefix | core/system_analyzer.py:194 | the filter is causal: a prefix of the input determines the same prefix of the output |
| Filtering.Filter | core/system_analyzer.py:194 | the direct-form loop, with inner passes over numerator and denominator, computes exactly the recurrence |
| Filtering.FirOutput | core/system_analyzer.py:194 | without feedback (a single denominator coefficient) each output sample is the weighted window Σ b_k·x[n−k] divided by a0 |
| Filtering.FirImpulseResponse | core/system_analyzer.py:123-128 | without feedback the unit-impulse response is b[n]/a0 for n < |b| and 0 afterwards |
| Filtering.FirSettles | core/system_analyzer.py:155-159 | without feedback the response to a constant v is v·Σb/a0 once every tap sees the input |
| Filtering.StaticGainOutput | core/system_analyzer.py:117-120 | with single-coefficient b and a the filter scales every sample by b0/a0 |
| Sampling.LinSpace | core/signal_generator.py:24 | a negative count fails; otherwise count points starting at start, neighbours one step apart, the last equal to stop when the end point is included |
| Sampling.LinSpaceIncreasing | core/signal_generator.py:24 | over a non-empty interval the points strictly increase |
| Sampling.LinSpaceWithin | core/signal_generator.py:24 | without the end point every point lies in [start, stop) |
| SignalGenerator.ParseSignal | core/signal_generator.py:50-86 | a name selects the family whose display name it is, and an unknown name selects none |
| SignalGenerator.SignalNameRoundTrip | config/__init__.py:17-28 | every one of the ten signal families is selected by its own display name |
| SignalGenerator.TimeVector | core/signal_generator.py:24 | fails exactly when int(fs·duration) is negative, with the negative-sample-count error for that count; otherwise n = int(fs·duration) samples with t[i] = i·duration/n |
| SignalGenerator.Init | core/signal_generator.py:11-24 | the generator stores fs and duration and the grid they determine; it fails exactly when the sample count is negative, with the negative-sample-count error for that count |
| SignalGenerator.DefaultGenerator | core/signal_generator.py:11-24 | the default generator (1000 Hz, 2 s) holds 2000 samples one millisecond apart |
| SignalGenerator.TimeVectorShape | core/signal_generator.py:24 | over a positive duration the grid starts at 0, strictly increases and stays in [0, duration) |
| SignalGenerator.TimeVectorSpacing | core/signal_generator.py:24 | when fs·duration is a whole number, neighbouring samples are 1/fs apart |
| SignalGenerator.FirstNearest | core/signal_generator.py:71 | the index chosen is nearest to the target, and strictly nearer than every earlier index (argmin's first-index tie break) |
| SignalGenerator.FirstNearestUnique | core/signal_generator.py:71 | exactly one index has that property |
| SignalGenerator.StepSignal | core/signal_generator.py:66-67 | one sample per grid point: amplitude + offset where t ≥ step time, the offset elsewhere |
| SignalGenerator.StepIsSuffix | core/signal_generator.py:66-67 | on an increasing grid the step is a run of offsets followed by a run of amplitude + offset |
| SignalGenerator.ImpulseSignal | core/signal_generator.py:69-72 | one sample per grid point: the amplitude at the first nearest index to the impulse time, 0 everywhere else, with no offset |
| SignalGenerator.ImpulseOnGridPoint | core/signal_generator.py:69-72 | an impulse time equal to a grid time puts the amplitude exactly on that sample |
| SignalGenerator.FamilySignal | core/signal_generator.py:45-84 | the unit step is the step signal and the impulse the impulse signal, with the keyword defaults; an impulse on an empty grid fails with the empty-sequence error and an unevaluable custom expression with the invalid-expression error, and nothing else fails; a custom signal is the evaluated samples plus the offset |
| SignalGenerator.Generate | core/signal_generator.py:26-88 | an unknown name is the unknown-signal error; the only other failures are an impulse on an empty grid (the empty-sequence error) and an unevaluable custom expression (the invalid-expression error), and both always fail. Every result carries the generator's grid, and every non-custom signal has one sample per grid point. The unit step is the step signal and the impulse the impulse signal (no offset), both with the keyword defaults; the custom family adds the offset to each evaluated sample |
| SignalGenerator.GenerateDefaults | core/signal_generator.py:45-48 | missing keywords act as amplitude 1, frequency 1, phase 0, offset 0, step time 0 and impulse time 0 |
| SignalGenerator.SetParameters | core/signal_generator.py:90-96 | a missing argument keeps its field; the grid is rebuilt from the new fields, and when the rebuild fails the negative-sample-count error for the new count is recorded, the fields have changed but the old grid stays |
| SignalGenerator.SetNothingKeeps | core/signal_generator.py:90-96 | setting nothing on a consistent generator changes nothing |
| SignalGenerator.SetBothIsInit | core/signal_generator.py:90-96 | setting both fields gives the generator that construction with them gives |
| Utils.ValidateSignal | core/utils.py:7-15 | true exactly when the lengths agree, every sample is finite and the time axis strictly increases |
| Utils.GeneratedSignalsValidate | core/utils.py:7-15 | a generated non-custom signal over a positive duration passes validation |
| Utils.MaxAbs | core/utils.py:19 | the largest magnitude bounds every sample's magnitude and is attained |
| Utils.NormalizeSignal | core/utils.py:17-22 | an empty signal fails; otherwise the length is kept, an all-zero signal is returned unchanged, every value lies in [−1, 1] with its sign kept, and some value has magnitude 1 |
| Utils.NormalizeInverse | core/utils.py:17-22 | multiplying the normalised signal by the original peak magnitude gives the original signal back |
| Utils.NormalizeIdempotent | core/utils.py:17-22 | normalising twice is normalising once |
| Complex.Div | core/transform.py:73 | the quotient times the divisor is the dividend |
| Transform.FoldIsProduct | core/transform.py:64-71 | the accumulating loops compute the start value times the product of the factors (s − r) |
| Transform.ProductZero | core/transform.py:70-73 | the product of the factors vanishes exactly when s is one of the roots |
| Transform.LaplaceEvaluate | core/transform.py:44-73 | fails (division by zero) exactly when s is a pole; otherwise the value times Π(s − p) is gain·Π(s − z) |
| Transform.LaplaceCharacterised | core/transform.py:64-73 | away from the poles, h is the value exactly when h·Π(s − p) = gain·Π(s − z) |
| Transform.LaplaceConstant | core/transform.py:64-73 | with no zeros and no poles the value is the gain |
| Transform.LaplaceAtZero | core/transform.py:67-73 | at a zero that is not a pole the value is 0 |
| Transform.ZEvaluate | core/transform.py:79-100 | at z = 0 with more than one coefficient the result is not finite; elsewhere it fails exactly when Σ a[k]z^−k vanishes, and the value times that sum is Σ b[k]z^−k; single coefficients give b0/a0; at z = 1 the value is Σb/Σa |
| Transform.MovingAverageDcGain | core/transform.py:98-100 | every moving average create_system builds has gain 1 at z = 1 |
| Transform.StepSettlesToDcGain | core/transform.py:98-100 | without feedback, the step response settles on the value of the Z transfer function at z = 1 |

## Left out

- The Butterworth design itself (`scipy.signal.butter`) is not modelled. `CreateSystem` returns the order, band type and normalised critical frequencies it would be called with. The designer's own refusal of frequencies outside (0, 1) is not modelled either.
- `dlti`/`dimpulse`/`dstep` and the success path of `freqz` are parameters: an `Option` of their result, `None` when they raised. Their numerics belong to scipy.
- `nan_to_num` on the `freqz` answer is float clean-up and is not modelled.
- The transcendental waveforms are not modelled: sine, cosine, square, triangle, sawtooth, exponential decay and Gaussian pulse. A waveform function parameter stands for their shape, because they rest on `sin`, `exp` and scipy's waveform routines. Their family-specific keywords (duty cycle, width, decay rate, centre, standard deviation) live inside that parameter.
- Python `eval` of the custom function string and of the coefficient strings is not modelled. Its outcome is an input: the evaluated samples or `None`, and the `Coefficients` datatype.
- Fast Fourier transforms (`fft`, `fftfreq`, `ifft`) are not modelled; they are library numerics.
- `np.roots` in `generate_pole_zero_plot` is not modelled; it is library numerics.
- `calculate_snr` is not modelled; it needs `log10` and infinities.
- IEEE-754 arithmetic is replaced by exact reals: rounding, overflow, NaN and infinity. The sample finiteness check of `validate_signal` is kept through the `Sample` datatype. The time axis is taken as finite reals.
- Transform.ZEvaluate: a non-finite quotient is reported as the division-by-zero error. Numpy instead returns an infinity or NaN (for z = 0 with negative powers, or a vanishing denominator), and a separate error case is clearer than those values.
- Transform.LaplaceEvaluate: a zero denominator raises ZeroDivisionError in Python; the model reports it as the division-by-zero error.
- The default arguments of the constructors and of `frequency_response` are
  named constants of the model: fs = 1000 Hz and duration 2 s for the generator,
  fs = 1000 Hz for the analyzer, 1024 frequency points, and gain 1 for the
  Laplace evaluation (`Transform.LaplaceEvaluate` takes the gain as an
  argument). The model's
  functions take every argument explicitly; lemmas state what the defaults give.
- Python's exception types are collapsed into one `Error` datatype that names the cause. These are ValueError for unknown names, bad coefficients, an invalid custom function, a negative `linspace` sample count, and `argmin` or `convolve` over an empty array; IndexError for writing into an empty grid; and ZeroDivisionError.
- The response functions require a coefficient pair with non-empty lists and a[0] ≠ 0 (`WellFormed`). `CreateSystem` guarantees it for the moving average, differentiator, integrator and custom families. For the Butterworth families the coefficients come from `butter`, which is not modelled, and `WellFormed` is assumed of its output. What `lfilter` does with a zero a[0] is scipy internals.
- The GUI panels and the configuration constants are not modelled, except the two lists of family names.
