# EqualLoudness, modelled in Dafny

EqualLoudness (`main.cpp`) applies an equal-loudness weighting to a mono or
interleaved float signal. Only sample rates in a fixed set of eight are
accepted. The signal goes through two recursive (IIR) filters in turn:
- a 10th-order Yule-Walk stage, from `input` into `output`;
- a 2nd-order Butterworth high-pass stage, run in place on `output`.

Both stages use `IIR_filter`. It normalises the caller's coefficient arrays
by `denominator[0]` in place. It then runs a transposed direct-form delay
line of `max(|numerator|, |denominator|)` slots, with one of three loop
variants chosen by which coefficient array is longer. When the program is
given only an input file, it names the output after the input: it splits the
path with `splitpath` and appends `_out.wav` to drive, directory and name.

The project has six modules:

- `IirResponse` (`iir_response.dfy`): the meaning of a filter.
  - `Response(b, a, x)` is the output of the linear difference equation
    `y[n] = sum_{k<L} b[k]*x[n-k] - sum_{1<=k<L} a[k]*y[n-k]`. The shorter
    coefficient array is padded with zeros, and samples before the start
    count as zero.
  - `NormalizedNumerator` and `NormalizedDenominator` give the coefficients
    as `IIR_filter` leaves them.
  - The lemmas prove facts about these: causality, the identity filter,
    silence in and silence out, and the impulse response. They also prove
    that normalisation keeps the design's transfer function when the
    denominator has more than one coefficient or already leads with 1.
    Otherwise the numerator is left unscaled, and the output ignores
    `den[0]` (see SingleDenominatorIgnoresGain).
- `DelayLine` (`delay_line.dfy`): what each delay-line slot holds between
  samples (`Pending`), and the proof that one sample step, in whichever
  variant, yields the next output of `Response` and keeps the invariant.
- `IirFilter` (`iir_filter.dfy`): `IIR_filter` and `updateStateLine` over
  arrays that are updated in place. This covers the null and zero-leading-
  coefficient rejection, the in-place normalisation, the three loop variants
  and their tail loops. Each is proved against `Response`.
- `FloatBits` (`float_bits.dfy`): the bit test `renormalize` applies to an
  IEEE 754 single, and its product with 1.0 or 0.0. It shows that
  `renormalize` never changes a value. The filter, which works over the
  reals, therefore leaves it out as the identity.
- `EqualLoudness` (`equal_loudness.dfy`): the rate gate, the coefficient
  table (every literal of `main.cpp`, as a `real`) and the two-stage cascade.
  The cascade is proved to compute `Weighting(fs, x)`, the Butterworth stage
  applied to the Yule-Walk stage's output.
- `PathSplit` (`split_path.dfy`): `splitpath` as index scans over a
  `seq<char>`, where the end of the sequence plays the NUL terminator. It is
  proved against a declarative `IsSplit` that has exactly one solution per
  path. This module also holds the default output name.

## Model

| member | source | states |
|---|---|---|
| IirFilter.IirFilter | main.cpp:130-181 | If a pointer is null or `denominator[0]` is 0, nothing is written: output and both coefficient arrays are unchanged. Otherwise both coefficient arrays are normalised, `output[0..sampleCount)` is the difference-equation response (normalised coefficients) to the old `input[0..sampleCount)`, and the rest of `output` is unchanged. This also holds when input and output are the same array. |
| IirFilter.NormalizeCoefficients | main.cpp:140-151 | The denominator becomes `NormalizedDenominator` of the old one. The numerator becomes `NormalizedNumerator`, which is scaled by `1/den[0]` only when the denominator has more than one coefficient. |
| IirFilter.ScaleFrom | main.cpp:142-148 | Every element from index `from` on is multiplied by the factor. The elements before `from` are unchanged. |
| IirFilter.UpdateStateLine | main.cpp:121-128 | For `j < size-1`, slot `j` becomes `numerator[j+1]*in - denominator[j+1]*out` plus the old slot `j+1`. Slots from `size-1` on are untouched. |
| IirFilter.NumeratorTail | main.cpp:163-166 | Slots `from-1 .. L-2` take `numerator[j+1]*in` plus the old slot above. All other slots are untouched, including the last. |
| IirFilter.DenominatorTail | main.cpp:173-176 | Slots `from-1 .. L-2` take `-denominator[j+1]*out` plus the old slot above. All other slots are untouched, including the last. |
| IirFilter.StepEqualLengths | main.cpp:155-156 | `updateStateLine` over the whole line performs the shared zero-padded step (`Shifted`). |
| IirFilter.StepNumeratorLonger | main.cpp:162-166 | `updateStateLine` over the denominator's length, then the numerator tail, performs the same shared step. |
| IirFilter.StepDenominatorLonger | main.cpp:172-176 | `updateStateLine` over the numerator's length, then the denominator tail, performs the same shared step. |
| IirFilter.FilterEqualLengths | main.cpp:153-158 | The equal-lengths loop writes the response to `input[0..n)` into `output[0..n)` and nothing else. The delay line's last slot stays 0. |
| IirFilter.FilterNumeratorLonger | main.cpp:159-168 | The numerator-longer loop gives the same response (the zero-padded denominator). The last slot stays 0. |
| IirFilter.FilterDenominatorLonger | main.cpp:169-178 | The denominator-longer loop gives the same response (the zero-padded numerator). The last slot stays 0. |
| IirFilter.ShiftedEqualLengths | main.cpp:124-125 | Slot by slot, the equal-lengths update is the zero-padded step. |
| IirFilter.ShiftedNumeratorLonger | main.cpp:124-125 | The two-part numerator-longer update is the zero-padded step, since past the denominator `a[k]` counts as 0. |
| IirFilter.ShiftedDenominatorLonger | main.cpp:124-125 | The two-part denominator-longer update is the zero-padded step, since past the numerator `b[k]` counts as 0. |
| DelayLine.InitialState | main.cpp:134-135 | The zero-filled (calloc'ed) delay line of `max` slots matches the empty history. |
| DelayLine.StepAdvances | main.cpp:155-157 | `out = numerator[0]*in + state[0]` is the next output of the difference equation, and the shifted line matches again. |
| DelayLine.StepOutput | main.cpp:155 | The output half of `StepAdvances`. |
| DelayLine.StepState | main.cpp:156 | The delay-line half of `StepAdvances`. |
| DelayLine.PendingIsConv | main.cpp:124-125 | Slot `j` holds the closed-form pending sum `sum_{j<i<L} b[i]*x[n+j-i] - a[i]*y[n+j-i]`. |
| DelayLine.PendingAtStart | main.cpp:135 | Before the first sample nothing is pending. |
| DelayLine.PendingExtend | main.cpp:157 | A later output does not change what was pending earlier. |
| IirResponse.Response | main.cpp:153-179 | The response has one output per input sample. |
| IirResponse.ResponseDifferenceEquation | main.cpp:124-127 | Every output sample satisfies `y[n] = sum_{k<L} b[k]*x[n-k] - sum_{1<=k<L} a[k]*y[n-k]`, with zero padding. |
| IirResponse.ResponseCausal | main.cpp:154-158 | The first `m` outputs depend on the first `m` inputs only. |
| IirResponse.IdentityFilter | main.cpp:134 | With `numerator = [1]` and `denominator = [1]` the output is the input. |
| IirResponse.ZeroInZeroOut | main.cpp:153-157 | An all-zero input gives an all-zero output. |
| IirResponse.ImpulseResponse | main.cpp:153-179 | For a unit impulse, `y[n] = b[n] - sum_{1<=k<L} a[k]*y[n-k]`. |
| IirResponse.NormalizedDenominator | main.cpp:140-144 | The normalised denominator has a leading 1, and every other coefficient times `den[0]` gives back the caller's. |
| IirResponse.NormalizedNumerator | main.cpp:145-149 | With more than one denominator coefficient, the normalised numerator times `den[0]` gives back the caller's. With one, the numerator is unchanged. |
| IirResponse.NormalizationKeepsLeadingOne | main.cpp:141 | A denominator that already starts with 1 leaves both arrays as they were. |
| IirResponse.NormalizedScale | main.cpp:140-149 | When the denominator has more than one coefficient or already leads with 1, each normalised coefficient (other than `a[0]`) is the caller's times `1/den[0]`, with zero padding. Otherwise the numerator is not scaled (see SingleDenominatorIgnoresGain). |
| IirResponse.NormalizedDesignEquation | main.cpp:140-179 | When the denominator has more than one coefficient or already leads with 1, the filtered output satisfies the caller's un-normalised equation `sum den[k]*y[n-k] = sum num[k]*x[n-k]`. Otherwise it does not (see SingleDenominatorIgnoresGain). |
| IirResponse.ScaledDesignEquation | main.cpp:140-179 | The same holds for any coefficients that are the design's scaled by `1/den[0]`. |
| IirResponse.SingleDenominatorIgnoresGain | main.cpp:145 | With one denominator coefficient the numerator is not scaled, so the output ignores `den[0]`: `y = num * x`. |
| FloatBits.IsNaNPattern | main.cpp:118 | True exactly for the IEEE 754 NaN patterns (see NaNPatternExact). |
| FloatBits.NaNPatternExact | main.cpp:118 | The bit test holds exactly when the exponent is all ones and the fraction is non-zero (the IEEE 754 NaNs), whatever the sign. |
| FloatBits.Pack | main.cpp:117-118 | Packing a sign, an exponent and a fraction gives a pattern whose fields read back as given. |
| FloatBits.MultiplyByFlag | main.cpp:118 | The single-precision product with 1.0 or 0.0: a NaN stays a NaN, a value times 1.0 is itself, and a finite value times 0.0 is a signed zero. |
| FloatBits.Renormalize | main.cpp:112-119 | A value that is not a NaN comes back bit for bit. |
| FloatBits.RenormalizeChangesNothing | main.cpp:112-119 | `renormalize` keeps every non-NaN value and returns a NaN for a NaN, so it changes no value. |
| FloatBits.RenormalizeQuietNaN | main.cpp:118 | The quiet NaN `0x7FC00000` comes back unchanged. |
| EqualLoudness.SupportedRate | main.cpp:184-186 | True exactly for the eight accepted rates (see GateAcceptsExactly). |
| EqualLoudness.GateAcceptsExactly | main.cpp:184-187 | The rate gate accepts exactly 8000, 11025, 16000, 22050, 32000, 44100, 47250 and 48000. |
| EqualLoudness.Design | main.cpp:188-462 | Every accepted rate has an 11/11 Yule-Walk stage and a 3/3 Butterworth stage, and each denominator leads with 1. |
| EqualLoudness.ButterworthNumeratorSum | main.cpp:219-457 | Each Butterworth numerator is symmetric (`b[0] == b[2]`). Its three coefficients sum to exactly 0 for every rate except 11025, where the literals sum to exactly 1e-14. |
| EqualLoudness.StagesUseTableAsIs | main.cpp:464-466 | IIR_filter's normalisation leaves every table entry as written. |
| EqualLoudness.Stage | main.cpp:464 | One stage's output has one sample per input sample. |
| EqualLoudness.Weighting | main.cpp:464-466 | The weighting has one sample per input sample. |
| EqualLoudness.WeightingOfSilence | main.cpp:464-466 | Silence in gives silence out. |
| EqualLoudness.WeightingCausal | main.cpp:464-466 | The first `m` weighted samples depend on the first `m` inputs only. |
| EqualLoudness.RunStage | main.cpp:464-466 | One IIR_filter run on a table entry puts that stage's response in `output[0..size)` and leaves the rest unchanged. Input and output may alias. |
| EqualLoudness.EqualLoudness | main.cpp:183-467 | An unsupported rate leaves `output` untouched. Otherwise `output[0..size)` is the Yule-Walk stage followed by the Butterworth stage (the second run in place), and the rest of `output` is unchanged. |
| PathSplit.SplitPath | main.cpp:62-99 | The four parts concatenate back to the path. The drive is the first two characters exactly when the second is `:`. The directory is empty or ends in a separator. The name holds no separator. The extension starts at the last `.` of the final component before the first `:`, or at that `:`, or is empty. |
| PathSplit.CopyRange | main.cpp:90-97 | A copy loop yields exactly the characters between the two positions. |
| PathSplit.CharAt | main.cpp:66 | Reading at or past the end of a C string gives NUL, and only there. |
| PathSplit.FirstColon | main.cpp:74-75 | The scan stops at the first `:` or at the end. |
| PathSplit.Drive | main.cpp:66-73 | The drive is empty or two characters, and is a prefix of the path. |
| PathSplit.SplitUnique | main.cpp:62-99 | Two splits of the same path are equal, so `IsSplit` fixes all four parts. |
| PathSplit.SplitPositions | main.cpp:76-88 | In a split, the extension starts no later than the first `:`, and the directory ends at the last separator before the extension. |
| PathSplit.ExampleDriveAndDots | main.cpp:62-99 | `C:\music\song.v1.wav` splits into `C:`, `\music\`, `song.v1` and `.wav`. |
| PathSplit.ExampleStreamSuffix | main.cpp:74-83 | `dir/file.txt:ads` keeps `:ads` in the extension `.txt:ads`. |
| PathSplit.ExampleColonOnly | main.cpp:74-83 | `x/name:tag.b` has the extension `:tag.b`, because no `.` precedes the `:`. |
| PathSplit.DefaultOutputName | main.cpp:502-508 | The output name is drive + directory + name + `_out.wav` for the split of the input. It ends in `_out.wav`, and what precedes that is a prefix of the input. |

## Left out

- Reading and writing WAV or MP3 files (`wavRead_f32`, `wavWrite_f32`, `EqualLoudnessProcess`, main.cpp:24-59 and 469-486): file I/O through libraries that are not part of this model.
- `printUsage`, the banner, `getchar`, the timing calls `now`/`calcElapsed` and their report (main.cpp:101-110, 477-480, 490-496): console I/O and the clock.
- `malloc`/`free`, the `calloc` failure path of `IIR_filter`, and the leak of `state` on the early return (main.cpp:135-138): allocation in Dafny does not fail, and a leak has no observable effect in the model.
- IEEE 754 arithmetic in the filter: samples and coefficients are reals, so rounding, overflow to infinity, NaN propagation and the inexactness of `1.0f/x` are not modelled. `renormalize` is the identity there, and `FloatBits.RenormalizeChangesNothing` shows it changes no value.
- The frequency response and equal-loudness accuracy of the coefficient literals: they are constant data only.
- The fixed 3- and 256-character buffers and the unchecked `sprintf` (main.cpp:502-508): C buffer sizes and overflow are not modelled. Strings are unbounded sequences.
- PathSplit.SplitPath: models only the call with all four output buffers present, as at main.cpp:507. A null `ext`, `name` or `dir` only skips that copy. A null `drv` also leaves the path pointer on the drive letters (main.cpp:66-73), and `main` never calls it that way.
- EqualLoudness.EqualLoudness: takes non-null arrays. In the program both come from a successful read and `malloc` (main.cpp:473-478). For an unsupported rate, the model states that `output` is untouched. The program then writes that uninitialised buffer out as WAV, which is I/O.
- IirFilter.IirFilter: `numerator` and `denominator` are distinct from each other and from `input`/`output`, and both are non-empty when present. `numerator_size`/`denominator_size` are the arrays' lengths. Every caller in the program passes separate stack arrays of fixed sizes 11 or 3.
