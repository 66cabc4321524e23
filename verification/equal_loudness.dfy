/** EqualLoudness: a gate on the sample rate, a table of constant
    coefficients per accepted rate, and a cascade of two runs of IIR_filter
    (an order-10 Yule-Walk stage into the output, then an order-2
    Butterworth high-pass stage in place on the output). */
module EqualLoudness {
  import opened IirResponse
  import IirFilter

  /** The rate gate: fs is one of the eight accepted rates (the negation of
      the rejecting condition). */
  predicate SupportedRate(fs: nat)
  {
    !((fs != 44100) && (fs != 48000) && (fs != 47250) && (fs != 32000)
      && (fs != 8000) && (fs != 16000) && (fs != 22050) && (fs != 11025))
  }

  const SupportedRates: set<nat> := {8000, 11025, 16000, 22050, 32000, 44100, 47250, 48000}

  /** The gate accepts exactly the eight listed rates. */
  lemma {:induction false} GateAcceptsExactly(fs: nat)
    ensures SupportedRate(fs) <==> fs in SupportedRates
  {
  }

  /** One stage's coefficients: numerator b and denominator a. */
  datatype FilterDesign = FilterDesign(numerator: seq<real>, denominator: seq<real>)

  /** The two stages used for one sample rate. */
  datatype RateDesign = RateDesign(yulewalk: FilterDesign, butterworth: FilterDesign)

  /** The coefficient table: for each accepted rate, 11 + 11 Yule-Walk and
      3 + 3 Butterworth coefficients, every denominator led by 1. */
  function Design(fs: nat): (d: RateDesign)
    requires SupportedRate(fs)
    ensures |d.yulewalk.numerator| == 11 && |d.yulewalk.denominator| == 11
    ensures |d.butterworth.numerator| == 3 && |d.butterworth.denominator| == 3
    ensures d.yulewalk.denominator[0] == 1.0 && d.butterworth.denominator[0] == 1.0
  {
    if fs == 44100 then
      RateDesign(
        FilterDesign(
          [
            0.05418656406430, -0.02911007808948, -0.00848709379851, -0.00851165645469,
            -0.00834990904936, 0.02245293253339, -0.02596338512915, 0.01624864962975,
            -0.00240879051584, 0.00674613682247, -0.00187763777362
          ],
          [
            1.00000000000000, -3.47845948550071, 6.36317777566148, -8.54751527471874,
            9.47693607801280, -8.81498681370155, 6.85401540936998, -4.39470996079559,
            2.19611684890774, -0.75104302451432, 0.13149317958808
          ]),
        FilterDesign([0.98500175787242, -1.97000351574484, 0.98500175787242],
                     [1.00000000000000, -1.96977855582618, 0.97022847566350]))
    else if fs == 48000 then
      RateDesign(
        FilterDesign(
          [
            0.03857599435200, -0.02160367184185, -0.00123395316851, -0.00009291677959,
            -0.01655260341619, 0.02161526843274, -0.02074045215285, 0.00594298065125,
            0.00306428023191, 0.00012025322027, 0.00288463683916
          ],
          [
            1.00000000000000, -3.84664617118067, 7.81501653005538, -11.34170355132042,
            13.05504219327545, -12.28759895145294, 9.48293806319790, -5.87257861775999,
            2.75465861874613, -0.86984376593551, 0.13919314567432
          ]),
        FilterDesign([0.98621192462708, -1.97242384925416, 0.98621192462708],
                     [1.00000000000000, -1.97223372919527, 0.97261396931306]))
    else if fs == 47250 then
      RateDesign(
        FilterDesign(
          [
            0.04075143430640, -0.02061396627027, -0.00228770609680, -0.00238140312565,
            -0.01537780619267, 0.02133335742835, -0.02114825824762, 0.00708183842481,
            0.00212853002444, 0.00152799938087, 0.00221228083567
          ],
          [
            1.00000000000000, -3.74644140061599, 7.45035857658709, -10.67893227587523,
            12.23998062786813, -11.52095216425771, 8.91550816515888, -5.55055006643942,
            2.62104157502486, -0.83247558569372, 0.13364127665477
          ]),
        FilterDesign([0.98599460581381, -1.97198921162762, 0.98599460581381],
                     [1.00000000000000, -1.97179305094156, 0.97218537231369]))
    else if fs == 32000 then
      RateDesign(
        FilterDesign(
          [
            0.15457299681924, -0.09331049056315, -0.06247880153653, 0.02163541888798,
            -0.05588393329856, 0.04781476674921, 0.00222312597743, 0.03174092540049,
            -0.01390589421898, 0.00651420667831, -0.00881362733839
          ],
          [
            1.00000000000000, -2.37898834973084, 2.84868151156327, -2.64577170229825,
            2.23697657451713, -1.67148153367602, 1.00595954808547, -0.45953458054983,
            0.16378164858596, -0.05032077717131, 0.02347897407020
          ]),
        FilterDesign([0.97938932735214, -1.95877865470428, 0.97938932735214],
                     [1.00000000000000, -1.95835380975398, 0.95920349965459]))
    else if fs == 22050 then
      RateDesign(
        FilterDesign(
          [
            0.33821823115580, -0.26807847188177, -0.09661820705457, 0.10379911044027,
            -0.07497750759619, -0.00141546938980, -0.01014630122213, 0.05970529709297,
            0.00658436950009, -0.01493027897727, -0.01818092859084
          ],
          [
            1.00000000000000, -1.52049414776012, 0.93688375506972, 0.04029217863890,
            -0.75260565996584, 0.47653608952590, -0.16105897895529, 0.00024249729244,
            0.05754865070456, -0.03254539495824, 0.02762193632283
          ]),
        FilterDesign([0.97022837669833, -1.94045675339666, 0.97022837669833],
                     [1.00000000000000, -1.93957020735167, 0.94134329944165]))
    else if fs == 16000 then
      RateDesign(
        FilterDesign(
          [
            0.44915256608450, -0.14351757464547, -0.22784394429749, -0.01419140100551,
            0.04078262797139, -0.12398163381748, 0.04097565135648, 0.10478503600251,
            -0.01863887810927, -0.03193428438915, 0.00541907748707
          ],
          [
            1.00000000000000, -0.62820619233671, 0.29661783706366, -0.37256372942400,
            0.00213767857124, -0.42029820170917, 0.22199650564824, 0.00613424350682,
            0.06747620744683, 0.05784820375801, 0.03222754072173
          ]),
        FilterDesign([0.95920314963834, -1.91840629927668, 0.95920314963834],
                     [1.00000000000000, -1.91674122315762, 0.92007137539573]))
    else if fs == 11025 then
      RateDesign(
        FilterDesign(
          [
            0.57983338918994, -0.60372070665856, -0.02708386977708, 0.12153188507772,
            0.01968162528366, 0.15845839635954, -0.27059509296227, 0.06047050641721,
            0.04476881112971, -0.03608428784987, -0.00382749608177
          ],
          [
            1.00000000000000, -0.64025329972521, -0.16397965568041, -0.25691230129275,
            0.18528659764006, 0.33986554016836, -0.24963773504109, -0.00317434205112,
            -0.03528170263515, 0.02971468398012, 0.00880007392185
          ]),
        FilterDesign([0.94134179599236, -1.88268359198471, 0.94134179599236],
                     [1.00000000000000, -1.87923984223423, 0.88612734173520]))
    else // 8000, the only rate left once the gate has passed
      RateDesign(
        FilterDesign(
          [
            0.536487892551045, -0.421630343506963, -0.002759536119290, 0.042678422194153,
            -0.102148641796756, 0.145907722893880, -0.024598648593454, -0.112023151953880,
            -0.040600341270002, 0.047886655481804, -0.02217936801134
          ],
          [
            1.0, -0.250498719560207, -0.431939423111139, -0.034246810176745,
            -0.046783287842416, 0.264083002009554, 0.151131305332161, -0.175564933664496,
            -0.188230092621155, 0.054777204286738, 0.04704409688120
          ]),
        FilterDesign([0.92006615842917, -1.84013231685834, 0.92006615842917],
                     [1.0, -1.83373265892465, 0.84653197479202]))
  }

  /** Each Butterworth numerator is symmetric (b[0] == b[2]) and its three
      coefficients sum to zero, except at 11025 Hz, where the printed
      decimals of the middle coefficient leave a sum of exactly 1e-14. */
  lemma {:induction false} ButterworthNumeratorSum(fs: nat)
    requires SupportedRate(fs)
    ensures var b := Design(fs).butterworth.numerator; b[0] == b[2]
    ensures fs != 11025 ==> var b := Design(fs).butterworth.numerator; b[0] + b[1] + b[2] == 0.0
    ensures fs == 11025 ==> var b := Design(fs).butterworth.numerator; b[0] + b[1] + b[2] == 0.00000000000001
  {
  }

  /** What one run of IIR_filter computes for a stage, once its
      coefficients have been normalised. */
  function Stage(d: FilterDesign, x: seq<real>): (y: seq<real>)
    requires |d.denominator| >= 1 && d.denominator[0] != 0.0
    ensures |y| == |x|
  {
    Response(NormalizedNumerator(d.numerator, d.denominator), NormalizedDenominator(d.denominator), x)
  }

  /** The whole weighting: the Yule-Walk stage, then the Butterworth stage
      on its output. */
  function Weighting(fs: nat, x: seq<real>): (y: seq<real>)
    requires SupportedRate(fs)
    ensures |y| == |x|
  {
    Stage(Design(fs).butterworth, Stage(Design(fs).yulewalk, x))
  }

  /** Every table entry is led by 1, so IIR_filter's normalisation leaves it
      alone and each stage is the plain difference equation of the table's
      coefficients. */
  lemma {:induction false} StagesUseTableAsIs(fs: nat, x: seq<real>)
    requires SupportedRate(fs)
    ensures var d := Design(fs);
            Weighting(fs, x)
            == Response(d.butterworth.numerator, d.butterworth.denominator,
                        Response(d.yulewalk.numerator, d.yulewalk.denominator, x))
  {
    var d := Design(fs);
    NormalizationKeepsLeadingOne(d.yulewalk.numerator, d.yulewalk.denominator);
    NormalizationKeepsLeadingOne(d.butterworth.numerator, d.butterworth.denominator);
  }

  /** Silence in, silence out. */
  lemma {:induction false} WeightingOfSilence(fs: nat, x: seq<real>)
    requires SupportedRate(fs)
    requires forall i :: 0 <= i < |x| ==> x[i] == 0.0
    ensures forall i :: 0 <= i < |x| ==> Weighting(fs, x)[i] == 0.0
  {
    var d := Design(fs);
    var b := NormalizedNumerator(d.yulewalk.numerator, d.yulewalk.denominator);
    var a := NormalizedDenominator(d.yulewalk.denominator);
    ZeroInZeroOut(b, a, x);
    var mid := Stage(d.yulewalk, x);
    ZeroInZeroOut(NormalizedNumerator(d.butterworth.numerator, d.butterworth.denominator),
                  NormalizedDenominator(d.butterworth.denominator), mid);
  }

  /** The weighting is causal: the first m outputs depend only on the first
      m samples. */
  lemma {:induction false} WeightingCausal(fs: nat, x: seq<real>, m: nat)
    requires SupportedRate(fs) && m <= |x|
    ensures Weighting(fs, x[..m]) == Weighting(fs, x)[..m]
  {
    var d := Design(fs);
    var yb := NormalizedNumerator(d.yulewalk.numerator, d.yulewalk.denominator);
    var ya := NormalizedDenominator(d.yulewalk.denominator);
    var bb := NormalizedNumerator(d.butterworth.numerator, d.butterworth.denominator);
    var ba := NormalizedDenominator(d.butterworth.denominator);
    ResponseCausal(yb, ya, x, m);
    ResponseCausal(bb, ba, Response(yb, ya, x), m);
  }

  /** One stage as EqualLoudness runs it: the coefficients go into fresh
      arrays (the stack arrays By/Ay or Bb/Ab) and IIR_filter runs from input
      into output, which may be the same array. */
  method RunStage(input: array<real>, output: array<real>, size: nat, d: FilterDesign)
    requires size <= input.Length && size <= output.Length
    requires |d.numerator| >= 1 && |d.denominator| >= 1 && d.denominator[0] != 0.0
    modifies output
    ensures output[..size] == Stage(d, old(input[..size]))
    ensures output[size..] == old(output[size..])
  {
    var numerator := new real[|d.numerator|](i requires 0 <= i < |d.numerator| => d.numerator[i]);
    var denominator := new real[|d.denominator|](i requires 0 <= i < |d.denominator| => d.denominator[i]);
    assert numerator[..] == d.numerator && denominator[..] == d.denominator;
    IirFilter.IirFilter(input, output, size, denominator, numerator);
  }

  /** EqualLoudness. An unsupported rate leaves output as it was. Otherwise
      output[0..size) holds the weighting of input[0..size) and nothing past
      it changes; input and output may be the same array. */
  method EqualLoudness(input: array<real>, output: array<real>, size: nat, fs: nat)
    requires size <= input.Length && size <= output.Length
    modifies output
    ensures !SupportedRate(fs) ==> output[..] == old(output[..])
    ensures SupportedRate(fs) ==> output[..size] == Weighting(fs, old(input[..size]))
    ensures output[size..] == old(output[size..])
  {
    if (fs != 44100) && (fs != 48000) && (fs != 47250) && (fs != 32000)
       && (fs != 8000) && (fs != 16000) && (fs != 22050) && (fs != 11025) {
      return;
    }
    var d := Design(fs);
    RunStage(input, output, size, d.yulewalk);
    RunStage(output, output, size, d.butterworth);
  }
}
