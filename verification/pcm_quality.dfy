/** Quality figures of 16-bit little-endian PCM, accumulated in one pass.
    The root-mean-square is kept as its square, and -60 dB full scale as the ratio it stands for. */
module PcmQuality {

  const FULL_SCALE := 32768
  const CLIP := 32760
  const LOW_HEADROOM := 29490
  const SILENCE := 32

  const CLIPPING := "audio_quality_clipping_detected"
  const HEADROOM := "audio_quality_low_headroom"
  const NEAR_SILENCE := "audio_quality_near_silence"
  const DC_OFFSET := "audio_quality_dc_offset_detected"

  type Sample = x: int | -32768 <= x < 32768

  // int16(binary.LittleEndian.Uint16(two bytes))
  function Decode(low: int, high: int): (x: Sample)
    requires 0 <= low < 256 && 0 <= high < 256
  {
    var u := low + 256 * high;
    if u < 32768 then u else u - 65536
  }

  function Samples(pcm: seq<int>): (s: seq<Sample>)
    requires |pcm| % 2 == 0 && forall i :: 0 <= i < |pcm| ==> 0 <= pcm[i] < 256
    ensures |s| == |pcm| / 2
  {
    seq(|pcm| / 2, i requires 0 <= i < |pcm| / 2 => Decode(pcm[2 * i], pcm[2 * i + 1]))
  }

  /** A sample is the one 16-bit number that its bytes, the lower one first, stand for modulo 65536; its sign is
      the upper byte's first bit. */
  lemma SampleValue(pcm: seq<int>, i: nat)
    requires |pcm| % 2 == 0 && (forall j :: 0 <= j < |pcm| ==> 0 <= pcm[j] < 256) && i < |pcm| / 2
    ensures Samples(pcm)[i] == pcm[2 * i] + 256 * (if pcm[2 * i + 1] < 128 then pcm[2 * i + 1] else pcm[2 * i + 1] - 256)
    ensures Samples(pcm)[i] % 256 == pcm[2 * i] && (Samples(pcm)[i] / 256) % 256 == pcm[2 * i + 1]
  {
  }

  function Abs(x: int): (a: nat)
  {
    if x < 0 then -x else x
  }

  function Sum(s: seq<Sample>): (n: int)
  {
    if s == [] then 0 else Sum(s[..|s| - 1]) + s[|s| - 1]
  }

  function SumSquares(s: seq<Sample>): (n: nat)
  {
    if s == [] then 0 else SumSquares(s[..|s| - 1]) + Square(s[|s| - 1])
  }

  function Square(x: int): (n: nat)
  {
    x * x
  }

  function CountLoud(s: seq<Sample>, limit: int): (n: nat)
    ensures n <= |s|
  {
    if s == [] then 0 else CountLoud(s[..|s| - 1], limit) + if Abs(s[|s| - 1]) >= limit then 1 else 0
  }

  function CountQuiet(s: seq<Sample>, limit: int): (n: nat)
    ensures n <= |s|
  {
    if s == [] then 0 else CountQuiet(s[..|s| - 1], limit) + if Abs(s[|s| - 1]) <= limit then 1 else 0
  }

  predicate IsPeak(s: seq<Sample>, peak: int)
  {
    && peak >= 0
    && (forall i :: 0 <= i < |s| ==> Abs(s[i]) <= peak)
    && (peak == 0 || exists i :: 0 <= i < |s| && Abs(s[i]) == peak)
  }

  // ---- the figures and what is found in them ----

  datatype Figures = Figures(samples: nat, peak: nat, clipped: nat, silent: nat, sum: int, sumSquares: nat)

  // RMS * RMS, with RMS = sqrt(sumSquares / samples) / 32768.
  function MeanSquare(f: Figures): (m: real)
    requires f.samples > 0
  {
    f.sumSquares as real / (f.samples * FULL_SCALE * FULL_SCALE) as real
  }

  function DcOffset(f: Figures): (d: real)
    requires f.samples > 0
  {
    f.sum as real / (f.samples * FULL_SCALE) as real
  }

  function PeakRatio(f: Figures): (p: real)
  {
    f.peak as real / FULL_SCALE as real
  }

  // The largest RMS that rounds to -60.000 dB or less lies a little above 10^-3.
  predicate SilenceThreshold(rms: real)
  {
    0.001 <= rms < 0.0011
  }

  function Findings(f: Figures, threshold: real): (r: seq<string>)
    requires f.samples > 0
  {
    (if f.clipped > 0 then [CLIPPING] else [])
    + (if f.peak > LOW_HEADROOM then [HEADROOM] else [])
    + (if MeanSquare(f) <= threshold * threshold then [NEAR_SILENCE] else [])
    + (if DcOffset(f) >= 0.05 || DcOffset(f) <= -0.05 then [DC_OFFSET] else [])
  }

  ghost predicate Describes(f: Figures, s: seq<Sample>)
  {
    && f.samples == |s|
    && IsPeak(s, f.peak)
    && f.clipped == CountLoud(s, CLIP) && f.silent == CountQuiet(s, SILENCE)
    && f.sum == Sum(s) && f.sumSquares == SumSquares(s)
  }

  datatype Failure = UnsupportedCodec | InvalidFormat | InvalidPayload

  datatype Outcome = Analyzed(figures: Figures, status: string, findings: seq<string>, frames: nat) | Failed(failure: Failure)

  /** One pass over the buffer; the codec name arrives trimmed and lowered. */
  method Analyze(codec: string, sampleRateHz: int, channels: int, pcm: seq<int>, threshold: real) returns (r: Outcome)
    requires forall i :: 0 <= i < |pcm| ==> 0 <= pcm[i] < 256
    ensures r.Failed? <==> (codec != "" && codec != "pcm_s16le") || sampleRateHz <= 0 || channels <= 0 || |pcm| == 0 || |pcm| % 2 != 0
    ensures r.Analyzed? ==>
      && Describes(r.figures, Samples(pcm))
      && r.findings == Findings(r.figures, threshold)
      && r.status == (if r.findings == [] then "passed" else "warning")
      && r.frames == |pcm| / 2 / channels
  {
    hide Describes, Findings, Samples;
    if codec != "" && codec != "pcm_s16le" {
      return Failed(UnsupportedCodec);
    }
    if sampleRateHz <= 0 || channels <= 0 {
      return Failed(InvalidFormat);
    }
    if |pcm| == 0 || |pcm| % 2 != 0 {
      return Failed(InvalidPayload);
    }
    var f := Accumulate(pcm);
    var findings := CollectFindings(f, threshold);
    return Analyzed(f, if findings == [] then "passed" else "warning", findings, f.samples / channels);
  }

  method Accumulate(pcm: seq<int>) returns (f: Figures)
    requires |pcm| % 2 == 0 && forall i :: 0 <= i < |pcm| ==> 0 <= pcm[i] < 256
    ensures f.samples == |pcm| / 2 && Describes(f, Samples(pcm))
  {
    hide Describes;
    var samples := |pcm| / 2;
    f := Figures(samples, 0, 0, 0, 0, 0);
    ghost var s := Samples(pcm);
    NothingHeard();
    assert s[..0] == [];
    for i := 0 to samples
      invariant f.samples == samples && Describes(f.(samples := i), s[..i])
    {
      var sample := Decode(pcm[2 * i], pcm[2 * i + 1]);
      assert s[..i + 1] == s[..i] + [sample];
      f := AddSample(f, sample, s[..i]);
    }
    assert s[..samples] == s;
  }

  lemma NothingHeard()
    ensures Describes(Figures(0, 0, 0, 0, 0, 0), [])
  {
  }

  // The body of the loop; `heard` is what came before.
  method AddSample(f: Figures, sample: Sample, ghost heard: seq<Sample>) returns (r: Figures)
    requires Describes(f.(samples := |heard|), heard)
    ensures r.samples == f.samples && Describes(r.(samples := |heard| + 1), heard + [sample])
  {
    hide Square;
    PeakWith(heard, sample, f.peak);
    assert (heard + [sample])[..|heard|] == heard;
    hide IsPeak;
    var abs := Abs(sample);
    r := f;
    if abs > r.peak {
      r := r.(peak := abs);
    }
    if abs >= CLIP {
      r := r.(clipped := r.clipped + 1);
    }
    if abs <= SILENCE {
      r := r.(silent := r.silent + 1);
    }
    r := r.(sum := r.sum + sample, sumSquares := r.sumSquares + Square(sample));
  }

  method CollectFindings(f: Figures, threshold: real) returns (findings: seq<string>)
    requires f.samples > 0
    ensures findings == Findings(f, threshold)
  {
    findings := [];
    if f.clipped > 0 {
      findings := findings + [CLIPPING];
    }
    if f.peak > LOW_HEADROOM {
      findings := findings + [HEADROOM];
    }
    if MeanSquare(f) <= threshold * threshold {
      findings := findings + [NEAR_SILENCE];
    }
    if DcOffset(f) >= 0.05 || DcOffset(f) <= -0.05 {
      findings := findings + [DC_OFFSET];
    }
  }

  lemma PeakWith(s: seq<Sample>, x: Sample, peak: int)
    requires IsPeak(s, peak)
    ensures IsPeak(s + [x], if Abs(x) > peak then Abs(x) else peak)
  {
    var all := s + [x];
    assert all[|s|] == x;
    if Abs(x) <= peak && peak != 0 {
      var i :| 0 <= i < |s| && Abs(s[i]) == peak;
      assert Abs(all[i]) == peak;
    }
  }

  // ---- relations between the figures ----

  lemma SquareOfDifference(sum: int, n: int, x: int)
    ensures (sum - n * x) * (sum - n * x) == sum * sum - 2 * (n * (sum * x)) + n * (n * (x * x))
  {
  }

  lemma NotNegative(a: int)
    ensures a * a >= 0
  {
  }

  lemma FactorNotNegative(n: int, g: int)
    requires n > 0 && n * g >= 0
    ensures g >= 0
  {
  }

  lemma Distribute(n: int, q: int, b: int, c: int)
    ensures n * (q - 2 * b + n * c) == n * q - 2 * (n * b) + n * (n * c)
  {
  }

  // The cross term of (sum + x)^2, from (sum - n x)^2 not being negative.
  lemma CrossTerm(n: int, sum: int, squares: int, x: int)
    requires n > 0 && sum * sum <= n * squares
    ensures 2 * (sum * x) <= squares + n * (x * x)
  {
    SquareOfDifference(sum, n, x);
    NotNegative(sum - n * x);
    Distribute(n, squares, sum * x, x * x);
    FactorNotNegative(n, squares - 2 * (sum * x) + n * (x * x));
  }

  lemma Expand(n: int, sum: int, squares: int, x: int)
    ensures (sum + x) * (sum + x) == sum * sum + 2 * (sum * x) + x * x
    ensures (n + 1) * (squares + x * x) == n * squares + n * (x * x) + squares + x * x
  {
  }

  lemma SquareStep(n: nat, sum: int, squares: nat, x: int)
    requires sum * sum <= n * squares && (n == 0 ==> sum == 0)
    ensures (sum + x) * (sum + x) <= (n + 1) * (squares + x * x)
  {
    Expand(n, sum, squares, x);
    if n > 0 {
      CrossTerm(n, sum, squares, x);
    }
  }

  /** Cauchy and Schwarz over the samples. */
  lemma {:induction false} SumSquaredBound(s: seq<Sample>)
    ensures Sum(s) * Sum(s) <= |s| * SumSquares(s)
  {
    if s != [] {
      SumSquaredBound(s[..|s| - 1]);
      SquareStep(|s| - 1, Sum(s[..|s| - 1]), SumSquares(s[..|s| - 1]), s[|s| - 1]);
    }
  }

  lemma {:induction false} SquaresBelowPeak(s: seq<Sample>, peak: nat)
    requires forall i :: 0 <= i < |s| ==> Abs(s[i]) <= peak
    ensures SumSquares(s) <= |s| * (peak * peak)
  {
    if s != [] {
      SquaresBelowPeak(s[..|s| - 1], peak);
      AbsSquare(s[|s| - 1], peak);
      OneMore(|s| - 1, peak * peak);
      hide Square;
    }
  }

  lemma OneMore(n: int, p: int)
    ensures (n + 1) * p == n * p + p
  {
  }

  lemma AbsSquare(x: int, peak: nat)
    requires Abs(x) <= peak
    ensures Square(x) <= peak * peak
  {
    assert x * x == Abs(x) * Abs(x);
  }

  lemma {:induction false} CountsMean(s: seq<Sample>, limit: nat)
    ensures CountLoud(s, limit) > 0 <==> exists i :: 0 <= i < |s| && Abs(s[i]) >= limit
    ensures CountQuiet(s, limit) == |s| <==> forall i :: 0 <= i < |s| ==> Abs(s[i]) <= limit
  {
    if s != [] {
      var init := s[..|s| - 1];
      CountsMean(init, limit);
      assert forall i :: 0 <= i < |init| ==> s[i] == init[i];
    }
  }

  /** DC offset, RMS and peak are ordered, and none exceeds full scale: |DC| <= RMS <= peak <= 1, squared. */
  lemma FiguresOrdered(f: Figures, s: seq<Sample>)
    requires Describes(f, s) && s != []
    ensures DcOffset(f) * DcOffset(f) <= MeanSquare(f) <= PeakRatio(f) * PeakRatio(f) <= 1.0
  {
    SumSquaredBound(s);
    SquaresBelowPeak(s, f.peak);
    PeakInRange(s, f.peak);
    hide IsPeak, Sum, SumSquares;
    OrderedRatios(f);
  }

  lemma PeakInRange(s: seq<Sample>, peak: nat)
    requires IsPeak(s, peak)
    ensures peak <= FULL_SCALE
  {
  }

  lemma OrderedRatios(f: Figures)
    requires f.samples > 0 && f.peak <= FULL_SCALE
    requires f.sum * f.sum <= f.samples * f.sumSquares && f.sumSquares <= f.samples * (f.peak * f.peak)
    ensures DcOffset(f) * DcOffset(f) <= MeanSquare(f) <= PeakRatio(f) * PeakRatio(f) <= 1.0
  {
    var n, s, q, p := f.samples as real, f.sum as real, f.sumSquares as real, f.peak as real;
    RealProducts(f);
    DcRatio(n, s, q, 32768.0);
    PeakBoundsMean(n, q, p, 32768.0);
  }

  lemma RealProducts(f: Figures)
    requires f.sum * f.sum <= f.samples * f.sumSquares && f.sumSquares <= f.samples * (f.peak * f.peak)
    ensures f.sum as real * f.sum as real <= f.samples as real * f.sumSquares as real
    ensures f.sumSquares as real <= f.samples as real * (f.peak as real * f.peak as real)
    ensures (f.samples * FULL_SCALE) as real == f.samples as real * 32768.0
    ensures (f.samples * FULL_SCALE * FULL_SCALE) as real == f.samples as real * 32768.0 * 32768.0
  {
    RealProduct(f.sum, f.sum);
    RealProduct(f.samples, f.sumSquares);
    RealProduct(f.peak, f.peak);
    RealProduct(f.samples, f.peak * f.peak);
  }

  lemma RealProduct(a: int, b: int)
    ensures (a * b) as real == a as real * b as real
  {
  }

  lemma DivideBack(a: real, b: real)
    requires b > 0.0
    ensures (a / b) * b == a
  {
  }

  lemma SquareOfProduct(d: real, b: real)
    ensures (d * d) * (b * b) == (d * b) * (d * b)
  {
  }

  lemma CancelFactor(a: real, b: real, c: real)
    requires c > 0.0 && a * c <= b * c
    ensures a <= b
  {
  }

  lemma PositiveProduct(a: real, b: real)
    requires a > 0.0 && b > 0.0
    ensures a * b > 0.0
  {
  }

  lemma RegroupMean(m: real, n: real, k: real)
    ensures m * ((n * k) * (n * k)) == n * (m * (n * k * k))
  {
  }

  lemma DcRatio(n: real, s: real, q: real, k: real)
    requires n > 0.0 && k > 0.0 && s * s <= n * q
    ensures (s / (n * k)) * (s / (n * k)) <= q / (n * k * k)
  {
    PositiveProduct(n, k);
    PositiveProduct(n * k, k);
    PositiveProduct(n * k, n * k);
    var nk := n * k;
    var d := s / nk;
    var m := q / (n * k * k);
    DivideBack(s, nk);
    DivideBack(q, n * k * k);
    SquareOfProduct(d, nk);
    RegroupMean(m, n, k);
    CancelFactor(d * d, m, nk * nk);
  }

  lemma RegroupPeak(r: real, n: real, k: real)
    ensures (r * r) * (n * k * k) == n * ((r * k) * (r * k))
  {
  }

  lemma SquareGrows(p: real, k: real)
    requires 0.0 <= p <= k
    ensures p * p <= k * k
  {
  }

  lemma PeakBoundsMean(n: real, q: real, p: real, k: real)
    requires n > 0.0 && k > 0.0 && q <= n * (p * p) && 0.0 <= p <= k
    ensures q / (n * k * k) <= (p / k) * (p / k) <= 1.0
  {
    PositiveProduct(n, k);
    PositiveProduct(n * k, k);
    var m := q / (n * k * k);
    var r := p / k;
    DivideBack(p, k);
    DivideBack(q, n * k * k);
    RegroupPeak(r, n, k);
    CancelFactor(m, r * r, n * k * k);
    CancelFactor(r, 1.0, k);
    CancelFactor(0.0, r, k);
    SquareGrows(r, 1.0);
  }

  // ---- what the findings say about each other ----

  lemma FindingsMean(f: Figures, threshold: real)
    requires f.samples > 0
    ensures CLIPPING in Findings(f, threshold) <==> f.clipped > 0
    ensures HEADROOM in Findings(f, threshold) <==> f.peak > LOW_HEADROOM
    ensures NEAR_SILENCE in Findings(f, threshold) <==> MeanSquare(f) <= threshold * threshold
    ensures DC_OFFSET in Findings(f, threshold) <==> DcOffset(f) >= 0.05 || DcOffset(f) <= -0.05
  {
    hide MeanSquare, DcOffset;
  }

  // Where the samples are that meet a limit.
  function Loud(s: seq<Sample>, limit: int): (at: set<nat>)
  {
    set i: nat | i < |s| && (s[i] >= limit || -s[i] >= limit)
  }

  function Quiet(s: seq<Sample>, limit: int): (at: set<nat>)
  {
    set i: nat | i < |s| && s[i] <= limit && -s[i] <= limit
  }

  lemma {:induction false} CountsAre(s: seq<Sample>, limit: int)
    ensures CountLoud(s, limit) == |Loud(s, limit)| && CountQuiet(s, limit) == |Quiet(s, limit)|
  {
    if s != [] {
      var n := |s| - 1;
      CountsAre(s[..n], limit);
      OneMoreCounted(s, limit);
    } else {
      assert Loud(s, limit) == {} && Quiet(s, limit) == {};
    }
  }

  lemma OneMoreCounted(s: seq<Sample>, limit: int)
    requires s != []
    ensures var n := |s| - 1;
            && |Loud(s, limit)| == |Loud(s[..n], limit)| + (if Abs(s[n]) >= limit then 1 else 0)
            && |Quiet(s, limit)| == |Quiet(s[..n], limit)| + (if Abs(s[n]) <= limit then 1 else 0)
  {
    var n := |s| - 1;
    assert Loud(s, limit) == if Abs(s[n]) >= limit then Loud(s[..n], limit) + {n} else Loud(s[..n], limit);
    assert Quiet(s, limit) == if Abs(s[n]) <= limit then Quiet(s[..n], limit) + {n} else Quiet(s[..n], limit);
  }

  /** The findings of a buffer by its samples: one of 32760 or more is clipped, one above 29490 leaves too little
      room, and an offset counts from a twentieth of full scale on. Samples up to 32 are silent. */
  lemma FoundInSamples(f: Figures, s: seq<Sample>, threshold: real)
    requires Describes(f, s) && s != []
    ensures f.clipped == |Loud(s, 32760)| && f.silent == |Quiet(s, 32)|
    ensures CLIPPING in Findings(f, threshold) <==> exists i :: 0 <= i < |s| && (s[i] >= 32760 || s[i] <= -32760)
    ensures HEADROOM in Findings(f, threshold) <==> exists i :: 0 <= i < |s| && (s[i] > 29490 || s[i] < -29490)
    ensures NEAR_SILENCE in Findings(f, threshold) <==>
      SumSquares(s) as real / (|s| * 32768 * 32768) as real <= threshold * threshold
    ensures DC_OFFSET in Findings(f, threshold) <==> 20 * Sum(s) >= |s| * 32768 || 20 * Sum(s) <= -(|s| * 32768)
  {
    hide Sum, SumSquares, CountLoud, CountQuiet, DcOffset, Findings, Loud, Quiet;
    CountsAre(s, 32760);
    CountsAre(s, 32);
    CountsMean(s, 32760);
    PeakAbove(s, f.peak, 29490);
    hide IsPeak;
    FindingsMean(f, threshold);
    OffsetMeans(f);
  }

  lemma PeakAbove(s: seq<Sample>, peak: int, limit: nat)
    requires IsPeak(s, peak)
    ensures peak > limit <==> exists i :: 0 <= i < |s| && (s[i] > limit || -s[i] > limit)
  {
  }

  lemma OffsetMeans(f: Figures)
    requires f.samples > 0
    ensures DcOffset(f) >= 0.05 <==> 20 * f.sum >= f.samples * 32768
    ensures DcOffset(f) <= -0.05 <==> 20 * f.sum <= -(f.samples * 32768)
  {
    var full := f.samples * 32768;
    TwentiethOf(f.sum as real / full as real, f.sum as real, full as real);
  }

  lemma TwentiethOf(d: real, sum: real, full: real)
    requires full > 0.0 && d == sum / full
    ensures d >= 0.05 <==> 20.0 * sum >= full
    ensures d <= -0.05 <==> 20.0 * sum <= -full
  {
    DivideBack(sum, full);
    TimesKeepsOrder(d, 0.05, full);
    TimesKeepsOrder(-0.05, d, full);
    assert d * full == sum;
    assert -0.05 * full == -(0.05 * full);
  }

  lemma TimesKeepsOrder(a: real, b: real, c: real)
    requires c > 0.0
    ensures a >= b <==> a * c >= b * c
  {
  }

  /** Near silence and a DC offset are never found together; clipping is never found without low headroom;
      a buffer all of whose samples count as silent is found near silent. */
  lemma FindingsRelate(f: Figures, s: seq<Sample>, threshold: real)
    requires Describes(f, s) && s != [] && SilenceThreshold(threshold)
    ensures !(NEAR_SILENCE in Findings(f, threshold) && DC_OFFSET in Findings(f, threshold))
    ensures CLIPPING in Findings(f, threshold) ==> HEADROOM in Findings(f, threshold)
    ensures f.silent == f.samples ==> NEAR_SILENCE in Findings(f, threshold)
  {
    hide Findings, MeanSquare, DcOffset, Sum, SumSquares, CountLoud, CountQuiet;
    FindingsMean(f, threshold);
    FiguresOrdered(f, s);
    CountsMean(s, CLIP);
    CountsMean(s, SILENCE);
    ThresholdSquared(threshold, DcOffset(f));
    if f.silent == f.samples {
      QuietPeak(f);
    }
  }

  lemma ThresholdSquared(threshold: real, dc: real)
    requires SilenceThreshold(threshold)
    ensures 0.000001 <= threshold * threshold < 0.0025
    ensures dc >= 0.05 || dc <= -0.05 ==> dc * dc >= 0.0025
  {
    SquareGrows(0.001, threshold);
    SquareGrows(threshold, 0.0011);
    if dc >= 0.05 {
      SquareGrows(0.05, dc);
    } else if dc <= -0.05 {
      SquareGrows(0.05, -dc);
      assert dc * dc == (-dc) * (-dc);
    }
  }

  lemma QuietPeak(f: Figures)
    requires f.peak <= SILENCE
    ensures PeakRatio(f) * PeakRatio(f) <= 0.000001
  {
    assert 0.0 <= PeakRatio(f) <= 0.00098;
    SquareGrows(PeakRatio(f), 0.00098);
  }

  // ---- exactness of the accumulation ----

  // Integers up to this size have a float64 of their own.
  const EXACT := 0x20_0000_0000_0000

  // Full-scale samples that can be squared and summed before the limit is reached: 2^23.
  const LIMIT := 0x80_0000

  function Power2(e: nat): (p: nat)
  {
    if e == 0 then 1 else 2 * Power2(e - 1)
  }

  function Scaled(m: int, e: nat): (x: int)
  {
    m * Power2(e)
  }

  // The integers a float64 holds: 53 bits and a scale.
  ghost predicate Representable(x: int)
  {
    exists m: int, e: nat :: Abs(m) <= EXACT && x == Scaled(m, e)
  }

  // Any way to round to a float64: what fits is kept, and the result always fits.
  ghost predicate IsRounding(round: int -> int)
  {
    forall x :: Representable(round(x)) && (Representable(x) ==> round(x) == x)
  }

  // The sums as the loop forms them, each addition rounded.
  function FloatSum(s: seq<Sample>, round: int -> int): (n: int)
  {
    if s == [] then 0 else round(FloatSum(s[..|s| - 1], round) + s[|s| - 1])
  }

  function FloatSquares(s: seq<Sample>, round: int -> int): (n: int)
  {
    if s == [] then 0 else round(FloatSquares(s[..|s| - 1], round) + Square(s[|s| - 1]))
  }

  lemma SmallFits(x: int)
    requires Abs(x) <= EXACT
    ensures Representable(x)
  {
    assert x == Scaled(x, 0);
  }

  // The first integer that is lost.
  lemma NextIsLost()
    ensures !Representable(EXACT + 1)
  {
    if Representable(EXACT + 1) {
      var m: int, e: nat :| Abs(m) <= EXACT && EXACT + 1 == Scaled(m, e);
      if e > 0 {
        Doubled(m, Power2(e - 1));
      }
    }
  }

  lemma Doubled(m: int, p: nat)
    ensures m * (2 * p) == 2 * (m * p)
  {
  }

  lemma SomeRounding() returns (round: int -> int)
    ensures IsRounding(round)
  {
    round := Cut();
    forall x
      ensures Representable(round(x)) && (Representable(x) ==> round(x) == x)
    {
      SmallFits(0);
    }
  }

  ghost function Cut(): (round: int -> int)
  {
    x => if Representable(x) then x else 0
  }

  lemma {:induction false} SumBelow(s: seq<Sample>)
    ensures -FULL_SCALE * |s| <= Sum(s) <= FULL_SCALE * |s|
  {
    if s != [] {
      SumBelow(s[..|s| - 1]);
    }
  }

  lemma {:induction false} SquaresOfCopies(n: nat, x: Sample)
    ensures SumSquares(seq(n, _ => x)) == n * Square(x)
  {
    if n > 0 {
      SquaresOfCopies(n - 1, x);
      var s: seq<Sample> := seq(n, _ => x);
      assert s[..n - 1] == seq(n - 1, _ => x);
      OneMore(n - 1, Square(x));
    }
  }

  lemma {:induction false} SquaresAppend(a: seq<Sample>, b: seq<Sample>)
    ensures SumSquares(a + b) == SumSquares(a) + SumSquares(b)
  {
    if b == [] {
      assert a + b == a;
    } else {
      SquaresAppend(a, b[..|b| - 1]);
      assert (a + b)[..|a + b| - 1] == a + b[..|b| - 1];
    }
  }

  lemma {:induction false} FloatsExact(s: seq<Sample>, round: int -> int)
    requires |s| <= LIMIT && IsRounding(round)
    ensures FloatSum(s, round) == Sum(s) && FloatSquares(s, round) == SumSquares(s)
  {
    if s != [] {
      FloatsExact(s[..|s| - 1], round);
      SumBelow(s);
      SquaresBelowPeak(s, FULL_SCALE);
      SmallFits(Sum(s));
      SmallFits(SumSquares(s));
      hide Representable, Square;
    }
  }

  // One sample over the limit: full scale throughout, then the smallest sample, then silence.
  lemma OverTheLimit(n: nat) returns (s: seq<Sample>)
    requires n > LIMIT
    ensures |s| == n && SumSquares(s) == EXACT + 1
  {
    var loud: seq<Sample>, one: seq<Sample>, rest: seq<Sample> := seq(LIMIT, _ => -32768), [1], seq(n - LIMIT - 1, _ => 0);
    SquaresOfCopies(LIMIT, -32768);
    SquaresOfCopies(n - LIMIT - 1, 0);
    SquaresAppend(loud, one);
    SquaresAppend(loud + one, rest);
    assert one[..0] == [];
    s := loud + one + rest;
  }

  lemma {:induction false} FloatsFit(s: seq<Sample>, round: int -> int)
    requires IsRounding(round)
    ensures Representable(FloatSquares(s, round))
  {
    hide Representable;
    SmallFits(0);
  }

  /** Accumulating in float64 gives the exact sums of every buffer of n samples, however it rounds, if and only
      if n is at most 2^23; one sample more can be lost. */
  lemma ExactUpTo(n: nat, round: int -> int)
    requires IsRounding(round)
    ensures (forall s: seq<Sample> :: |s| == n ==> FloatSum(s, round) == Sum(s) && FloatSquares(s, round) == SumSquares(s))
      <==> n <= LIMIT
  {
    hide IsRounding, Representable, Sum, SumSquares, FloatSum, FloatSquares;
    if n <= LIMIT {
      forall s: seq<Sample> | |s| == n
        ensures FloatSum(s, round) == Sum(s) && FloatSquares(s, round) == SumSquares(s)
      {
        FloatsExact(s, round);
      }
    } else {
      var s := OverTheLimit(n);
      FloatsFit(s, round);
      NextIsLost();
    }
  }
}
