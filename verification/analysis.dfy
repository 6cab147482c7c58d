/** The heuristic scoring engine of `ImageQualityAnalyzer`: three metric
    evaluators (resolution, blur, brightness) and the weighted aggregator.

    The two photometric statistics are inputs: `v`, the variance of the
    Laplacian of the grey image, and `b`, the mean of the HSV value channel.
    Both are exact reals; Python's `int()` is `Trunc` (toward zero). */
module Analysis {
  import opened Text

  // Calibration constants bound in the analyser's constructor.
  const BlurThreshold: real := 100.0
  const BrightnessMin: real := 80.0
  const BrightnessMax: real := 200.0
  const MinResolution: nat := 500
  const RecommendedResolution: nat := 1000

  /** The variance at which blur scoring saturates (a literal in `check_blur`). */
  const SharpVariance: real := 500.0
  /** The largest value-channel mean an 8-bit image can have. */
  const MaxChannel: real := 255.0

  datatype Status = Good | Warning | Error

  /** The dictionary `check_resolution` returns. */
  datatype ResolutionReport = ResolutionReport(
    width: nat, height: nat, score: int, status: Status, issues: seq<string>)

  /** The dictionary `check_blur` and `check_brightness` return; `value` is
      the measured statistic. */
  datatype MetricReport = MetricReport(
    value: real, score: int, status: Status, issues: seq<string>)

  /** The dictionary `analyze` returns. */
  datatype AnalysisReport = AnalysisReport(
    resolution: ResolutionReport, blur: MetricReport, brightness: MetricReport,
    overallScore: int)

  function Max(a: int, b: int): int { if a < b then b else a }
  function Min(a: int, b: int): int { if a < b then a else b }

  /** Python's `int(x)` on a float: truncation toward zero. */
  function Trunc(x: real): (r: int)
    ensures 0.0 <= x ==> 0 <= r && r as real <= x < r as real + 1.0
    ensures x < 0.0 ==> r <= 0 && r as real - 1.0 < x <= r as real
  {
    if x >= 0.0 then x.Floor else -((-x).Floor)
  }

  // ---------------------------------------------------------------- resolution

  function TooLowMessage(w: nat, h: nat): string {
    "Resolution too low (" + NatToString(w) + "x" + NatToString(h) + "). Minimum "
      + NatToString(MinResolution) + "px required."
  }

  function BelowRecommendedMessage(w: nat, h: nat): string {
    "Resolution OK (" + NatToString(w) + "x" + NatToString(h) + "), but "
      + NatToString(RecommendedResolution) + "px+ is recommended for Zoom."
  }

  /** `check_resolution`: a three-tier gate on the image's width and height. */
  function CheckResolution(w: nat, h: nat): (r: ResolutionReport)
    ensures r.width == w && r.height == h
    ensures r.score in {0, 70, 100}
    ensures r.score == 0 <==> w < MinResolution || h < MinResolution
    ensures r.score == 70 <==>
      MinResolution <= w && MinResolution <= h
      && (w < RecommendedResolution || h < RecommendedResolution)
    ensures r.score == 100 <==> RecommendedResolution <= w && RecommendedResolution <= h
    ensures |r.issues| == 1 <==> r.score < 100
    ensures r.issues == [] <==> r.score == 100
    ensures r.score == 0 ==> r.issues == [TooLowMessage(w, h)]
    ensures r.score == 70 ==> r.issues == [BelowRecommendedMessage(w, h)]
    ensures r.status == Error <==> r.score == 0
    ensures r.status == Warning <==> r.score == 70
    ensures r.status == Good <==> r.score == 100
  {
    var (score, issues) :=
      if w < MinResolution || h < MinResolution then (0, [TooLowMessage(w, h)])
      else if w < RecommendedResolution || h < RecommendedResolution then
        (70, [BelowRecommendedMessage(w, h)])
      else (100, []);
    ResolutionReport(w, h, score, ResolutionStatus(score), issues)
  }

  /** The status rule of `check_resolution`. */
  function ResolutionStatus(score: int): Status {
    if score > 80 then Good else if score > 0 then Warning else Error
  }

  /** A larger image never scores lower. */
  lemma ResolutionMonotone(w1: nat, h1: nat, w2: nat, h2: nat)
    requires w1 <= w2 && h1 <= h2
    ensures CheckResolution(w1, h1).score <= CheckResolution(w2, h2).score
  {
  }

  /** The width printed in the "too low" message reads back as the width. */
  lemma ResolutionMessageNamesWidth(w: nat, h: nat)
    ensures ParseDigits(TooLowMessage(w, h)[20..20 + |NatToString(w)|]) == w
  {
    var head := "Resolution too low (";
    var digits := NatToString(w);
    var rest := "x" + NatToString(h) + "). Minimum " + NatToString(MinResolution) + "px required.";
    assert TooLowMessage(w, h) == head + digits + rest;
    SliceOfConcat(head, digits, rest);
    NatToStringRoundTrip(w);
  }

  /** The height printed in the "too low" message, right after the 'x' that
      follows the width, reads back as the height. */
  lemma ResolutionMessageNamesHeight(w: nat, h: nat)
    ensures ParseDigits(TooLowMessage(w, h)[21 + |NatToString(w)|..21 + |NatToString(w)| + |NatToString(h)|]) == h
  {
    var head := "Resolution too low (" + NatToString(w) + "x";
    var digits := NatToString(h);
    var rest := "). Minimum " + NatToString(MinResolution) + "px required.";
    assert TooLowMessage(w, h) == head + digits + rest;
    SliceOfConcat(head, digits, rest);
    NatToStringRoundTrip(h);
  }

  // ---------------------------------------------------------------- blur

  const BlurryMessage := "Image is blurry. Please use a tripod or cleaner lens."

  /** `check_blur` given the Laplacian variance `v`. */
  function CheckBlur(v: real): (r: MetricReport)
    requires 0.0 <= v
    ensures r.value == v
    ensures 0 <= r.score <= 100
    ensures v < BlurThreshold ==>
      r.score == (v / BlurThreshold * 50.0).Floor && r.score <= 49
      && r.issues == [BlurryMessage]
    ensures BlurThreshold <= v ==>
      r.score == Min(100, 50 + (v / SharpVariance * 50.0).Floor) && 60 <= r.score
      && r.issues == []
    ensures r.score == 100 <==> SharpVariance <= v
    ensures r.status == Good <==> r.score > 60
    ensures r.status == Error <==> r.score <= 60
  {
    var (score, issues) :=
      if v < BlurThreshold then (Max(0, Trunc((v / BlurThreshold) * 50.0)), [BlurryMessage])
      else (Min(100, 50 + Trunc((v / 500.0) * 50.0)), []);
    MetricReport(v, score, if score > 60 then Good else Error, issues)
  }

  /** A sharper image never scores lower on blur. */
  lemma BlurMonotone(v1: real, v2: real)
    requires 0.0 <= v1 <= v2
    ensures CheckBlur(v1).score <= CheckBlur(v2).score
  {
  }

  /** Just above the threshold a variance scores 60, which the status rule
      reports as `Error` although no issue is raised. */
  lemma BlurErrorWithoutIssue(v: real)
    requires BlurThreshold <= v < 110.0
    ensures CheckBlur(v).score == 60
    ensures CheckBlur(v).status == Error && CheckBlur(v).issues == []
  {
  }

  // ---------------------------------------------------------------- brightness

  const TooDarkMessage := "Image is too dark (underexposed)."
  const TooBrightMessage := "Image is too bright (overexposed)."

  /** `check_brightness` given the value-channel mean `b`. */
  function CheckBrightness(b: real): (r: MetricReport)
    requires 0.0 <= b <= MaxChannel
    ensures r.value == b
    ensures 0 <= r.score <= 100
    ensures BrightnessMin <= b <= BrightnessMax ==> r.score == 100 && r.issues == []
    ensures b < BrightnessMin ==>
      r.score == b.Floor && r.score <= 79 && r.issues == [TooDarkMessage]
    ensures BrightnessMax < b ==>
      r.score == 100 - ((b - BrightnessMax) * 80.0 / (MaxChannel - BrightnessMax)).Floor
      && 20 <= r.score && r.issues == [TooBrightMessage]
    ensures r.status != Error
    ensures r.status == Good <==> r.score > 80
    ensures |r.issues| <= 1
  {
    var (score, issues) :=
      if b < BrightnessMin then (Trunc((b / BrightnessMin) * 80.0), [TooDarkMessage])
      else if b > BrightnessMax then
        var overAmount := b - BrightnessMax;
        var maxOver := 255.0 - BrightnessMax;
        (100 - Trunc((overAmount / maxOver) * 80.0), [TooBrightMessage])
      else (100, []);
    MetricReport(b, score, if score > 80 then Good else Warning, issues)
  }

  /** Up to the upper bound, a brighter image never scores lower. */
  lemma BrightnessRisesToMax(b1: real, b2: real)
    requires 0.0 <= b1 <= b2 <= BrightnessMax
    ensures CheckBrightness(b1).score <= CheckBrightness(b2).score
  {
  }

  /** From the lower bound on, a brighter image never scores higher. */
  lemma BrightnessFallsFromMin(b1: real, b2: real)
    requires BrightnessMin <= b1 <= b2 <= MaxChannel
    ensures CheckBrightness(b1).score >= CheckBrightness(b2).score
  {
  }

  /** Slightly above the upper bound the image is called too bright yet
      keeps the full score. */
  lemma BrightnessOverexposedFullScore()
    ensures CheckBrightness(200.5).score == 100
    ensures CheckBrightness(200.5).issues == [TooBrightMessage]
    ensures CheckBrightness(200.5).status == Good
  {
  }

  // ---------------------------------------------------------------- value channel

  /** One pixel of the colour buffer, in OpenCV's B, G, R order. */
  datatype Pixel = Pixel(blue: int, green: int, red: int)

  predicate IsByte(x: int) { 0 <= x <= 255 }

  predicate ValidPixel(p: Pixel) { IsByte(p.blue) && IsByte(p.green) && IsByte(p.red) }

  /** The HSV value channel of an 8-bit pixel: its largest component. */
  function ValueChannel(p: Pixel): (v: int)
    ensures v == p.blue || v == p.green || v == p.red
    ensures p.blue <= v && p.green <= v && p.red <= v
  {
    Max(p.blue, Max(p.green, p.red))
  }

  function SumValue(ps: seq<Pixel>): (total: int)
    requires forall i :: 0 <= i < |ps| ==> ValidPixel(ps[i])
    ensures 0 <= total <= 255 * |ps|
    decreases |ps|
  {
    if ps == [] then 0
    else
      var last := ps[|ps| - 1];
      assert ValidPixel(last);
      SumValue(ps[..|ps| - 1]) + ValueChannel(last)
  }

  /** A total of `n` bytes, divided by `n`, is at most a byte. */
  lemma MeanOfBytes(total: int, n: int)
    requires 0 < n && 0 <= total <= 255 * n
    ensures 0.0 <= total as real / n as real <= MaxChannel
  {
    var m := total as real / n as real;
    assert m * n as real == total as real;
  }

  /** `hsv[:,:,2].mean()`: the mean value channel, always in [0, 255]. */
  function MeanValue(ps: seq<Pixel>): (b: real)
    requires |ps| > 0
    requires forall i :: 0 <= i < |ps| ==> ValidPixel(ps[i])
    ensures 0.0 <= b <= MaxChannel
  {
    MeanOfBytes(SumValue(ps), |ps|);
    SumValue(ps) as real / |ps| as real
  }

  /** A uniform image's mean is its pixels' value channel. */
  lemma {:induction false} UniformMeanValue(ps: seq<Pixel>, p: Pixel)
    requires ValidPixel(p)
    requires |ps| > 0
    requires forall i :: 0 <= i < |ps| ==> ps[i] == p
    ensures MeanValue(ps) == ValueChannel(p) as real
  {
    UniformSumValue(ps, p);
  }

  lemma {:induction false} UniformSumValue(ps: seq<Pixel>, p: Pixel)
    requires ValidPixel(p)
    requires forall i :: 0 <= i < |ps| ==> ps[i] == p
    ensures SumValue(ps) == |ps| * ValueChannel(p)
    decreases |ps|
  {
    if ps != [] {
      UniformSumValue(ps[..|ps| - 1], p);
    }
  }

  /** `check_brightness` on a colour buffer. */
  function CheckBrightnessOfPixels(ps: seq<Pixel>): (r: MetricReport)
    requires |ps| > 0
    requires forall i :: 0 <= i < |ps| ==> ValidPixel(ps[i])
    ensures r.value == MeanValue(ps)
    ensures 0 <= r.score <= 100 && r.status != Error
    ensures r.issues == [TooDarkMessage] <==> MeanValue(ps) < BrightnessMin
    ensures r.issues == [TooBrightMessage] <==> MeanValue(ps) > BrightnessMax
    ensures r.issues == [] <==> BrightnessMin <= MeanValue(ps) <= BrightnessMax
  {
    CheckBrightness(MeanValue(ps))
  }

  /** A uniform image is scored by the brightness rule at its pixel's value. */
  lemma UniformBrightness(ps: seq<Pixel>, p: Pixel)
    requires ValidPixel(p)
    requires |ps| > 0
    requires forall i :: 0 <= i < |ps| ==> ps[i] == p
    ensures CheckBrightnessOfPixels(ps) == CheckBrightness(ValueChannel(p) as real)
  {
    UniformMeanValue(ps, p);
  }

  /** An all-black image scores 0 and is reported too dark. */
  lemma BlackImageIsTooDark(ps: seq<Pixel>)
    requires |ps| > 0
    requires forall i :: 0 <= i < |ps| ==> ps[i] == Pixel(0, 0, 0)
    ensures var r := CheckBrightnessOfPixels(ps);
            r.score == 0 && r.status == Warning && r.issues == [TooDarkMessage]
  {
    UniformMeanValue(ps, Pixel(0, 0, 0));
  }

  /** An all-white image scores 20 and is reported too bright. */
  lemma WhiteImageIsTooBright(ps: seq<Pixel>)
    requires |ps| > 0
    requires forall i :: 0 <= i < |ps| ==> ps[i] == Pixel(255, 255, 255)
    ensures var r := CheckBrightnessOfPixels(ps);
            r.score == 20 && r.status == Warning && r.issues == [TooBrightMessage]
  {
    UniformMeanValue(ps, Pixel(255, 255, 255));
  }

  // ---------------------------------------------------------------- aggregate

  /** The weighted sum of `analyze`, truncated to an integer. */
  function OverallScore(res: int, blur: int, bright: int): (r: int)
    ensures 0 <= res <= 100 && 0 <= blur <= 100 && 0 <= bright <= 100 ==>
      0 <= r <= 100 && r == (3 * res + 4 * blur + 3 * bright) / 10
  {
    Trunc((res as real * 0.3) + (blur as real * 0.4) + (bright as real * 0.3))
  }

  /** Raising any sub-score never lowers the overall score. */
  lemma OverallMonotone(r1: int, b1: int, br1: int, r2: int, b2: int, br2: int)
    requires 0 <= r1 <= r2 <= 100 && 0 <= b1 <= b2 <= 100 && 0 <= br1 <= br2 <= 100
    ensures OverallScore(r1, b1, br1) <= OverallScore(r2, b2, br2)
  {
  }

  lemma OverallExamples()
    ensures OverallScore(100, 100, 100) == 100
    ensures OverallScore(0, 50, 70) == 41
  {
  }

  /** `analyze`: the three evaluators and their weighted combination. */
  function Analyze(w: nat, h: nat, v: real, b: real): (r: AnalysisReport)
    requires 0.0 <= v
    requires 0.0 <= b <= MaxChannel
    ensures r.resolution == CheckResolution(w, h)
    ensures r.blur == CheckBlur(v)
    ensures r.brightness == CheckBrightness(b)
    ensures 0 <= r.overallScore <= 100
    ensures r.overallScore
      == (3 * r.resolution.score + 4 * r.blur.score + 3 * r.brightness.score) / 10
  {
    var resolution := CheckResolution(w, h);
    var blur := CheckBlur(v);
    var brightness := CheckBrightness(b);
    AnalysisReport(resolution, blur, brightness,
                   OverallScore(resolution.score, blur.score, brightness.score))
  }

  /** A large, sharp, well-exposed image scores 100 overall. */
  lemma PerfectImage(w: nat, h: nat, v: real, b: real)
    requires RecommendedResolution <= w && RecommendedResolution <= h
    requires SharpVariance <= v
    requires BrightnessMin <= b <= BrightnessMax
    ensures Analyze(w, h, v, b).overallScore == 100
  {
  }
}
