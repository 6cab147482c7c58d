/** The product rules of `app.py`: the colour of the overall-score banner,
    the Pro tier flag, and the free-tier admission, truncation and usage
    counting around the analysis loop. */
module App {
  import opened Wrappers
  import opened Analysis
  import UserStore

  const FreeLimit := 5

  // ---------------------------------------------------------------- score colour

  /** `get_score_color`. */
  function ScoreColor(score: int): (color: string)
    ensures color == "green" <==> score >= 80
    ensures color == "orange" <==> 50 <= score < 80
    ensures color == "red" <==> score < 50
  {
    if score >= 80 then "green" else if score >= 50 then "orange" else "red"
  }

  /** The bands ordered from worst to best. */
  function ColorRank(color: string): nat {
    if color == "green" then 2 else if color == "orange" then 1 else 0
  }

  /** A higher score never gets a worse colour. */
  lemma ScoreColorMonotone(s1: int, s2: int)
    requires s1 <= s2
    ensures ColorRank(ScoreColor(s1)) <= ColorRank(ScoreColor(s2))
  {
  }

  /** A perfect resolution and focus with ideal exposure is shown in green,
      and an image too small to use can at most reach orange. */
  lemma ScoreColorOfReports(w: nat, h: nat, v: real, b: real)
    requires 0.0 <= v && 0.0 <= b <= MaxChannel
    ensures RecommendedResolution <= w && RecommendedResolution <= h && SharpVariance <= v
            && BrightnessMin <= b <= BrightnessMax ==>
      ScoreColor(Analyze(w, h, v, b).overallScore) == "green"
    ensures w < MinResolution || h < MinResolution ==>
      ScoreColor(Analyze(w, h, v, b).overallScore) != "green"
  {
  }

  // ---------------------------------------------------------------- premium tier

  datatype Tier = Free | Pro

  datatype PremiumCheck = PremiumCheck(premium: bool, tier: Tier)

  /** `check_premium_status`: `upgraded` is the `upgraded` query parameter. */
  function CheckPremiumStatus(tier: Tier, upgraded: Option<string>): (r: PremiumCheck)
    ensures r.premium <==> tier == Pro || upgraded == Some("true")
    ensures r.premium <==> r.tier == Pro
    ensures !r.premium ==> r.tier == tier
  {
    if tier == Pro then PremiumCheck(true, tier)
    else if upgraded == Some("true") then PremiumCheck(true, Pro)
    else PremiumCheck(false, tier)
  }

  /** Once a session is Pro it stays Pro, whatever the later query says. */
  lemma PremiumIsSticky(tier: Tier, first: Option<string>, later: Option<string>)
    requires CheckPremiumStatus(tier, first).premium
    ensures CheckPremiumStatus(CheckPremiumStatus(tier, first).tier, later).premium
  {
  }

  // ---------------------------------------------------------------- uploads

  /** An uploaded file, given by its name and the statistics the decoder
      measures on it. */
  datatype UploadedFile = UploadedFile(
    name: string, width: nat, height: nat, variance: real, brightness: real)

  /** The statistics are ones a decoded image can have. */
  predicate Decoded(f: UploadedFile) {
    0.0 <= f.variance && 0.0 <= f.brightness <= MaxChannel
  }

  function AnalyzeFile(f: UploadedFile): AnalysisReport
    requires Decoded(f)
  {
    Analyze(f.width, f.height, f.variance, f.brightness)
  }

  /** One entry of the results list: the report with its file name. */
  datatype FileResult = FileResult(filename: string, report: AnalysisReport)

  const LimitMessage := "Daily limit reached (5). Upgrade to Pro for unlimited checks."

  /** The files the analysis loop will process: a free user over the daily
      limit gets nothing, otherwise only the first file; a Pro user gets all. */
  function AdmittedFiles(dailyChecks: int, files: seq<UploadedFile>, premium: bool)
    : (r: Option<seq<UploadedFile>>)
    ensures premium ==> r == Some(files)
    ensures !premium ==> (r.None? <==> dailyChecks + |files| > FreeLimit)
    ensures !premium && r.Some? ==>
      |r.value| == (if |files| == 0 then 0 else 1) && r.value <= files
  {
    if premium then Some(files)
    else if dailyChecks + |files| > FreeLimit then None
    else if |files| > 1 then Some([files[0]])
    else Some(files)
  }

  /** An admitted free batch never takes the counter past the limit. */
  lemma FreeBatchStaysWithinLimit(dailyChecks: int, files: seq<UploadedFile>)
    requires AdmittedFiles(dailyChecks, files, false).Some?
    ensures dailyChecks + |AdmittedFiles(dailyChecks, files, false).value| <= FreeLimit
  {
  }

  datatype UploadOutcome =
    | NothingUploaded
    | LimitReached(message: string)
    | Analyzed(results: seq<FileResult>, dailyChecks: int, store: UserStore.Store)

  /** The upload handler: admission, then the analysis loop, which raises a
      free user's counter once per file and writes it to `email`'s row. */
  method ProcessUploads(store: UserStore.Store, email: string, dailyChecks: int,
                        files: seq<UploadedFile>, premium: bool)
    returns (out: UploadOutcome)
    requires forall i :: 0 <= i < |files| ==> Decoded(files[i])
    ensures files == [] <==> out.NothingUploaded?
    ensures out.LimitReached? <==> files != [] && AdmittedFiles(dailyChecks, files, premium).None?
    ensures out.LimitReached? ==> out.message == LimitMessage && !premium
    ensures out.Analyzed? ==>
      var admitted := AdmittedFiles(dailyChecks, files, premium).value;
      && |out.results| == |admitted|
      && (forall k :: 0 <= k < |admitted| ==>
            out.results[k] == FileResult(admitted[k].name, AnalyzeFile(admitted[k])))
      && (premium ==> out.dailyChecks == dailyChecks && out.store == store
                      && |out.results| == |files|)
      && (!premium ==> out.dailyChecks == dailyChecks + 1 && out.dailyChecks <= FreeLimit
                       && |out.results| == 1
                       && out.store == UserStore.UpdateUserChecks(store, email, out.dailyChecks))
  {
    if files == [] {
      return NothingUploaded;
    }
    var admission := AdmittedFiles(dailyChecks, files, premium);
    if admission.None? {
      return LimitReached(LimitMessage);
    }
    var admitted := admission.value;
    var results: seq<FileResult> := [];
    var checks := dailyChecks;
    var current := store;
    var i := 0;
    while i < |admitted|
      invariant 0 <= i <= |admitted|
      invariant |results| == i
      invariant forall k :: 0 <= k < i ==>
        results[k] == FileResult(admitted[k].name, AnalyzeFile(admitted[k]))
      invariant checks == if premium then dailyChecks else dailyChecks + i
      invariant current == if premium || i == 0 then store
                           else UserStore.UpdateUserChecks(store, email, checks)
    {
      var f := admitted[i];
      var result := FileResult(f.name, AnalyzeFile(f));
      results := results + [result];
      if !premium {
        checks := checks + 1;
        UserStore.UpdateUserChecksLastWins(store, email, checks - 1, checks);
        current := UserStore.UpdateUserChecks(current, email, checks);
      }
      i := i + 1;
    }
    return Analyzed(results, checks, current);
  }
}
