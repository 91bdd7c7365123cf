/** The harness driver `main`: the command line, the ordered exit checks,
    the stages that build, match and evaluate templates, and the choice of
    an operating point with enough examples behind it. */
module Harness {
  import opened Irpv
  import opened BiometricTemplates
  import Options
  import Corpus
  import Matching
  import Roc

  // ---------------------------------------------------------------------
  // Exit checks

  /** What a run observes outside itself, as given values: how the two
      directory paths resolve and whether they exist, whether `mkpath`
      leaves the output directory in place, the listing of the input
      directory, the state of the output file, and the image `readimage`
      gives for each path and target pixel format. */
  datatype FileSystem = FileSystem(
    absolutePath: string -> string,
    dirExists: string -> bool,
    mkpathCreates: string -> bool,
    subdirs: seq<Corpus.Subdir>,
    rootFiles: seq<string>,
    outputFileExists: bool,
    outputFileOpens: bool,
    load: (string, Options.ImageFormat) -> Image)

  /** The loader of stage 3: every path is read in the pixel format the
      configuration selects (`-g` for 8-bit grayscale, RGB888 otherwise). */
  function Loader(fs: FileSystem, cfg: Options.Config): string -> Image
  {
    path => fs.load(path, cfg.format)
  }

  /** The nine abort conditions of `main`, in the order it tests them:
      empty input path, empty output path, missing input directory,
      output directory that cannot be created, no enrollment templates,
      no verification templates, engine initialisation failure, existing
      output file without `-w`, output file that cannot be opened.
      `n` is the number of qualifying subdirectories, `d` the number of
      distractors and `init` the engine's answer to `initialize`. */
  function AbortConditions(cfg: Options.Config, fs: FileSystem, n: nat, d: nat, init: ReturnStatus): (c: seq<bool>)
    ensures |c| == 9
  {
    var inDir := fs.absolutePath(cfg.inputDir);
    var outDir := fs.absolutePath(cfg.outputDir);
    [inDir == "",
     outDir == "",
     !fs.dirExists(inDir),
     !fs.dirExists(outDir) && !fs.mkpathCreates(outDir),
     n * cfg.etpp == 0,
     n * cfg.vtpp + d == 0,
     init.code != Success,
     fs.outputFileExists && !cfg.rewriteOutput,
     !fs.outputFileOpens]
  }

  /** The status `main` returns once the arguments are scanned, tested as
      `main` tests them, one after the other. */
  function ExitCode(cfg: Options.Config, fs: FileSystem, n: nat, d: nat, init: ReturnStatus): (code: nat)
    ensures code <= 9
  {
    var inDir := fs.absolutePath(cfg.inputDir);
    var outDir := fs.absolutePath(cfg.outputDir);
    if inDir == "" then 1
    else if outDir == "" then 2
    else if !fs.dirExists(inDir) then 3
    else if !fs.dirExists(outDir) && !fs.mkpathCreates(outDir) then 4
    else if n * cfg.etpp == 0 then 5
    else if n * cfg.vtpp + d == 0 then 6
    else if init.code != Success then 7
    else if fs.outputFileExists && !cfg.rewriteOutput then 8
    else if !fs.outputFileOpens then 9
    else 0
  }

  /** The first failing check wins: a non-zero status names an abort
      condition that holds while every earlier one does not, and the
      status is 0 exactly when no condition holds. */
  lemma ExitCodeIsFirstFailure(cfg: Options.Config, fs: FileSystem, n: nat, d: nat, init: ReturnStatus)
    ensures ExitCode(cfg, fs, n, d, init) <= 9
    ensures ExitCode(cfg, fs, n, d, init) == 0 <==>
      forall j :: 0 <= j < 9 ==> !AbortConditions(cfg, fs, n, d, init)[j]
    ensures var code := ExitCode(cfg, fs, n, d, init);
      code != 0 ==> AbortConditions(cfg, fs, n, d, init)[code - 1]
    ensures var code := ExitCode(cfg, fs, n, d, init);
      forall j :: 0 <= j < code - 1 ==> !AbortConditions(cfg, fs, n, d, init)[j]
  {
    var c := AbortConditions(cfg, fs, n, d, init);
    var code := ExitCode(cfg, fs, n, d, init);
    var bound := if code == 0 then 9 else code - 1;
    forall j | 0 <= j < bound
      ensures !c[j]
    {
      assert j in {0, 1, 2, 3, 4, 5, 6, 7, 8};
    }
    if forall j :: 0 <= j < 9 ==> !c[j] {
      assert !c[0] && !c[1] && !c[2] && !c[3] && !c[4] && !c[5] && !c[6] && !c[7] && !c[8];
    }
  }

  /** A run that passes every check has qualifying identities, enrollment
      and verification templates, and an initialised engine. */
  lemma PassingRunHasTemplates(cfg: Options.Config, fs: FileSystem, n: nat, d: nat, init: ReturnStatus)
    requires ExitCode(cfg, fs, n, d, init) == 0
    ensures n > 0 && cfg.etpp > 0
    ensures n * cfg.etpp > 0 && n * cfg.vtpp + d > 0
    ensures (n * cfg.etpp) * (n * cfg.vtpp + d) > 0
    ensures init.code == Success
  {
    assert n * cfg.etpp != 0;
  }

  // ---------------------------------------------------------------------
  // The operating point

  /** How many examples make a rate confident (`confexaples`). */
  const ConfidentExamples: nat := 10

  function Pow10(k: nat): (r: nat)
    ensures r >= 1
  {
    if k == 0 then 1 else 10 * Pow10(k - 1)
  }

  /** `floor(log10(x))` of a whole number `x >= 1`. */
  function FloorLog10(x: nat): (e: nat)
    requires x >= 1
    ensures Pow10(e) <= x < Pow10(e + 1)
  {
    if x < 10 then 0 else 1 + FloorLog10(x / 10)
  }

  /** The decimal exponent of `bestFAR`: `floor(log10(neg / 10))` when that
      is not negative, and 0 when the clamp to 1 applies (fewer than ten
      impostor pairs, including none). For `neg >= 10`, `floor` of the
      real quotient equals `floor` of the whole quotient `neg / 10`, since
      a power of ten is at most `neg / 10` exactly when it is at most its
      whole part. */
  function FarExponent(neg: nat): (e: nat)
    ensures neg < ConfidentExamples ==> e == 0
    ensures neg >= ConfidentExamples ==>
      ConfidentExamples * Pow10(e) <= neg < ConfidentExamples * Pow10(e + 1)
  {
    if neg < ConfidentExamples then 0 else FloorLog10(neg / ConfidentExamples)
  }

  /** `bestFAR`: `10^-FarExponent(neg)`, a power of ten no greater than 1. */
  function BestFar(neg: nat): (far: real)
    ensures 0.0 < far <= 1.0
  {
    1.0 / (Pow10(FarExponent(neg)) as real)
  }

  lemma {:induction false} Pow10Monotone(i: nat, j: nat)
    requires i <= j
    ensures Pow10(i) <= Pow10(j)
    decreases j
  {
    if i < j {
      Pow10Monotone(i, j - 1);
    }
  }

  lemma FloorLog10Monotone(x: nat, y: nat)
    requires 1 <= x <= y
    ensures FloorLog10(x) <= FloorLog10(y)
  {
    var ex, ey := FloorLog10(x), FloorLog10(y);
    if ey < ex {
      Pow10Monotone(ey + 1, ex);
    }
  }

  /** A larger denominator gives a smaller reciprocal. */
  lemma ReciprocalAntitone(p: nat, q: nat)
    requires 1 <= p <= q
    ensures 1.0 / (q as real) <= 1.0 / (p as real)
  {
    var a, b := 1.0 / (p as real), 1.0 / (q as real);
    assert a * (p as real) == 1.0 && b * (q as real) == 1.0;
  }

  /** More impostor pairs never raise the chosen FAR. */
  lemma BestFarAntitone(a: nat, b: nat)
    requires a <= b
    ensures BestFar(b) <= BestFar(a)
  {
    if a >= ConfidentExamples {
      FloorLog10Monotone(a / ConfidentExamples, b / ConfidentExamples);
      Pow10Monotone(FarExponent(a), FarExponent(b));
      ReciprocalAntitone(Pow10(FarExponent(a)), Pow10(FarExponent(b)));
    }
  }

  /** `a / p` lies in [10, 100) when `10 p <= a < 100 p`. */
  lemma QuotientInDecade(a: nat, p: nat)
    requires p >= 1 && 10 * p <= a < 100 * p
    ensures 10.0 <= 1.0 / (p as real) * (a as real) < 100.0
  {
    var q := 1.0 / (p as real) * (a as real);
    assert q * (p as real) == a as real;
  }

  /** The chosen FAR is the smallest power of ten at which at least ten
      false accepts are expected among the impostor pairs: at least ten,
      and fewer than a hundred, are expected at it. With fewer than ten
      impostor pairs the FAR is 1. */
  lemma BestFarIsConfident(neg: nat)
    ensures neg < ConfidentExamples ==> BestFar(neg) == 1.0
    ensures neg >= ConfidentExamples ==>
      ConfidentExamples as real <= BestFar(neg) * (neg as real) < (10 * ConfidentExamples) as real
  {
    if neg >= ConfidentExamples {
      var e := FarExponent(neg);
      var p := Pow10(e);
      assert p <= neg / 10 < 10 * p;
      QuotientInDecade(neg, p);
    }
  }

  /** `bestFRR`: the FRR read from the curve, raised to `10 / pos` (or to
      1 when that exceeds 1) when it is below `10 / pos`, the smallest
      rate ten errors among `pos` genuine pairs can show. */
  function ConfidentFrr(frr: real, pos: nat): (r: real)
    requires pos > 0
    ensures r == frr || r == ConfidenceFloor(pos)
    ensures frr <= 1.0 ==> frr <= r
  {
    var least := (ConfidentExamples as real) / (pos as real);
    if frr < least then (if least < 1.0 then least else 1.0) else frr
  }

  /** The smallest rate `ConfidentFrr` reports: `min(10 / pos, 1)`. */
  function ConfidenceFloor(pos: nat): (r: real)
    requires pos > 0
    ensures 0.0 < r <= 1.0
  {
    var least := (ConfidentExamples as real) / (pos as real);
    if least < 1.0 then least else 1.0
  }

  /** The reported FRR is never below the confidence floor, never below
      the FRR read from the curve, is that FRR unchanged once it reaches
      `10 / pos`, and stays a rate. */
  lemma ConfidentFrrBounds(frr: real, pos: nat)
    requires pos > 0 && 0.0 <= frr <= 1.0
    ensures ConfidenceFloor(pos) <= ConfidentFrr(frr, pos) <= 1.0
    ensures frr <= ConfidentFrr(frr, pos)
    ensures frr >= (ConfidentExamples as real) / (pos as real) ==> ConfidentFrr(frr, pos) == frr
    ensures ConfidentFrr(frr, pos) != frr ==> ConfidentFrr(frr, pos) == ConfidenceFloor(pos)
  {
  }

  // ---------------------------------------------------------------------
  // Stage 4: the optional shuffle

  /** `std::random_shuffle` of the enrollment templates: some reordering,
      which one depending on a random source the model does not fix. */
  method Shuffle(ts: seq<Template>) returns (shuffled: seq<Template>)
    ensures multiset(shuffled) == multiset(ts)
    ensures |shuffled| == |ts|
  {
    shuffled :| multiset(shuffled) == multiset(ts);
    assert |shuffled| == |multiset(shuffled)| == |multiset(ts)| == |ts|;
  }

  /** With the labelling of stage 3, the flag vector holds exactly
      `PositivePairs` ones and `NegativePairs` zeros, whether or not the
      enrollment templates were shuffled first. */
  lemma PairCountsMatchFlags(subdirs: seq<Corpus.Subdir>, root: string, rootFiles: seq<string>,
                             isImage: string -> bool, etpp: nat, vtpp: nat,
                             load: string -> Image, engine: Engine, es: seq<Template>)
    requires multiset(es) == multiset(Corpus.TemplatesOf(Corpus.EnrollmentSources(subdirs, isImage, etpp, vtpp),
                                                         Enrollment11, load, engine))
    ensures var n := Corpus.CountQualifying(subdirs, isImage, etpp, vtpp);
      var vs := Corpus.TemplatesOf(Corpus.VerificationSources(subdirs, root, rootFiles, isImage, etpp, vtpp),
                                   Verification11, load, engine);
      && Roc.CountFlag(Matching.Flags(es, vs), 1) == Matching.PositivePairs(etpp, vtpp, n)
      && Roc.CountFlag(Matching.Flags(es, vs), 0) == Matching.NegativePairs(etpp, vtpp, n, |Corpus.Images(rootFiles, isImage)|)
  {
    var n := Corpus.CountQualifying(subdirs, isImage, etpp, vtpp);
    var d := |Corpus.Images(rootFiles, isImage)|;
    var eSrcs := Corpus.EnrollmentSources(subdirs, isImage, etpp, vtpp);
    var vSrcs := Corpus.VerificationSources(subdirs, root, rootFiles, isImage, etpp, vtpp);
    var generated := Corpus.TemplatesOf(eSrcs, Enrollment11, load, engine);
    var vs := Corpus.TemplatesOf(vSrcs, Verification11, load, engine);
    Matching.LabelsOfTemplates(eSrcs, Enrollment11, load, engine);
    Matching.LabelsOfTemplates(vSrcs, Verification11, load, engine);
    Corpus.EnrollmentLabels(subdirs, isImage, etpp, vtpp);
    Corpus.VerificationLabels(subdirs, root, rootFiles, isImage, etpp, vtpp);
    Matching.LabelsOfPermutation(generated, es);
    Matching.GenuinePairsClosedForm(es, vs, etpp, vtpp, n, d);
  }

  // ---------------------------------------------------------------------
  // Stage 5: the curve and the operating point

  /** Stage 5: the ROC curve, its area, the best FAR and the FRR at it.
      The similarity vector must be non-empty, the curve must have a point
      and both pair totals must be non-zero, with the totals equal to the
      flag counts. */
  method Evaluate(points: nat, issameperson: seq<Byte>, pos: nat, neg: nat, similarity: seq<real>)
    returns (roc: seq<Roc.ROCPoint>, area: real, bestFar: real, bestFrr: real)
    requires points > 0 && |similarity| > 0 && |issameperson| == |similarity|
    requires pos > 0 && neg > 0
    requires pos == Roc.CountFlag(issameperson, 1) && neg == Roc.CountFlag(issameperson, 0)
    ensures roc == Roc.Curve(points, issameperson, pos, neg, similarity)
    ensures area == Roc.Area(roc)
    ensures bestFar == BestFar(neg)
    ensures bestFrr == ConfidentFrr(1.0 - roc[Roc.OperatingIndex(roc, bestFar)].tar, pos)
    ensures |roc| == points && Roc.FarNonIncreasing(roc) && Roc.RatesInUnit(roc)
    ensures 0.0 <= area <= 1.0
    ensures 0.0 < bestFar <= 1.0
    ensures ConfidenceFloor(pos) <= bestFrr <= 1.0
  {
    roc := Roc.ComputeROC(points, issameperson, pos, neg, similarity);
    assert roc == Roc.Curve(points, issameperson, pos, neg, similarity);
    Roc.CurveWellFormed(points, issameperson, pos, neg, similarity);
    Roc.CurveAreaInUnit(points, issameperson, pos, neg, similarity);
    area := Roc.FindArea(roc);
    bestFar := BestFar(neg);
    var frr := Roc.FindFRR(roc, bestFar);
    ConfidentFrrBounds(frr, pos);
    bestFrr := ConfidentFrr(frr, pos);
  }

  // ---------------------------------------------------------------------
  // The whole run

  /** What a complete run computes before writing it out as JSON. */
  datatype Report = Report(
    validSubdirs: nat,
    distractors: nat,
    etemplates: seq<Template>,
    vtemplates: seq<Template>,
    eterrors: nat,
    vterrors: nat,
    positivePairs: nat,
    negativePairs: nat,
    similarity: seq<real>,
    issameperson: seq<Byte>,
    mterrors: nat,
    etSizeBytes: nat,
    vtSizeBytes: nat,
    roc: seq<Roc.ROCPoint>,
    area: real,
    bestFar: real,
    bestFrr: real)

  /** How a run ends: the help text, an abort with a non-zero status, or
      a complete report. */
  datatype Outcome = ShowHelp | Abort(code: nat) | Complete(report: Report)

  /** The status the process exits with. */
  function ExitStatus(o: Outcome): nat
  {
    match o
    case ShowHelp => 0
    case Abort(code) => code
    case Complete(_) => 0
  }

  /** The configuration a command line of more than one token selects. */
  function ConfigOf(argv: seq<string>): Options.Config
  {
    Options.Scan(Options.Defaults(), if argv == [] then [] else argv[1..])
  }

  /** The image directory's identities and distractors as counted in
      stage 1, and the exit status they lead to. */
  function Qualifying(cfg: Options.Config, fs: FileSystem, isImage: string -> bool): nat
  {
    Corpus.CountQualifying(fs.subdirs, isImage, cfg.etpp, cfg.vtpp)
  }

  function DistractorCount(fs: FileSystem, isImage: string -> bool): nat
  {
    |Corpus.Images(fs.rootFiles, isImage)|
  }

  function RunExitCode(cfg: Options.Config, fs: FileSystem, isImage: string -> bool, engine: Engine): nat
  {
    ExitCode(cfg, fs, Qualifying(cfg, fs, isImage), DistractorCount(fs, isImage),
             engine.initialize(cfg.resourcesPath))
  }

  /** The runs whose stage 5 is defined: a run that passes every check
      asks for at least one ROC point and has both genuine and impostor
      pairs. Otherwise `findFRR` reads before an empty curve and the rates
      divide by zero. */
  predicate Measurable(cfg: Options.Config, fs: FileSystem, isImage: string -> bool, engine: Engine)
  {
    var n := Qualifying(cfg, fs, isImage);
    var d := DistractorCount(fs, isImage);
    RunExitCode(cfg, fs, isImage, engine) == 0 ==>
      && cfg.rocPoints > 0
      && Matching.PositivePairs(cfg.etpp, cfg.vtpp, n) > 0
      && Matching.NegativePairs(cfg.etpp, cfg.vtpp, n, d) > 0
  }

  /** A report is the one stages 3 to 5 compute for this configuration,
      directory and engine: the generated templates (the enrollment ones
      possibly reordered), the matching results in enrollment-major order,
      the pair counts by formula, the sizes of the first templates, and
      the curve, area and operating point computed from them. */
  predicate Describes(r: Report, cfg: Options.Config, fs: FileSystem, isImage: string -> bool, engine: Engine)
  {
    var root := fs.absolutePath(cfg.inputDir);
    var eSrcs := Corpus.EnrollmentSources(fs.subdirs, isImage, cfg.etpp, cfg.vtpp);
    var vSrcs := Corpus.VerificationSources(fs.subdirs, root, fs.rootFiles, isImage, cfg.etpp, cfg.vtpp);
    var outs := Matching.Outcomes(r.etemplates, r.vtemplates, engine.matchTemplates);
    && r.validSubdirs == Qualifying(cfg, fs, isImage)
    && r.distractors == DistractorCount(fs, isImage)
    && multiset(r.etemplates) == multiset(Corpus.TemplatesOf(eSrcs, Enrollment11, Loader(fs, cfg), engine))
    && (!cfg.shuffle ==> r.etemplates == Corpus.TemplatesOf(eSrcs, Enrollment11, Loader(fs, cfg), engine))
    && r.vtemplates == Corpus.TemplatesOf(vSrcs, Verification11, Loader(fs, cfg), engine)
    && r.eterrors == Corpus.Failures(eSrcs, Enrollment11, Loader(fs, cfg), engine)
    && r.vterrors == Corpus.Failures(vSrcs, Verification11, Loader(fs, cfg), engine)
    && r.positivePairs == Matching.PositivePairs(cfg.etpp, cfg.vtpp, r.validSubdirs)
    && r.negativePairs == Matching.NegativePairs(cfg.etpp, cfg.vtpp, r.validSubdirs, r.distractors)
    && r.similarity == Matching.Similarities(outs)
    && r.issameperson == Matching.Flags(r.etemplates, r.vtemplates)
    && r.mterrors == Matching.Errors(outs)
    && |r.etemplates| > 0 && |r.vtemplates| > 0
    && r.etSizeBytes == |r.etemplates[0].data|
    && r.vtSizeBytes == |r.vtemplates[0].data|
    && |r.similarity| > 0 && r.positivePairs > 0 && r.negativePairs > 0
    && r.roc == Roc.Curve(cfg.rocPoints, r.issameperson, r.positivePairs, r.negativePairs, r.similarity)
    && r.area == Roc.Area(r.roc)
    && r.bestFar == BestFar(r.negativePairs)
    && |r.roc| > 0
    && r.bestFrr == ConfidentFrr(1.0 - r.roc[Roc.OperatingIndex(r.roc, r.bestFar)].tar, r.positivePairs)
  }

  /** What the report promises: the pair formulas count the flags, the
      comparisons split into the two kinds of pairs, the curve has the
      requested points with FAR non-increasing and both rates in [0, 1],
      and area, FAR and FRR are rates, the FRR no lower than the
      confidence floor. */
  predicate Sound(r: Report, rocPoints: nat)
  {
    && r.positivePairs > 0
    && Roc.CountFlag(r.issameperson, 1) == r.positivePairs
    && Roc.CountFlag(r.issameperson, 0) == r.negativePairs
    && |r.similarity| == |r.issameperson| == r.positivePairs + r.negativePairs
    && |r.similarity| == |r.etemplates| * |r.vtemplates|
    && |r.roc| == rocPoints
    && Roc.FarNonIncreasing(r.roc) && Roc.RatesInUnit(r.roc)
    && 0.0 <= r.area <= 1.0
    && 0.0 < r.bestFar <= 1.0
    && ConfidenceFloor(r.positivePairs) <= r.bestFrr <= 1.0
  }

  /** Every comparison of `n * etpp` enrollment with `n * vtpp + d`
      verification templates is a positive or a negative pair. */
  lemma ComparisonsSplit(ne: nat, nv: nat, etpp: nat, vtpp: nat, n: nat, d: nat)
    requires ne == n * etpp && nv == n * vtpp + d
    ensures ne * nv == Matching.PositivePairs(etpp, vtpp, n) + Matching.NegativePairs(etpp, vtpp, n, d)
  {
    Matching.PairsPartitionComparisons(etpp, vtpp, n, d);
  }

  /** Whatever the engine and the directory, a report that stages 3 to 5
      compute keeps every promise of `Sound`. */
  lemma DescribedIsSound(r: Report, cfg: Options.Config, fs: FileSystem, isImage: string -> bool, engine: Engine)
    requires Describes(r, cfg, fs, isImage, engine)
    ensures Sound(r, cfg.rocPoints)
  {
    var n, d := r.validSubdirs, r.distractors;
    var pos, neg := r.positivePairs, r.negativePairs;
    var eSrcs := Corpus.EnrollmentSources(fs.subdirs, isImage, cfg.etpp, cfg.vtpp);
    Corpus.SourceCounts(fs.subdirs, isImage, cfg.etpp, cfg.vtpp);
    PairCountsMatchFlags(fs.subdirs, fs.absolutePath(cfg.inputDir), fs.rootFiles, isImage,
                         cfg.etpp, cfg.vtpp, Loader(fs, cfg), engine, r.etemplates);
    var generated := Corpus.TemplatesOf(eSrcs, Enrollment11, Loader(fs, cfg), engine);
    var ne, nv := |r.etemplates|, |r.vtemplates|;
    assert ne == |multiset(r.etemplates)| == |multiset(generated)| == |generated| == n * cfg.etpp;
    assert nv == n * cfg.vtpp + d;
    ComparisonsSplit(ne, nv, cfg.etpp, cfg.vtpp, n, d);
    Roc.CurveWellFormed(cfg.rocPoints, r.issameperson, pos, neg, r.similarity);
    Roc.CurveAreaInUnit(cfg.rocPoints, r.issameperson, pos, neg, r.similarity);
    var k := Roc.OperatingIndex(r.roc, r.bestFar);
    ConfidentFrrBounds(1.0 - r.roc[k].tar, pos);
  }

  /** Stage 3 and the optional shuffle: the templates of every qualifying
      identity and of every distractor, the enrollment ones reordered
      when `-s` was given. */
  method Generate(cfg: Options.Config, fs: FileSystem, isImage: string -> bool, engine: Engine,
                  validsubdirs: nat, distractorFiles: seq<string>)
    returns (etemplates: seq<Template>, vtemplates: seq<Template>, eterrors: nat, vterrors: nat)
    requires validsubdirs == Qualifying(cfg, fs, isImage)
    requires distractorFiles == Corpus.Images(fs.rootFiles, isImage)
    ensures var eSrcs := Corpus.EnrollmentSources(fs.subdirs, isImage, cfg.etpp, cfg.vtpp);
      && multiset(etemplates) == multiset(Corpus.TemplatesOf(eSrcs, Enrollment11, Loader(fs, cfg), engine))
      && (!cfg.shuffle ==> etemplates == Corpus.TemplatesOf(eSrcs, Enrollment11, Loader(fs, cfg), engine))
      && eterrors == Corpus.Failures(eSrcs, Enrollment11, Loader(fs, cfg), engine)
    ensures var vSrcs := Corpus.VerificationSources(fs.subdirs, fs.absolutePath(cfg.inputDir), fs.rootFiles,
                                                    isImage, cfg.etpp, cfg.vtpp);
      && vtemplates == Corpus.TemplatesOf(vSrcs, Verification11, Loader(fs, cfg), engine)
      && vterrors == Corpus.Failures(vSrcs, Verification11, Loader(fs, cfg), engine)
    ensures |etemplates| == validsubdirs * cfg.etpp
    ensures |vtemplates| == validsubdirs * cfg.vtpp + |distractorFiles|
  {
    etemplates, vtemplates, eterrors, vterrors :=
      Corpus.GenerateTemplates(fs.subdirs, fs.absolutePath(cfg.inputDir), fs.rootFiles, isImage,
                               cfg.etpp, cfg.vtpp, validsubdirs, distractorFiles, Loader(fs, cfg), engine);
    if cfg.shuffle {
      etemplates := Shuffle(etemplates);
    }
  }

  /** Stages 3 to 5 of a run that passed every check. */
  method Measure(cfg: Options.Config, fs: FileSystem, isImage: string -> bool, engine: Engine,
                 validsubdirs: nat, distractorFiles: seq<string>)
    returns (r: Report)
    requires validsubdirs == Qualifying(cfg, fs, isImage)
    requires distractorFiles == Corpus.Images(fs.rootFiles, isImage)
    requires cfg.rocPoints > 0
    requires Matching.PositivePairs(cfg.etpp, cfg.vtpp, validsubdirs) > 0
    requires Matching.NegativePairs(cfg.etpp, cfg.vtpp, validsubdirs, |distractorFiles|) > 0
    ensures Describes(r, cfg, fs, isImage, engine)
    ensures Sound(r, cfg.rocPoints)
  {
    var d := |distractorFiles|;
    var etemplates, vtemplates, eterrors, vterrors :=
      Generate(cfg, fs, isImage, engine, validsubdirs, distractorFiles);
    // Stage 4
    var pos := Matching.PositivePairs(cfg.etpp, cfg.vtpp, validsubdirs);
    var neg := Matching.NegativePairs(cfg.etpp, cfg.vtpp, validsubdirs, d);
    var similarity, issameperson, mterrors := Matching.MatchAll(etemplates, vtemplates, engine.matchTemplates);
    PairCountsMatchFlags(fs.subdirs, fs.absolutePath(cfg.inputDir), fs.rootFiles, isImage,
                         cfg.etpp, cfg.vtpp, Loader(fs, cfg), engine, etemplates);
    ComparisonsSplit(|etemplates|, |vtemplates|, cfg.etpp, cfg.vtpp, validsubdirs, d);
    // Stage 5
    var etsizebytes := |etemplates[0].data|;
    var vtsizebytes := |vtemplates[0].data|;
    var roc, area, bestFar, bestFrr := Evaluate(cfg.rocPoints, issameperson, pos, neg, similarity);
    r := Report(validsubdirs, d, etemplates, vtemplates, eterrors, vterrors, pos, neg,
                similarity, issameperson, mterrors, etsizebytes, vtsizebytes,
                roc, area, bestFar, bestFrr);
    DescribedIsSound(r, cfg, fs, isImage, engine);
  }

  /** `main`: help for a bare invocation; otherwise the argument scan, the
      checks in order, and stages 3 to 5. */
  method Run(argv: seq<string>, fs: FileSystem, isImage: string -> bool, engine: Engine)
    returns (outcome: Outcome)
    requires |argv| != 1 ==> Measurable(ConfigOf(argv), fs, isImage, engine)
    ensures |argv| == 1 <==> outcome == ShowHelp
    ensures |argv| != 1 ==> ExitStatus(outcome) == RunExitCode(ConfigOf(argv), fs, isImage, engine)
    ensures outcome.Abort? ==> outcome.code != 0
    ensures outcome.Complete? ==>
      && Describes(outcome.report, ConfigOf(argv), fs, isImage, engine)
      && Sound(outcome.report, ConfigOf(argv).rocPoints)
  {
    var request := Options.ParseArgs(argv);
    if request.Help? {
      return ShowHelp;
    }
    var cfg := request.config;
    var inDir := fs.absolutePath(cfg.inputDir);
    var outDir := fs.absolutePath(cfg.outputDir);
    if inDir == "" {
      return Abort(1);
    }
    if outDir == "" {
      return Abort(2);
    }
    if !fs.dirExists(inDir) {
      return Abort(3);
    }
    if !fs.dirExists(outDir) {
      if !fs.mkpathCreates(outDir) {
        return Abort(4);
      }
    }
    // Stage 1
    var validsubdirs := Corpus.CountValidSubdirs(fs.subdirs, isImage, cfg.etpp, cfg.vtpp);
    if validsubdirs * cfg.etpp == 0 {
      return Abort(5);
    }
    var distractorFiles := Corpus.Images(fs.rootFiles, isImage);
    if validsubdirs * cfg.vtpp + |distractorFiles| == 0 {
      return Abort(6);
    }
    // Stage 2
    var status := engine.initialize(cfg.resourcesPath);
    if status.code != Success {
      return Abort(7);
    }
    if fs.outputFileExists && !cfg.rewriteOutput {
      return Abort(8);
    } else if !fs.outputFileOpens {
      return Abort(9);
    }
    var report := Measure(cfg, fs, isImage, engine, validsubdirs, distractorFiles);
    return Complete(report);
  }
}
