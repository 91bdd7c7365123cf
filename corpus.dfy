/** The test corpus: which subdirectories of the input directory qualify as
    identities, which of their images become enrollment and verification
    templates, which root-level images are distractors, and the labels all
    of these receive. */
module Corpus {
  import opened Irpv
  import opened BiometricTemplates
  import opened Arithmetic

  /** A subdirectory of the input directory: its absolute path and its
      plain files in name order. */
  datatype Subdir = Subdir(path: string, files: seq<string>)

  /** Files per person a subdirectory needs to qualify: the enrollment
      images plus the verification images. */
  function MinFilesPerPerson(etpp: nat, vtpp: nat): (m: nat)
    ensures m == etpp + vtpp
  {
    if vtpp == 0 then etpp else etpp + vtpp
  }

  /** The files the image filter accepts, in their original order. */
  function Images(files: seq<string>, isImage: string -> bool): (r: seq<string>)
    ensures |r| <= |files|
  {
    if files == [] then []
    else
      var rest := Images(files[..|files| - 1], isImage);
      if isImage(files[|files| - 1]) then rest + [files[|files| - 1]] else rest
  }

  predicate Qualifies(s: Subdir, isImage: string -> bool, etpp: nat, vtpp: nat)
  {
    |Images(s.files, isImage)| >= MinFilesPerPerson(etpp, vtpp)
  }

  /** `validsubdirs`: how many subdirectories hold enough images. */
  function CountQualifying(subdirs: seq<Subdir>, isImage: string -> bool, etpp: nat, vtpp: nat): (n: nat)
    ensures n <= |subdirs|
  {
    if subdirs == [] then 0
    else
      CountQualifying(subdirs[..|subdirs| - 1], isImage, etpp, vtpp)
      + (if Qualifies(subdirs[|subdirs| - 1], isImage, etpp, vtpp) then 1 else 0)
  }

  /** The counting loop of stage 1. */
  method CountValidSubdirs(subdirs: seq<Subdir>, isImage: string -> bool, etpp: nat, vtpp: nat)
    returns (valid: nat)
    ensures valid == CountQualifying(subdirs, isImage, etpp, vtpp)
  {
    valid := 0;
    var minfiles := MinFilesPerPerson(etpp, vtpp);
    for i := 0 to |subdirs|
      invariant valid == CountQualifying(subdirs[..i], isImage, etpp, vtpp)
    {
      assert subdirs[..i + 1][..i] == subdirs[..i];
      if |Images(subdirs[i].files, isImage)| >= minfiles {
        valid := valid + 1;
      }
    }
    assert subdirs[..|subdirs|] == subdirs;
  }

  /** An image to turn into a template, and the label it will carry. */
  datatype Source = Source(identity: nat, path: string)

  /** `count` consecutive images of one subdirectory, starting at image
      `from`, all labelled `person`. */
  function PersonSources(s: Subdir, isImage: string -> bool, person: nat, from: nat, count: nat): (r: seq<Source>)
    requires from + count <= |Images(s.files, isImage)|
    ensures |r| == count
  {
    seq(count, j requires 0 <= j < count =>
      Source(person, s.path + "/" + Images(s.files, isImage)[from + j]))
  }

  /** The enrollment images in the order stage 3 creates them: the first
      `etpp` images of each qualifying subdirectory, labelled by the number
      of qualifying subdirectories before it. */
  function EnrollmentSources(subdirs: seq<Subdir>, isImage: string -> bool, etpp: nat, vtpp: nat): (r: seq<Source>)
    decreases |subdirs|
  {
    if subdirs == [] then []
    else
      var init := subdirs[..|subdirs| - 1];
      var last := subdirs[|subdirs| - 1];
      var before := EnrollmentSources(init, isImage, etpp, vtpp);
      if Qualifies(last, isImage, etpp, vtpp)
      then before + PersonSources(last, isImage, CountQualifying(init, isImage, etpp, vtpp), 0, etpp)
      else before
  }

  /** The verification images of the identities: images `etpp` up to
      `etpp + vtpp` of each qualifying subdirectory. */
  function IdentitySources(subdirs: seq<Subdir>, isImage: string -> bool, etpp: nat, vtpp: nat): (r: seq<Source>)
    decreases |subdirs|
  {
    if subdirs == [] then []
    else
      var init := subdirs[..|subdirs| - 1];
      var last := subdirs[|subdirs| - 1];
      var before := IdentitySources(init, isImage, etpp, vtpp);
      if Qualifies(last, isImage, etpp, vtpp)
      then before + PersonSources(last, isImage, CountQualifying(init, isImage, etpp, vtpp), etpp, vtpp)
      else before
  }

  /** The distractors: every image in the input directory itself, each
      with a label of its own, numbered on from `first`. */
  function DistractorSources(root: string, images: seq<string>, first: nat): (r: seq<Source>)
    ensures |r| == |images|
  {
    seq(|images|, i requires 0 <= i < |images| => Source(first + i, root + "/" + images[i]))
  }

  /** All verification images: the identities' then the distractors. */
  function VerificationSources(subdirs: seq<Subdir>, root: string, rootFiles: seq<string>,
                               isImage: string -> bool, etpp: nat, vtpp: nat): seq<Source>
  {
    IdentitySources(subdirs, isImage, etpp, vtpp)
    + DistractorSources(root, Images(rootFiles, isImage), CountQualifying(subdirs, isImage, etpp, vtpp))
  }

  /** The outcome of creating the template of one source with `engine`,
      given the image `load` gives for each path. */
  function Create(src: Source, role: TemplateRole, load: string -> Image, engine: Engine): CreateOutcome
  {
    engine.createTemplate(load(src.path), role)
  }

  /** The templates the harness stores for a list of sources. */
  function TemplatesOf(srcs: seq<Source>, role: TemplateRole, load: string -> Image, engine: Engine): (r: seq<Template>)
    ensures |r| == |srcs|
  {
    if srcs == [] then []
    else
      var src := srcs[|srcs| - 1];
      TemplatesOf(srcs[..|srcs| - 1], role, load, engine)
      + [Template(src.identity, role, Create(src, role, load, engine).templ)]
  }

  /** Templates are created source by source, so lists of sources can be
      split anywhere. */
  lemma {:induction false} TemplatesAppend(a: seq<Source>, b: seq<Source>, role: TemplateRole,
                                           load: string -> Image, engine: Engine)
    ensures TemplatesOf(a + b, role, load, engine) == TemplatesOf(a, role, load, engine) + TemplatesOf(b, role, load, engine)
    decreases |b|
  {
    if b != [] {
      var b' := b[..|b| - 1];
      assert (a + b)[..|a + b| - 1] == a + b';
      TemplatesAppend(a, b', role, load, engine);
    } else {
      assert a + b == a;
    }
  }

  /** How many of the sources' template creations did not succeed. */
  function Failures(srcs: seq<Source>, role: TemplateRole, load: string -> Image, engine: Engine): (n: nat)
    ensures n <= |srcs|
  {
    if srcs == [] then 0
    else
      Failures(srcs[..|srcs| - 1], role, load, engine)
      + (if Create(srcs[|srcs| - 1], role, load, engine).status.code != Success then 1 else 0)
  }

  /** Failures add up over consecutive lists of sources. */
  lemma {:induction false} FailuresAppend(a: seq<Source>, b: seq<Source>, role: TemplateRole,
                                          load: string -> Image, engine: Engine)
    ensures Failures(a + b, role, load, engine) == Failures(a, role, load, engine) + Failures(b, role, load, engine)
    decreases |b|
  {
    if b != [] {
      var b' := b[..|b| - 1];
      assert (a + b)[..|a + b| - 1] == a + b';
      FailuresAppend(a, b', role, load, engine);
    } else {
      assert a + b == a;
    }
  }

  /** One run of the stage-3 template loop: creates the template of each
      source in turn, stores it at the next position of the vector
      `templates` and counts the creations that did not succeed. */
  method StoreTemplates(templates: seq<Template>, pos: nat, srcs: seq<Source>, role: TemplateRole,
                        load: string -> Image, engine: Engine)
    returns (templates': seq<Template>, errors: nat)
    requires pos + |srcs| <= |templates|
    ensures |templates'| == |templates|
    ensures templates'[..pos + |srcs|] == templates[..pos] + TemplatesOf(srcs, role, load, engine)
    ensures templates'[pos + |srcs|..] == templates[pos + |srcs|..]
    ensures errors == Failures(srcs, role, load, engine)
  {
    templates', errors := templates, 0;
    for j := 0 to |srcs|
      invariant |templates'| == |templates|
      invariant templates'[..pos + j] == templates[..pos] + TemplatesOf(srcs[..j], role, load, engine)
      invariant forall k :: pos + j <= k < |templates'| ==> templates'[k] == templates[k]
      invariant errors == Failures(srcs[..j], role, load, engine)
    {
      var out := engine.createTemplate(load(srcs[j].path), role);
      templates' := templates'[pos + j := Template(srcs[j].identity, role, out.templ)];
      if out.status.code != Success {
        errors := errors + 1;
      }
      assert srcs[..j + 1][..j] == srcs[..j];
      assert templates'[..pos + j + 1] == templates'[..pos + j] + [templates'[pos + j]];
    }
    assert srcs[..|srcs|] == srcs;
    assert templates'[pos + |srcs|..] == templates[pos + |srcs|..];
  }

  /** What the subdirectory loop of stage 3 has produced after the first
      `i` subdirectories: the stored templates, the error counts and the
      next free label. */
  ghost predicate StoredUpTo(subdirs: seq<Subdir>, i: nat, isImage: string -> bool, etpp: nat, vtpp: nat,
                             load: string -> Image, engine: Engine,
                             eStored: seq<Template>, vStored: seq<Template>,
                             eterrors: nat, vterrors: nat, person: nat)
    requires i <= |subdirs|
  {
    var enroll := EnrollmentSources(subdirs[..i], isImage, etpp, vtpp);
    var identities := IdentitySources(subdirs[..i], isImage, etpp, vtpp);
    && person == CountQualifying(subdirs[..i], isImage, etpp, vtpp)
    && eStored == TemplatesOf(enroll, Enrollment11, load, engine)
    && vStored == TemplatesOf(identities, Verification11, load, engine)
    && eterrors == Failures(enroll, Enrollment11, load, engine)
    && vterrors == Failures(identities, Verification11, load, engine)
  }

  /** One iteration of the subdirectory loop keeps `StoredUpTo`. */
  lemma StoredStep(subdirs: seq<Subdir>, i: nat, isImage: string -> bool, etpp: nat, vtpp: nat,
                   load: string -> Image, engine: Engine,
                   eStored: seq<Template>, vStored: seq<Template>, eterrors: nat, vterrors: nat, person: nat,
                   eBlock: seq<Source>, vBlock: seq<Source>, eErrors: nat, vErrors: nat)
    requires i < |subdirs|
    requires StoredUpTo(subdirs, i, isImage, etpp, vtpp, load, engine, eStored, vStored, eterrors, vterrors, person)
    requires Qualifies(subdirs[i], isImage, etpp, vtpp)
    requires eBlock == PersonSources(subdirs[i], isImage, person, 0, etpp)
    requires vBlock == PersonSources(subdirs[i], isImage, person, etpp, vtpp)
    requires eErrors == Failures(eBlock, Enrollment11, load, engine)
    requires vErrors == Failures(vBlock, Verification11, load, engine)
    ensures StoredUpTo(subdirs, i + 1, isImage, etpp, vtpp, load, engine,
                       eStored + TemplatesOf(eBlock, Enrollment11, load, engine),
                       vStored + TemplatesOf(vBlock, Verification11, load, engine),
                       eterrors + eErrors, vterrors + vErrors, person + 1)
  {
    SourcesStep(subdirs, isImage, etpp, vtpp, i);
    var enroll := EnrollmentSources(subdirs[..i], isImage, etpp, vtpp);
    var identities := IdentitySources(subdirs[..i], isImage, etpp, vtpp);
    FailuresAppend(enroll, eBlock, Enrollment11, load, engine);
    FailuresAppend(identities, vBlock, Verification11, load, engine);
    TemplatesAppend(enroll, eBlock, Enrollment11, load, engine);
    TemplatesAppend(identities, vBlock, Verification11, load, engine);
  }

  /** A qualifying subdirectory's templates fit in the arrays sized for all
      of them. */
  lemma StepRoom(subdirs: seq<Subdir>, i: nat, isImage: string -> bool, etpp: nat, vtpp: nat,
                 load: string -> Image, engine: Engine,
                 eStored: seq<Template>, vStored: seq<Template>, eterrors: nat, vterrors: nat, person: nat,
                 eLength: nat, vLength: nat)
    requires i < |subdirs|
    requires StoredUpTo(subdirs, i, isImage, etpp, vtpp, load, engine, eStored, vStored, eterrors, vterrors, person)
    requires Qualifies(subdirs[i], isImage, etpp, vtpp)
    requires |EnrollmentSources(subdirs, isImage, etpp, vtpp)| <= eLength
    requires |IdentitySources(subdirs, isImage, etpp, vtpp)| <= vLength
    ensures |eStored| + etpp <= eLength && |vStored| + vtpp <= vLength
  {
    SourcesStep(subdirs, isImage, etpp, vtpp, i);
    SourcesPrefix(subdirs, isImage, etpp, vtpp, i + 1);
  }

  /** A subdirectory with too few images changes nothing. */
  lemma SkippedStep(subdirs: seq<Subdir>, i: nat, isImage: string -> bool, etpp: nat, vtpp: nat,
                    load: string -> Image, engine: Engine,
                    eStored: seq<Template>, vStored: seq<Template>, eterrors: nat, vterrors: nat, person: nat)
    requires i < |subdirs|
    requires StoredUpTo(subdirs, i, isImage, etpp, vtpp, load, engine, eStored, vStored, eterrors, vterrors, person)
    requires !Qualifies(subdirs[i], isImage, etpp, vtpp)
    ensures StoredUpTo(subdirs, i + 1, isImage, etpp, vtpp, load, engine, eStored, vStored, eterrors, vterrors, person)
  {
    SourcesStep(subdirs, isImage, etpp, vtpp, i);
  }

  /** The subdirectory loop of stage 3: the templates of every qualifying
      subdirectory, stored from the start of the two vectors. Returns the
      vectors, the positions reached, the error counts and the next free
      label. */
  method StoreIdentities(etemplates: seq<Template>, vtemplates: seq<Template>,
                         subdirs: seq<Subdir>, isImage: string -> bool, etpp: nat, vtpp: nat,
                         load: string -> Image, engine: Engine)
    returns (etemplates': seq<Template>, vtemplates': seq<Template>,
             etpos: nat, vtpos: nat, eterrors: nat, vterrors: nat, person: nat)
    requires |EnrollmentSources(subdirs, isImage, etpp, vtpp)| <= |etemplates|
    requires |IdentitySources(subdirs, isImage, etpp, vtpp)| <= |vtemplates|
    ensures |etemplates'| == |etemplates| && |vtemplates'| == |vtemplates|
    ensures etpos <= |etemplates'| && vtpos <= |vtemplates'|
    ensures StoredUpTo(subdirs, |subdirs|, isImage, etpp, vtpp, load, engine,
                       etemplates'[..etpos], vtemplates'[..vtpos], eterrors, vterrors, person)
    ensures etemplates'[etpos..] == etemplates[etpos..]
    ensures vtemplates'[vtpos..] == vtemplates[vtpos..]
  {
    etemplates', vtemplates' := etemplates, vtemplates;
    etpos, vtpos := 0, 0;
    eterrors, vterrors := 0, 0;
    person := 0;
    var minfiles := MinFilesPerPerson(etpp, vtpp);
    for i := 0 to |subdirs|
      invariant |etemplates'| == |etemplates| && |vtemplates'| == |vtemplates|
      invariant etpos <= |etemplates'| && vtpos <= |vtemplates'|
      invariant StoredUpTo(subdirs, i, isImage, etpp, vtpp, load, engine,
                           etemplates'[..etpos], vtemplates'[..vtpos], eterrors, vterrors, person)
      invariant etemplates'[etpos..] == etemplates[etpos..]
      invariant vtemplates'[vtpos..] == vtemplates[vtpos..]
    {
      var s := subdirs[i];
      ghost var eStored, vStored := etemplates'[..etpos], vtemplates'[..vtpos];
      if |Images(s.files, isImage)| >= minfiles {
        StepRoom(subdirs, i, isImage, etpp, vtpp, load, engine, eStored, vStored,
                 eterrors, vterrors, person, |etemplates'|, |vtemplates'|);
        var eBlock := PersonSources(s, isImage, person, 0, etpp);
        var vBlock := PersonSources(s, isImage, person, etpp, vtpp);
        var eErrors, vErrors;
        ghost var eBefore, vBefore := etemplates', vtemplates';
        etemplates', eErrors := StoreTemplates(etemplates', etpos, eBlock, Enrollment11, load, engine);
        vtemplates', vErrors := StoreTemplates(vtemplates', vtpos, vBlock, Verification11, load, engine);
        PersonStored(subdirs, i, isImage, etpp, vtpp, load, engine, etemplates, vtemplates,
                     eBefore, vBefore, etpos, vtpos, eterrors, vterrors, person,
                     etemplates', vtemplates', eErrors, vErrors);
        etpos, eterrors := etpos + etpp, eterrors + eErrors;
        vtpos, vterrors := vtpos + vtpp, vterrors + vErrors;
        person := person + 1;
      } else {
        SkippedStep(subdirs, i, isImage, etpp, vtpp, load, engine,
                    eStored, vStored, eterrors, vterrors, person);
      }
    }
  }

  /** Storing one qualifying subdirectory's two blocks at `etpos` and
      `vtpos` extends the loop state by that subdirectory and leaves the
      slots after the blocks as they were before the loop. */
  lemma PersonStored(subdirs: seq<Subdir>, i: nat, isImage: string -> bool, etpp: nat, vtpp: nat,
                     load: string -> Image, engine: Engine,
                     etemplates: seq<Template>, vtemplates: seq<Template>,
                     eBefore: seq<Template>, vBefore: seq<Template>, etpos: nat, vtpos: nat,
                     eterrors: nat, vterrors: nat, person: nat,
                     eAfter: seq<Template>, vAfter: seq<Template>, eErrors: nat, vErrors: nat)
    requires i < |subdirs| && Qualifies(subdirs[i], isImage, etpp, vtpp)
    requires |eBefore| == |etemplates| && |vBefore| == |vtemplates|
    requires etpos + etpp <= |eBefore| && vtpos + vtpp <= |vBefore|
    requires StoredUpTo(subdirs, i, isImage, etpp, vtpp, load, engine,
                        eBefore[..etpos], vBefore[..vtpos], eterrors, vterrors, person)
    requires eBefore[etpos..] == etemplates[etpos..] && vBefore[vtpos..] == vtemplates[vtpos..]
    requires var eBlock := PersonSources(subdirs[i], isImage, person, 0, etpp);
      && |eAfter| == |eBefore|
      && eAfter[..etpos + etpp] == eBefore[..etpos] + TemplatesOf(eBlock, Enrollment11, load, engine)
      && eAfter[etpos + etpp..] == eBefore[etpos + etpp..]
      && eErrors == Failures(eBlock, Enrollment11, load, engine)
    requires var vBlock := PersonSources(subdirs[i], isImage, person, etpp, vtpp);
      && |vAfter| == |vBefore|
      && vAfter[..vtpos + vtpp] == vBefore[..vtpos] + TemplatesOf(vBlock, Verification11, load, engine)
      && vAfter[vtpos + vtpp..] == vBefore[vtpos + vtpp..]
      && vErrors == Failures(vBlock, Verification11, load, engine)
    ensures StoredUpTo(subdirs, i + 1, isImage, etpp, vtpp, load, engine,
                       eAfter[..etpos + etpp], vAfter[..vtpos + vtpp],
                       eterrors + eErrors, vterrors + vErrors, person + 1)
    ensures eAfter[etpos + etpp..] == etemplates[etpos + etpp..]
    ensures vAfter[vtpos + vtpp..] == vtemplates[vtpos + vtpp..]
  {
    var eBlock := PersonSources(subdirs[i], isImage, person, 0, etpp);
    var vBlock := PersonSources(subdirs[i], isImage, person, etpp, vtpp);
    StoredStep(subdirs, i, isImage, etpp, vtpp, load, engine, eBefore[..etpos], vBefore[..vtpos],
               eterrors, vterrors, person, eBlock, vBlock, eErrors, vErrors);
    SuffixKept(etemplates, eBefore, eAfter, etpos, etpp);
    SuffixKept(vtemplates, vBefore, vAfter, vtpos, vtpp);
  }

  /** The slots a store leaves alone stay as they were before the loop. */
  lemma SuffixKept<T>(original: seq<T>, before: seq<T>, after: seq<T>, pos: nat, count: nat)
    requires pos + count <= |original| == |before| == |after|
    requires before[pos..] == original[pos..]
    requires after[pos + count..] == before[pos + count..]
    ensures after[pos + count..] == original[pos + count..]
  {
    assert before[pos + count..] == before[pos..][count..];
    assert original[pos + count..] == original[pos..][count..];
  }

  /** Stage 3: creates the enrollment and verification templates, counting
      the calls that did not succeed. `n` and `distractors` are what stage 1
      found. */
  method GenerateTemplates(subdirs: seq<Subdir>, root: string, rootFiles: seq<string>,
                           isImage: string -> bool, etpp: nat, vtpp: nat,
                           n: nat, distractors: seq<string>,
                           load: string -> Image, engine: Engine)
    returns (etemplates: seq<Template>, vtemplates: seq<Template>, eterrors: nat, vterrors: nat)
    requires n == CountQualifying(subdirs, isImage, etpp, vtpp)
    requires distractors == Images(rootFiles, isImage)
    ensures |etemplates| == n * etpp
    ensures |vtemplates| == n * vtpp + |distractors|
    ensures etemplates == TemplatesOf(EnrollmentSources(subdirs, isImage, etpp, vtpp), Enrollment11, load, engine)
    ensures vtemplates == TemplatesOf(VerificationSources(subdirs, root, rootFiles, isImage, etpp, vtpp),
                                      Verification11, load, engine)
    ensures eterrors == Failures(EnrollmentSources(subdirs, isImage, etpp, vtpp), Enrollment11, load, engine)
    ensures vterrors == Failures(VerificationSources(subdirs, root, rootFiles, isImage, etpp, vtpp),
                                 Verification11, load, engine)
  {
    SourceCounts(subdirs, isImage, etpp, vtpp);
    etemplates := seq(n * etpp, _ => Template(0, Enrollment11, []));
    vtemplates := seq(n * vtpp + |distractors|, _ => Template(0, Verification11, []));
    var etpos, vtpos, person;
    etemplates, vtemplates, etpos, vtpos, eterrors, vterrors, person :=
      StoreIdentities(etemplates, vtemplates, subdirs, isImage, etpp, vtpp, load, engine);
    assert subdirs[..|subdirs|] == subdirs;
    ghost var identities := IdentitySources(subdirs, isImage, etpp, vtpp);
    var dBlock := DistractorSources(root, distractors, person);
    var errors;
    vtemplates, errors := StoreTemplates(vtemplates, vtpos, dBlock, Verification11, load, engine);
    TemplatesAppend(identities, dBlock, Verification11, load, engine);
    FailuresAppend(identities, dBlock, Verification11, load, engine);
    vterrors := vterrors + errors;
    assert etemplates == etemplates[..etpos];
    assert vtemplates == vtemplates[..vtpos + |dBlock|];
  }

  /** What one more subdirectory adds to the count and to the sources. */
  lemma SourcesStep(subdirs: seq<Subdir>, isImage: string -> bool, etpp: nat, vtpp: nat, i: nat)
    requires i < |subdirs|
    ensures var c := CountQualifying(subdirs[..i], isImage, etpp, vtpp);
      if Qualifies(subdirs[i], isImage, etpp, vtpp) then
        && CountQualifying(subdirs[..i + 1], isImage, etpp, vtpp) == c + 1
        && EnrollmentSources(subdirs[..i + 1], isImage, etpp, vtpp)
           == EnrollmentSources(subdirs[..i], isImage, etpp, vtpp) + PersonSources(subdirs[i], isImage, c, 0, etpp)
        && IdentitySources(subdirs[..i + 1], isImage, etpp, vtpp)
           == IdentitySources(subdirs[..i], isImage, etpp, vtpp) + PersonSources(subdirs[i], isImage, c, etpp, vtpp)
      else
        && CountQualifying(subdirs[..i + 1], isImage, etpp, vtpp) == c
        && EnrollmentSources(subdirs[..i + 1], isImage, etpp, vtpp) == EnrollmentSources(subdirs[..i], isImage, etpp, vtpp)
        && IdentitySources(subdirs[..i + 1], isImage, etpp, vtpp) == IdentitySources(subdirs[..i], isImage, etpp, vtpp)
  {
    assert subdirs[..i + 1][..i] == subdirs[..i];
  }

  /** The sources of a prefix of the subdirectories are a prefix of the
      sources of all of them. */
  lemma {:induction false} SourcesPrefix(subdirs: seq<Subdir>, isImage: string -> bool, etpp: nat, vtpp: nat, i: nat)
    requires i <= |subdirs|
    ensures EnrollmentSources(subdirs[..i], isImage, etpp, vtpp) <= EnrollmentSources(subdirs, isImage, etpp, vtpp)
    ensures IdentitySources(subdirs[..i], isImage, etpp, vtpp) <= IdentitySources(subdirs, isImage, etpp, vtpp)
    decreases |subdirs|
  {
    if i < |subdirs| {
      var init := subdirs[..|subdirs| - 1];
      assert init[..i] == subdirs[..i];
      SourcesPrefix(init, isImage, etpp, vtpp, i);
    } else {
      assert subdirs[..i] == subdirs;
    }
  }

  /** Each qualifying subdirectory contributes `etpp` enrollment and `vtpp`
      verification images: `validsubdirs * etpp` and `validsubdirs * vtpp`
      in all. */
  lemma {:induction false} SourceCounts(subdirs: seq<Subdir>, isImage: string -> bool, etpp: nat, vtpp: nat)
    ensures |EnrollmentSources(subdirs, isImage, etpp, vtpp)| == CountQualifying(subdirs, isImage, etpp, vtpp) * etpp
    ensures |IdentitySources(subdirs, isImage, etpp, vtpp)| == CountQualifying(subdirs, isImage, etpp, vtpp) * vtpp
    decreases |subdirs|
  {
    if subdirs != [] {
      var init := subdirs[..|subdirs| - 1];
      SourceCounts(init, isImage, etpp, vtpp);
      var c := CountQualifying(init, isImage, etpp, vtpp);
      MulStep(c, etpp);
      MulStep(c, vtpp);
    }
  }

  /** The labels carried by a list of sources. */
  function Labels(srcs: seq<Source>): (r: seq<nat>)
    ensures |r| == |srcs|
  {
    seq(|srcs|, k requires 0 <= k < |srcs| => srcs[k].identity)
  }

  /** `n` identities with `k` entries each: `k` zeros, then `k` ones, ... */
  function Blocks(n: nat, k: nat): (r: seq<nat>)
    ensures |r| == n * k
  {
    if n == 0 then []
    else
      assert (n - 1) * k + k == n * k;
      Blocks(n - 1, k) + seq(k, _ => n - 1)
  }

  /** `count` consecutive labels starting at `first`. */
  function Range(first: nat, count: nat): (r: seq<nat>)
    ensures |r| == count
    ensures forall i :: 0 <= i < count ==> r[i] == first + i
  {
    seq(count, i requires 0 <= i < count => first + i)
  }

  lemma SourceLabelsAppend(a: seq<Source>, b: seq<Source>)
    ensures Labels(a + b) == Labels(a) + Labels(b)
  {
  }

  /** Every image taken from one subdirectory carries that identity's label. */
  lemma PersonLabels(s: Subdir, isImage: string -> bool, person: nat, from: nat, count: nat)
    requires from + count <= |Images(s.files, isImage)|
    ensures Labels(PersonSources(s, isImage, person, from, count)) == seq(count, _ => person)
  {
  }

  /** Adding one identity appends its block to the labels. */
  lemma BlocksStep(n: nat, k: nat)
    ensures Blocks(n + 1, k) == Blocks(n, k) + seq(k, _ => n)
  {
  }

  /** Enrollment labels are `etpp` copies of each identity number, in
      order: label `l` belongs to the `l`-th qualifying subdirectory. */
  lemma {:induction false} EnrollmentLabels(subdirs: seq<Subdir>, isImage: string -> bool, etpp: nat, vtpp: nat)
    ensures Labels(EnrollmentSources(subdirs, isImage, etpp, vtpp))
         == Blocks(CountQualifying(subdirs, isImage, etpp, vtpp), etpp)
    decreases |subdirs|
  {
    if subdirs != [] {
      var init := subdirs[..|subdirs| - 1];
      EnrollmentLabels(init, isImage, etpp, vtpp);
      var last := subdirs[|subdirs| - 1];
      if Qualifies(last, isImage, etpp, vtpp) {
        var c := CountQualifying(init, isImage, etpp, vtpp);
        var before := EnrollmentSources(init, isImage, etpp, vtpp);
        SourceLabelsAppend(before, PersonSources(last, isImage, c, 0, etpp));
        PersonLabels(last, isImage, c, 0, etpp);
        BlocksStep(c, etpp);
      }
    }
  }

  /** Verification labels: `vtpp` copies of each identity number, then one
      fresh label per distractor, continuing after the last identity. */
  lemma {:induction false} VerificationLabels(subdirs: seq<Subdir>, root: string, rootFiles: seq<string>,
                                              isImage: string -> bool, etpp: nat, vtpp: nat)
    ensures var n := CountQualifying(subdirs, isImage, etpp, vtpp);
      Labels(VerificationSources(subdirs, root, rootFiles, isImage, etpp, vtpp))
      == Blocks(n, vtpp) + Range(n, |Images(rootFiles, isImage)|)
  {
    IdentityLabels(subdirs, isImage, etpp, vtpp);
    var ids := IdentitySources(subdirs, isImage, etpp, vtpp);
    var ds := DistractorSources(root, Images(rootFiles, isImage), CountQualifying(subdirs, isImage, etpp, vtpp));
    SourceLabelsAppend(ids, ds);
  }

  lemma {:induction false} IdentityLabels(subdirs: seq<Subdir>, isImage: string -> bool, etpp: nat, vtpp: nat)
    ensures Labels(IdentitySources(subdirs, isImage, etpp, vtpp))
         == Blocks(CountQualifying(subdirs, isImage, etpp, vtpp), vtpp)
    decreases |subdirs|
  {
    if subdirs != [] {
      var init := subdirs[..|subdirs| - 1];
      IdentityLabels(init, isImage, etpp, vtpp);
      var last := subdirs[|subdirs| - 1];
      if Qualifies(last, isImage, etpp, vtpp) {
        var c := CountQualifying(init, isImage, etpp, vtpp);
        var before := IdentitySources(init, isImage, etpp, vtpp);
        SourceLabelsAppend(before, PersonSources(last, isImage, c, etpp, vtpp));
        PersonLabels(last, isImage, c, etpp, vtpp);
        BlocksStep(c, vtpp);
      }
    }
  }

  /** Entry `j` of identity `l`'s block sits at index `l * k + j`. */
  lemma {:induction false} BlocksAt(n: nat, k: nat, l: nat, j: nat)
    requires l < n && j < k
    ensures l * k + j < n * k
    ensures Blocks(n, k)[l * k + j] == l
  {
    if l < n - 1 {
      BlocksAt(n - 1, k, l, j);
    } else {
      assert l * k + j < l * k + k == n * k;
    }
  }

  /** Within one identity, enrollment and verification never share an
      image: the enrollment images are the first `etpp` files, the
      verification images the `vtpp` after them. */
  lemma PersonImagesDisjoint(s: Subdir, isImage: string -> bool, person: nat, etpp: nat, vtpp: nat)
    requires etpp + vtpp <= |Images(s.files, isImage)|
    requires var imgs := Images(s.files, isImage);
      forall a, b :: 0 <= a < b < |imgs| ==> imgs[a] != imgs[b]
    ensures forall p, q ::
      0 <= p < etpp && 0 <= q < vtpp ==>
        PersonSources(s, isImage, person, 0, etpp)[p].path != PersonSources(s, isImage, person, etpp, vtpp)[q].path
  {
    var imgs := Images(s.files, isImage);
    forall p, q | 0 <= p < etpp && 0 <= q < vtpp
      ensures PersonSources(s, isImage, person, 0, etpp)[p].path != PersonSources(s, isImage, person, etpp, vtpp)[q].path
    {
      assert imgs[p] != imgs[etpp + q];
      var pre := s.path + "/";
      assert (pre + imgs[p])[|pre|..] == imgs[p];
      assert (pre + imgs[etpp + q])[|pre|..] == imgs[etpp + q];
    }
  }
}
