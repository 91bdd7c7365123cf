# IRPV 1:1 evaluation harness in Dafny

This project models the IRPV test harness for 1:1 (one-to-one) biometric
verification. The harness loads a vendor's recognition engine through the
`VerifInterface` API. It then scans an image directory, where each
subdirectory holds one person's images and the root level holds
distractor images. From these it builds enrollment and verification
templates, matches every enrollment template against every verification
template, and summarises the scores as:

- a ROC curve;
- the area under that curve;
- an operating point: a false-accept rate (FAR) with enough impostor pairs
  behind it, and the false-reject rate (FRR) read from the curve at that
  FAR.

The modules follow the program's structure:

| module | file | what it models |
|---|---|---|
| `Irpv` | `irpv.dfy` | the API: `Image` and `size()`, `TemplateRole`, `ReturnCode` and its stream operator, `ReturnStatus`, and `VerifInterface` as a value of three functions together with its documented contract |
| `BiometricTemplates` | `templates.dfy` | `BiometricTemplate` as a class, with its constructors and move assignment |
| `ImageReading` | `imagereading.dfy` | `readimage`: packing scanlines without their 32-bit padding |
| `Options` | `options.dfy` | the argument loop of `main` |
| `Corpus` | `corpus.dfy` | stages 1 and 3: which subdirectories qualify, which images become templates in which order, the labels, and the template-creation loops |
| `Matching` | `matching.dfy` | stage 4: the matching loop, the same-person flags, and the pair-count formulas against the flags |
| `Roc` | `roc.dfy` | `computeROC`, `findArea`, `findFRR` |
| `Harness` | `harness.dfy` | `main`: exit codes 1 to 9, the shuffle, `bestFAR` and `bestFRR`, and the whole run |
| `NullImpl` | `nullimpl.dfy` | the stub engine `NullImplIRPV11` |
| `Arithmetic`, `Wrappers` | `arithmetic.dfy`, `wrappers.dfy` | small helpers |

The program's loops are written as methods with loop invariants. Each
method is proved against a specification function: `CountQualifying`,
`TemplatesOf`, `Outcomes`, `Flags`, `Curve`, `Area` or `OperatingIndex`.
The properties that matter are then proved about those functions:

- The flag vector holds exactly `etpp*vtpp*n` ones and
  `etpp*vtpp*n*(n-1) + etpp*n*d` zeros, with or without the shuffle. So the
  harness's closed-form pair totals are the denominators the rates need.
- Every curve point's TAR and FAR lie in [0, 1], and both are
  non-increasing along the curve.
- The area lies in [0, 1].
- `bestFAR` is the power of ten at which 10 to 99 false accepts are
  expected.
- `bestFRR` never drops below `min(10/pos, 1)`.

`Harness.Run` ties the steps together:

- On a bare invocation it returns the help outcome.
- Otherwise it returns the exit status of the first failing check.
- A complete run produces a `Report` that `Describes` relates to the
  specification functions. `DescribedIsSound` proves that every such
  report is `Sound`.

Three details of the code the model keeps:

- `bestFAR` is `10^-floor(log10(neg/10))`, capped at 1: the code
  exponentiates `-log(10) * floor(...)`. It is not `10^floor(...)`.
- The similarity and flag vectors are in enrollment-major order: slot
  `i * |vtemplates| + j` holds the comparison of enrollment template `i`
  with verification template `j`.
- The minimum number of files per person is `etpp + vtpp` in both branches
  of the conditional in `main`.

## Model

| member | source | states |
|---|---|---|
| Irpv.DefaultImage | irpv.h:53-57 | the default image is 0 x 0 with depth 24 and no raster |
| Irpv.Size | irpv.h:71-73 | `size()` is `width*height` bytes for depth 8, `3*width*height` for depth 24, and 0 below depth 8, all within `int` |
| Irpv.DefaultImageIsEmpty | irpv.h:53-73 | the default image has size 0 |
| Irpv.Ordinal | irpv.h:92-103 | the five return codes take values 0 to 4, with 0 exactly for `Success` |
| Irpv.OrdinalInjective | irpv.h:92-103 | distinct return codes have distinct values |
| Irpv.Describe | irpv.h:106-125 | the text is "Success" exactly for `Success`, and no enumerator reaches the "Undefined error" default |
| Irpv.DescribeValue | irpv.h:111-124 | every value, including those outside the enum, gets a non-empty text |
| Irpv.DescriptionsDistinct | irpv.h:106-125 | distinct codes are written as distinct texts |
| Irpv.Status | irpv.h:155-161 | the constructor stores the code, and the info string defaults to "" |
| Irpv.CreateTemplateContract | irpv.h:192-216 | one `createTemplate` call honours the API: the template is marked failed exactly when the status is not `Success`, and an image without extractable features gives `TemplateCreationError` |
| Irpv.MatchTemplatesContract | irpv.h:218-241 | one `matchTemplates` call honours the API: -1 when either template is a failed one, otherwise a score in `[0, DBL_MAX]` |
| Irpv.Conforms | irpv.h:172-241 | an engine honours both call contracts for every image, role and pair of templates |
| BiometricTemplates.BiometricTemplate.Empty | IRPVTest/irpvhelper.h:22 | the default-constructed template has empty data |
| BiometricTemplates.BiometricTemplate.constructor | IRPVTest/irpvhelper.h:24-27 | the template holds the given label, role and data |
| BiometricTemplates.BiometricTemplate.Moved | IRPVTest/irpvhelper.h:29-32 | the move constructor takes over label, role and data, and leaves the source's data empty with its label and role unchanged |
| BiometricTemplates.BiometricTemplate.MoveAssign | IRPVTest/irpvhelper.h:34-42 | move assignment from another object copies label and role, takes the data and empties the source's data; self-assignment changes nothing |
| ImageReading.Row | IRPVTest/irpvhelper.h:113-116 | each copied row is exactly `width*depth/8` bytes long |
| ImageReading.Packed | IRPVTest/irpvhelper.h:113-117 | the packed raster of `n` rows is `n` times the valid bytes per line long |
| ImageReading.PackedAt | IRPVTest/irpvhelper.h:113-117 | byte `k` of row `i` lands at offset `i*validbytesperline + k`, with the padding dropped |
| ImageReading.PackScanlines | IRPVTest/irpvhelper.h:113-117 | the copy loop produces the packed raster of all rows |
| ImageReading.ToUInt16 | IRPVTest/irpvhelper.h:118 | narrowing to `uint16_t` keeps every value below 65536 |
| ImageReading.ReadImage | IRPVTest/irpvhelper.h:82-119 | an image that fails to load gives the default image; otherwise the image has the narrowed dimensions, the depth and the unpadded raster |
| ImageReading.SizeMatchesRaster | IRPVTest/irpvhelper.h:113-118 | for 8- and 24-bit images that fit their fields, `size()` equals the length of the raster |
| Options.ToUInt | IRPVTest/main.cpp:49-55 | a non-zero value is the decimal value of an all-digit string and fits in 32 bits |
| Options.Decimal | IRPVTest/main.cpp:49-55 | the decimal digits of a value are a non-empty digit string |
| Options.ToUIntDecimal | IRPVTest/main.cpp:49-55 | reading back the digits of a 32-bit value gives the value |
| Options.DigitsValueDecimal | IRPVTest/main.cpp:49-55 | digit value and decimal rendering are inverse |
| Options.ParseArgs | IRPVTest/main.cpp:13-66 | exactly one argument gives help; otherwise the tokens after the program name are scanned from the defaults |
| Options.ApplyOption | IRPVTest/main.cpp:35-66 | one `-x` token sets the field its letter selects from the rest of the token; an unknown letter or a bare `-` changes nothing |
| Options.Scan | IRPVTest/main.cpp:34-66 | the tokens are applied in order until the first one not starting with `-` |
| Options.ScanStopsAtPlainToken | IRPVTest/main.cpp:34 | scanning stops at the first token not starting with `-`; everything after it is ignored |
| Options.ScanAppend | IRPVTest/main.cpp:34-66 | the options are applied one by one, left to right |
| Options.LaterOptionOverrides | IRPVTest/main.cpp:35-66 | of two options with the same letter, the later one wins |
| Options.DefaultsWhenNoOptions | IRPVTest/main.cpp:13-16 | with no options the run uses 1 verification and 1 enrollment template per person, 512 ROC points, all switches off, RGB888 and empty paths |
| Corpus.MinFilesPerPerson | IRPVTest/main.cpp:98 | a person needs `etpp + vtpp` images, in both branches |
| Corpus.Images | IRPVTest/main.cpp:110 | the filter keeps some of the listed files |
| Corpus.CountQualifying | IRPVTest/main.cpp:99-104 | the number of valid subdirectories is at most the number of subdirectories |
| Corpus.Qualifies | IRPVTest/main.cpp:98-101 | a subdirectory qualifies when the filter accepts at least `minfilespp` of its files |
| Corpus.CountValidSubdirs | IRPVTest/main.cpp:99-104 | the counting loop computes the number of subdirectories with at least `minfilespp` images |
| Corpus.PersonSources | IRPVTest/main.cpp:169-191 | one person contributes exactly the requested number of images |
| Corpus.DistractorSources | IRPVTest/main.cpp:209-216 | each root-level image is one distractor |
| Corpus.EnrollmentSources | IRPVTest/main.cpp:162-185 | the enrollment images: the first `etpp` images of each qualifying subdirectory, in order, labelled by the count of qualifying subdirectories before it |
| Corpus.IdentitySources | IRPVTest/main.cpp:187-205 | the identities' verification images: images `etpp` to `etpp + vtpp - 1` of each qualifying subdirectory |
| Corpus.VerificationSources | IRPVTest/main.cpp:187-225 | all verification images: the identities' followed by the distractors |
| Corpus.TemplatesOf | IRPVTest/main.cpp:169-225 | one template is stored per source |
| Corpus.TemplatesAppend | IRPVTest/main.cpp:162-225 | templates of consecutive source runs concatenate |
| Corpus.Failures | IRPVTest/main.cpp:178-218 | the error count never exceeds the number of templates created |
| Corpus.FailuresAppend | IRPVTest/main.cpp:162-225 | error counts of consecutive runs add up |
| Corpus.StoreTemplates | IRPVTest/main.cpp:169-225 | the creation loop writes the templates of its sources at `etpos`/`vtpos`, leaves every slot before and after that block unchanged, keeps the vector length and counts the failed creations |
| Corpus.StoredStep | IRPVTest/main.cpp:165-206 | a qualifying subdirectory appends its enrollment and verification blocks under the next label |
| Corpus.StepRoom | IRPVTest/main.cpp:148-165 | the preallocated vectors always have room for the next person |
| Corpus.SkippedStep | IRPVTest/main.cpp:165 | a subdirectory with too few images changes nothing |
| Corpus.StoreIdentities | IRPVTest/main.cpp:162-207 | the subdirectory loop fills the vectors with every identity's templates in order and leaves the slots after them, where the distractors go, unchanged |
| Corpus.PersonStored | IRPVTest/main.cpp:165-205 | storing one qualifying subdirectory's two blocks extends the loop state by that person and leaves the later slots of both vectors untouched |
| Corpus.GenerateTemplates | IRPVTest/main.cpp:147-225 | stage 3 produces `n*etpp` enrollment and `n*vtpp + d` verification templates, exactly those of the sources, with their error counts |
| Corpus.SourcesStep | IRPVTest/main.cpp:162-206 | the sources of a subdirectory prefix extend by one person's block |
| Corpus.SourcesPrefix | IRPVTest/main.cpp:162-206 | the sources of a prefix of subdirectories are a prefix of all sources |
| Corpus.SourceCounts | IRPVTest/main.cpp:148-154 | the sources number `n*etpp` and `n*vtpp`, matching the vector sizes |
| Corpus.Labels | IRPVTest/main.cpp:177-216 | one label per template |
| Corpus.Blocks | IRPVTest/main.cpp:159-205 | `n` identities with `k` templates each give `n*k` labels |
| Corpus.Range | IRPVTest/main.cpp:216-224 | distractors are labelled `first, first+1, ...` |
| Corpus.SourceLabelsAppend | IRPVTest/main.cpp:162-225 | the labels of concatenated sources concatenate |
| Corpus.PersonLabels | IRPVTest/main.cpp:177-195 | every template of one person carries that person's label |
| Corpus.BlocksStep | IRPVTest/main.cpp:205 | each new identity appends its block with the next label |
| Corpus.EnrollmentLabels | IRPVTest/main.cpp:159-205 | enrollment labels are `etpp` copies of 0, 1, ..., n-1 in order |
| Corpus.VerificationLabels | IRPVTest/main.cpp:187-225 | verification labels are `vtpp` copies of each identity, then a fresh label per distractor |
| Corpus.IdentityLabels | IRPVTest/main.cpp:187-205 | the identities' verification labels are `vtpp` copies of each identity |
| Corpus.BlocksAt | IRPVTest/main.cpp:159-205 | entry `l*k + j` of the blocks is label `l` |
| Corpus.PersonImagesDisjoint | IRPVTest/main.cpp:169-187 | within a person, the enrollment and verification images are different files |
| Matching.RowOutcomes | IRPVTest/main.cpp:261-263 | one comparison per verification template |
| Matching.Outcomes | IRPVTest/main.cpp:249-277 | one comparison per pair of an enrollment and a verification template |
| Matching.FlagRow | IRPVTest/main.cpp:265-267 | one flag per verification template |
| Matching.SameFlag | IRPVTest/main.cpp:265-267 | the flag of a pair is 1 exactly when the two labels agree, and 0 otherwise |
| Matching.Flags | IRPVTest/main.cpp:253-277 | one flag per comparison |
| Matching.Similarities | IRPVTest/main.cpp:252-263 | one similarity per comparison |
| Matching.Errors | IRPVTest/main.cpp:268-269 | the error count is at most the number of comparisons |
| Matching.SimilaritiesAppend | IRPVTest/main.cpp:259-277 | similarities and errors of consecutive rows concatenate and add |
| Matching.RowOutcomeAt | IRPVTest/main.cpp:263 | comparison `j` of a row matches verification template `j` (first argument) against the enrollment template |
| Matching.SimilarityAt | IRPVTest/main.cpp:263 | slot `j` holds the score of comparison `j` |
| Matching.FlagAt | IRPVTest/main.cpp:265-267 | flag `j` is 1 exactly when the labels agree |
| Matching.ErrorsStep | IRPVTest/main.cpp:268-269 | a comparison that does not return `Success` adds one error |
| Matching.MatchRow | IRPVTest/main.cpp:261-276 | the inner loop writes one row of scores and flags at `matchcounter`, leaves every score and flag outside that row unchanged and the later flags 0 |
| Matching.MatchedRoom | IRPVTest/main.cpp:249-253 | the vectors have room for the next row |
| Matching.MatchedStep | IRPVTest/main.cpp:259-277 | one outer iteration extends the matched prefix by one row |
| Matching.MatchNext | IRPVTest/main.cpp:259-277 | one outer iteration keeps the loop invariant |
| Matching.MatchAll | IRPVTest/main.cpp:249-277 | the matching loop yields the enrollment-major similarities, flags and error count |
| Matching.Occurrences | IRPVTest/main.cpp:265 | a label occurs at most once per verification template |
| Matching.CountFlagAppend | IRPVTest/main.cpp:253 | flag counts of concatenated vectors add |
| Matching.FlagRowCounts | IRPVTest/main.cpp:265-267 | a row has one 1 per verification template of the same identity and 0 for the rest |
| Matching.FlagsCountGenuinePairs | IRPVTest/main.cpp:253-267 | the flag vector has one 1 per genuine pair and a 0 for every other comparison |
| Matching.MatchCount | IRPVTest/main.cpp:259-267 | the genuine pairs: for each enrollment template, the verification templates with its label |
| Matching.MatchCountAppend | IRPVTest/main.cpp:259-277 | genuine pairs of concatenated enrollment lists add |
| Matching.MatchCountPermutation | IRPVTest/main.cpp:239-244 | reordering the enrollment templates keeps the number of genuine pairs |
| Matching.LabelsOf | IRPVTest/main.cpp:265 | one label per template |
| Matching.OccurrencesAreMultiplicity | IRPVTest/main.cpp:265 | occurrences of a label are its multiplicity among the labels |
| Matching.UniformMatchCount | IRPVTest/main.cpp:250 | when every enrollment label occurs `c` times on the verification side, the genuine pairs number `c` times the enrollment templates |
| Matching.BlocksMultiplicity | IRPVTest/main.cpp:159-205 | each identity below `n` appears `k` times in its blocks |
| Matching.RangeMultiplicity | IRPVTest/main.cpp:216-224 | no distractor carries an identity's label |
| Matching.PairsPartitionComparisons | IRPVTest/main.cpp:249-251 | `totalpositivepairs + totalnegativepairs == comparisions` |
| Matching.PositivePairs | IRPVTest/main.cpp:250 | `totalpositivepairs = etpp*vtpp*validsubdirs` |
| Matching.NegativePairs | IRPVTest/main.cpp:251 | `totalnegativepairs = etpp*vtpp*n*(n-1) + etpp*n*distractors` |
| Matching.GenuinePairsClosedForm | IRPVTest/main.cpp:250-267 | with the stage-3 labels, the flags hold exactly `totalpositivepairs` ones and `totalnegativepairs` zeros |
| Matching.EveryIdentitySeen | IRPVTest/main.cpp:187-205 | every enrollment label has `vtpp` verification templates |
| Matching.LabelAt | IRPVTest/main.cpp:265 | each template's label is among the labels |
| Matching.LabelsOfPermutation | IRPVTest/main.cpp:239-244 | shuffling templates permutes their labels |
| Matching.LabelsAppend | IRPVTest/main.cpp:162-225 | labels of concatenated template lists concatenate |
| Matching.LabelsOfTemplates | IRPVTest/main.cpp:177-216 | a stored template carries the label of its source |
| Matching.ShuffleKeepsFlagCounts | IRPVTest/main.cpp:239-267 | both flag counts are the same whatever the enrollment order |
| Roc.MinOf | IRPVTest/irpvhelper.h:136 | `minsim` is one of the similarities and no similarity is below it |
| Roc.MaxOf | IRPVTest/irpvhelper.h:135 | `maxsim` is one of the similarities and no similarity is above it |
| Roc.ComputeROC | IRPVTest/irpvhelper.h:131-156 | `computeROC` returns `points` entries; entry `i` has threshold `minsim + i*simstep`, TAR `tp/totalpositive` and FAR `1 - tn/totalnegative` |
| Roc.Threshold | IRPVTest/irpvhelper.h:135-141 | threshold `i` is `minsim + i*(maxsim - minsim)/points` |
| Roc.TruePositives | IRPVTest/irpvhelper.h:144-147 | the pairs flagged 1 whose score is not below the threshold |
| Roc.TrueNegatives | IRPVTest/irpvhelper.h:144-149 | the pairs flagged 0 whose score is below the threshold |
| Roc.PointAt | IRPVTest/irpvhelper.h:141-153 | point `i`: TAR `tp/totalpositive`, FAR `1 - tn/totalnegative`, and the threshold |
| Roc.Curve | IRPVTest/irpvhelper.h:131-156 | the curve has exactly `points` points, point `i` taken at threshold `i` |
| Roc.LadderOrdered | IRPVTest/irpvhelper.h:137-141 | the threshold ladder starts at `minsim`, rises with the index and stays below `maxsim`, strictly when the similarities differ |
| Roc.ThresholdsOrdered | IRPVTest/irpvhelper.h:135-141 | thresholds rise with the index and lie in `[minsim, maxsim)`, or all equal `minsim` when all scores are equal |
| Roc.TruePositivesAntitone | IRPVTest/irpvhelper.h:145-147 | a higher threshold never gives more true positives |
| Roc.TrueNegativesMonotone | IRPVTest/irpvhelper.h:145-149 | a higher threshold never gives fewer true negatives |
| Roc.RatesAntitone | IRPVTest/irpvhelper.h:151-152 | a higher threshold never raises TAR or FAR |
| Roc.CurveMonotone | IRPVTest/irpvhelper.h:140-153 | along the curve TAR and FAR never increase |
| Roc.NothingBelowMinimum | IRPVTest/irpvhelper.h:145-149 | at a threshold no score is below, there are no true negatives and every genuine pair is a true positive |
| Roc.FirstPoint | IRPVTest/irpvhelper.h:141-153 | the first point has threshold `minsim`, FAR 1 and TAR equal to the genuine-flag count over `totalpositive` |
| Roc.CountsBoundedByFlags | IRPVTest/irpvhelper.h:143-150 | true positives and true negatives are bounded by the 1 and 0 flag counts |
| Roc.PointInUnit | IRPVTest/irpvhelper.h:151-152 | with the flag counts as totals, both rates of a point lie in [0, 1] |
| Roc.CurveWellFormed | IRPVTest/irpvhelper.h:131-156 | with the flag counts as totals, the curve has non-increasing FAR and all rates in [0, 1] |
| Roc.ScenarioThreshold | IRPVTest/irpvhelper.h:137-141 | with scores 5, 1, 1, 5 and two points, threshold 1 is 3 |
| Roc.ScenarioCounts | IRPVTest/irpvhelper.h:144-150 | in that scenario both genuine pairs are accepted and both impostor pairs rejected |
| Roc.TwoIdentityScenario | IRPVTest/irpvhelper.h:131-156 | two identities with one template each give point 1 = (TAR 1, FAR 0, threshold 3) |
| Roc.FindArea | IRPVTest/irpvhelper.h:160-167 | `findArea` accumulates the trapezoid sum, and a curve of fewer than two points has area 0 |
| Roc.Trapezoid | IRPVTest/irpvhelper.h:164 | the trapezoid between two neighbouring points: FAR step times mean TAR |
| Roc.Area | IRPVTest/irpvhelper.h:160-167 | the sum of all trapezoids, 0 for fewer than two points |
| Roc.TrapezoidBounds | IRPVTest/irpvhelper.h:164 | each trapezoid is non-negative and at most its FAR step |
| Roc.AreaUpToBounds | IRPVTest/irpvhelper.h:163-165 | a partial sum lies in `[0, FAR[0] - FAR[k-1]]` |
| Roc.AreaBounds | IRPVTest/irpvhelper.h:160-167 | for FAR non-increasing and TAR in [0, 1], the area lies in [0, 1] and below the FAR span |
| Roc.CurveAreaInUnit | IRPVTest/irpvhelper.h:131-167 | the area of a curve whose totals are the flag counts lies in [0, 1] |
| Roc.OperatingIndexFrom | IRPVTest/irpvhelper.h:173-177 | the scan from `i` stops at an index no greater than `i` |
| Roc.FindFRR | IRPVTest/irpvhelper.h:171-178 | `findFRR` returns `1 - TAR` at the operating index, and `1 - TAR[0]` for a one-point curve |
| Roc.OperatingIndex | IRPVTest/irpvhelper.h:171-178 | the index `findFRR` reads is a valid index of the curve |
| Roc.OperatingIndexFromIsLastAbove | IRPVTest/irpvhelper.h:173-177 | the scan from `i` stops at the last index in `1..i` whose FAR exceeds the target, or at 0 |
| Roc.OperatingIndexIsLastAbove | IRPVTest/irpvhelper.h:171-178 | the operating index is the last index at or after 1 whose FAR exceeds the target, or 0 when there is none |
| Roc.NoneAboveGivesFirst | IRPVTest/irpvhelper.h:177 | when no point after the first exceeds the target, the FRR is read at point 0 |
| Harness.AbortConditions | IRPVTest/main.cpp:68-142 | there are nine abort conditions, in the order `main` tests them |
| Harness.ExitCodeIsFirstFailure | IRPVTest/main.cpp:68-142 | the status is 0 exactly when no condition holds; otherwise it is `k` for the first condition `k` that holds |
| Harness.ExitCode | IRPVTest/main.cpp:68-142 | the checks of `main`, one after the other, give a status from 0 to 9 |
| Harness.PassingRunHasTemplates | IRPVTest/main.cpp:106-154 | a run past every check has enrollment and verification templates, a non-zero number of comparisons and an initialised engine |
| Harness.Pow10 | IRPVTest/main.cpp:303 | powers of ten are at least 1 |
| Harness.FloorLog10 | IRPVTest/main.cpp:303 | `floor(log10(x))` is the exponent `e` with `10^e <= x < 10^(e+1)` |
| Harness.BestFar | IRPVTest/main.cpp:303-305 | `bestFAR` lies in (0, 1] |
| Harness.FarExponent | IRPVTest/main.cpp:303-305 | the exponent is 0 below ten impostor pairs; otherwise `10*10^e <= neg < 10*10^(e+1)` |
| Harness.Pow10Monotone | IRPVTest/main.cpp:303 | powers of ten increase with the exponent |
| Harness.FloorLog10Monotone | IRPVTest/main.cpp:303 | `floor(log10)` is monotone |
| Harness.BestFarAntitone | IRPVTest/main.cpp:303-305 | more impostor pairs never raise `bestFAR` |
| Harness.BestFarIsConfident | IRPVTest/main.cpp:301-305 | with fewer than 10 impostor pairs `bestFAR` is 1; otherwise between 10 and 99 false accepts are expected at it |
| Harness.ConfidenceFloor | IRPVTest/main.cpp:309-314 | the floor `min(10/pos, 1)` is a rate above 0 |
| Harness.ConfidentFrr | IRPVTest/main.cpp:309-314 | `bestFRR` is the FRR read from the curve or the floor `min(10/pos, 1)`, and never below a read FRR that is a rate |
| Harness.ConfidentFrrBounds | IRPVTest/main.cpp:309-314 | `bestFRR` lies between the floor and 1, is never below the FRR read from the curve, is that FRR once it reaches `10/pos`, and otherwise is the floor |
| Harness.Shuffle | IRPVTest/main.cpp:239-244 | the shuffle keeps the same templates, reordered |
| Harness.PairCountsMatchFlags | IRPVTest/main.cpp:162-277 | for the generated templates, shuffled or not, the flag vector holds `totalpositivepairs` ones and `totalnegativepairs` zeros |
| Harness.Evaluate | IRPVTest/main.cpp:296-314 | stage 5 gives the curve, its area, `bestFAR` and the confident FRR; the curve is well formed, the area and FAR are rates, and the FRR is at least the floor |
| Harness.DescribedIsSound | IRPVTest/main.cpp:147-314 | every report stages 3 to 5 compute has pair totals equal to the flag counts and summing to the comparisons, a well-formed curve of `rocpoints` points, and area, FAR and FRR within bounds |
| Harness.Generate | IRPVTest/main.cpp:147-244 | stage 3 and the optional shuffle give the stage-3 templates (enrollment ones permuted when shuffling) and the error counts |
| Harness.Measure | IRPVTest/main.cpp:147-314 | stages 3 to 5 produce a report that describes the run and is sound |
| Harness.Loader | IRPVTest/main.cpp:173-212 | every enrollment, verification and distractor image is read in the pixel format of the configuration: 8-bit grayscale after `-g`, RGB888 otherwise |
| Harness.Run | IRPVTest/main.cpp:5-364 | bare invocation gives help; otherwise the exit status is that of the first failing check; an abort is non-zero; a complete run describes the directory and engine and is sound |
| NullImpl.BlurbIsAscii | nullImpl/nullimplirpv11.cpp:29 | the blurb is 42 ASCII characters |
| NullImpl.BlurbBytes | nullImpl/nullimplirpv11.cpp:29-32 | the template bytes are the 42 characters of the blurb |
| NullImpl.NullImplIRPV11.Initialize | nullImpl/nullimplirpv11.cpp:18-22 | `initialize` always succeeds with empty info |
| NullImpl.NullImplIRPV11.CreateTemplate | nullImpl/nullimplirpv11.cpp:24-35 | `createTemplate` succeeds and the template is the 42-byte blurb, whatever the image and role |
| NullImpl.NullImplIRPV11.MatchTemplates | nullImpl/nullimplirpv11.cpp:37-45 | `matchTemplates` succeeds with a whole-number score in `[0, RAND_MAX]` |
| NullImpl.GetImplementation | nullImpl/nullimplirpv11.cpp:47-51 | the factory returns a new engine object |
| NullImpl.NullEngine | nullImpl/nullimplirpv11.cpp:18-45 | the stub as an engine value: `initialize` succeeds, every template is the blurb, every score is a `rand()` value |
| NullImpl.RandMaxBelowDblMax | nullImpl/nullimplirpv11.cpp:43 | every `rand()` value is within the `[0, DBL_MAX]` range the API demands |
| NullImpl.NullEngineConforms | nullImpl/nullimplirpv11.cpp:18-45 | the stub honours the `VerifInterface` contract: it never fails a template, its scores lie in `[0, DBL_MAX]`, and initialisation always succeeds |

## Left out

- Qt I/O is not modelled: directory listing, `QDir::absolutePath`, `exists` and `mkpath`, `QFile`, image decoding and format conversion. Their results are the given `FileSystem` values and the `DecodedImage` handed to `ReadImage`. The pixel format `-g` selects reaches the run only as the second argument of the given loader `FileSystem.load`.
- The JSON report (main.cpp:323-361) and `serializeROC` are not modelled: the model stops at the `Report` value the JSON is built from.
- Console output is not modelled: the help text, progress messages, verbose printing and the stream operators for `QImage::Format` and `QString`. `ReturnCode`'s operator is modelled as the text it writes.
- Timing is not modelled (`QElapsedTimer`, `QDateTime`, `showTimeConsumption`, the average generation and match times), because clocks are outside the model.
- OpenMP is not modelled: the parallel loop of `computeROC` fills each entry independently, and the model runs it sequentially.
- Floating point is not modelled: rates, thresholds and the area are exact reals, not IEEE doubles.
- Harness.BestFar: computed as an exact power of ten through integer `floor(log10)`, not through the `exp`/`log` rounding of the code, so a count right at a power of ten may differ by one decade in the real program.
- `size_t` and `uint` overflow of the pair-count formulas and of the vector sizes is not modelled, because the naturals are unbounded. The `uint16_t`/`uint8_t` narrowing in `readimage` and the C `int` product in `Image::size` are modelled.
- Options.ToUInt: models `QString::toUInt` on plain decimal digits only. Signs, spaces and other bases, which Qt treats in its own ways, all read as 0 here.
- The image filter is the parameter `isImage`. The patterns and their matching by Qt (main.cpp:97, including the `.bmp` entry written without `*`) are not modelled.
- The name-sorted and unsorted listings of a subdirectory (main.cpp:100,164) are taken to hold the same files.
- Harness.Shuffle: `std::random_shuffle` seeded from the clock is modelled as an arbitrary permutation.
- NullImpl.NullEngine: as an engine value the stub scores a pair by a function of the two templates. Every stub template is the blurb, so in a modelled run all comparisons get one and the same score, where the real stub draws a fresh `std::rand()` value per call. The class method `MatchTemplates` keeps the per-call draw.
- NullImpl.NullImplIRPV11.MatchTemplates: `std::rand()` is modelled as an arbitrary value in `[0, RAND_MAX]`, with `RAND_MAX` that of glibc.
- Harness.Run: requires `Measurable`. Runs that pass every check but ask for 0 ROC points, or have no genuine or no impostor pairs, are excluded: there the code divides by zero and reads before an empty curve.
- Template vectors are value sequences: the preallocated vectors, their element moves and the release of memory with `clear`/`shrink_to_fit` (main.cpp:292,294) are not modelled by aliasing. The report keeps both template lists so the sizes at main.cpp:291,293 can be read from them.
- `VerifInterface` is a datatype of three functions rather than an abstract class, and `getImplementation` of the harness is the engine argument of `Run`. The undefined state left by `ReturnStatus`'s default constructor, the `DLLSPEC` export macros and the virtual destructor are not modelled.
- The two loops of `main` are split into helper methods (`StoreIdentities`, `StoreTemplates`, `MatchAll`, `MatchNext`, `MatchRow`) with the same iteration order.
