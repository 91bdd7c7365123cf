/** Stage 4: every enrollment template against every verification template,
    and how many of those comparisons are genuine (same identity) pairs. */
module Matching {
  import opened Irpv
  import opened BiometricTemplates
  import opened Arithmetic
  import Corpus
  import Roc

  type Matcher = (Bytes, Bytes) -> MatchOutcome

  /** The comparisons of one enrollment template with each verification
      template, in order. `matchTemplates` takes the verification template
      first. */
  function RowOutcomes(e: Template, vs: seq<Template>, matcher: Matcher): (r: seq<MatchOutcome>)
    ensures |r| == |vs|
  {
    if vs == [] then []
    else RowOutcomes(e, vs[..|vs| - 1], matcher) + [matcher(vs[|vs| - 1].data, e.data)]
  }

  /** All comparisons, enrollment-major: comparison `(i, j)` sits at slot
      `i * |vs| + j`. */
  function Outcomes(es: seq<Template>, vs: seq<Template>, matcher: Matcher): (r: seq<MatchOutcome>)
    ensures |r| == |es| * |vs|
  {
    if es == [] then []
    else
      MulStep(|es| - 1, |vs|);
      Outcomes(es[..|es| - 1], vs, matcher) + RowOutcomes(es[|es| - 1], vs, matcher)
  }

  /** The same-person flag of one pair: 1 exactly when the labels agree. */
  function SameFlag(e: Template, v: Template): (f: Byte)
    ensures f == 1 <==> e.identity == v.identity
    ensures f == 0 <==> e.identity != v.identity
  {
    if e.identity == v.identity then 1 else 0
  }

  function FlagRow(e: Template, vs: seq<Template>): (r: seq<Byte>)
    ensures |r| == |vs|
  {
    if vs == [] then [] else FlagRow(e, vs[..|vs| - 1]) + [SameFlag(e, vs[|vs| - 1])]
  }

  /** `issameperson`, enrollment-major like `Outcomes`. */
  function Flags(es: seq<Template>, vs: seq<Template>): (r: seq<Byte>)
    ensures |r| == |es| * |vs|
  {
    if es == [] then []
    else
      MulStep(|es| - 1, |vs|);
      Flags(es[..|es| - 1], vs) + FlagRow(es[|es| - 1], vs)
  }

  function Similarities(outs: seq<MatchOutcome>): (r: seq<real>)
    ensures |r| == |outs|
  {
    if outs == [] then [] else Similarities(outs[..|outs| - 1]) + [outs[|outs| - 1].similarity]
  }

  /** How many comparisons did not return `Success`. */
  function Errors(outs: seq<MatchOutcome>): (n: nat)
    ensures n <= |outs|
  {
    if outs == [] then 0
    else Errors(outs[..|outs| - 1]) + (if outs[|outs| - 1].status.code != Success then 1 else 0)
  }

  lemma {:induction false} SimilaritiesAppend(a: seq<MatchOutcome>, b: seq<MatchOutcome>)
    ensures Similarities(a + b) == Similarities(a) + Similarities(b)
    ensures Errors(a + b) == Errors(a) + Errors(b)
    decreases |b|
  {
    if b == [] {
      assert a + b == a;
    } else {
      var b' := b[..|b| - 1];
      assert (a + b)[..|a + b| - 1] == a + b';
      SimilaritiesAppend(a, b');
    }
  }

  /** Entry `j` of a row is the comparison with verification template `j`. */
  lemma {:induction false} RowOutcomeAt(e: Template, vs: seq<Template>, matcher: Matcher, j: nat)
    requires j < |vs|
    ensures RowOutcomes(e, vs, matcher)[j] == matcher(vs[j].data, e.data)
  {
    if j < |vs| - 1 {
      RowOutcomeAt(e, vs[..|vs| - 1], matcher, j);
    }
  }

  lemma {:induction false} SimilarityAt(outs: seq<MatchOutcome>, j: nat)
    requires j < |outs|
    ensures Similarities(outs)[j] == outs[j].similarity
  {
    if j < |outs| - 1 {
      SimilarityAt(outs[..|outs| - 1], j);
    }
  }

  lemma {:induction false} FlagAt(e: Template, vs: seq<Template>, j: nat)
    requires j < |vs|
    ensures FlagRow(e, vs)[j] == SameFlag(e, vs[j])
  {
    if j < |vs| - 1 {
      FlagAt(e, vs[..|vs| - 1], j);
    }
  }

  /** One more outcome adds one to the errors when it is not `Success`. */
  lemma ErrorsStep(outs: seq<MatchOutcome>, j: nat)
    requires j < |outs|
    ensures Errors(outs[..j + 1]) == Errors(outs[..j]) + (if outs[j].status.code != Success then 1 else 0)
  {
    assert outs[..j + 1][..j] == outs[..j];
  }

  /** The inner loop of stage 4 for enrollment template `e`: its
      comparisons with each verification template go to the slots from
      `start` on, in the vectors `sims` and `same`. Slots past the row
      are left as they were. */
  method MatchRow(e: Template, vtemplates: seq<Template>, matcher: Matcher,
                  sims: seq<real>, same: seq<Byte>, start: nat)
    returns (sims': seq<real>, same': seq<Byte>, errors: nat)
    requires start + |vtemplates| <= |sims| == |same|
    requires forall k :: start <= k < |same| ==> same[k] == 0
    ensures |sims'| == |same'| == |sims|
    ensures sims'[..start + |vtemplates|] == sims[..start] + Similarities(RowOutcomes(e, vtemplates, matcher))
    ensures same'[..start + |vtemplates|] == same[..start] + FlagRow(e, vtemplates)
    ensures forall k :: start + |vtemplates| <= k < |same'| ==> same'[k] == 0
    ensures sims'[start + |vtemplates|..] == sims[start + |vtemplates|..]
    ensures same'[start + |vtemplates|..] == same[start + |vtemplates|..]
    ensures errors == Errors(RowOutcomes(e, vtemplates, matcher))
  {
    ghost var outs := RowOutcomes(e, vtemplates, matcher);
    ghost var simsAfter := sims[..start] + Similarities(outs);
    ghost var sameAfter := same[..start] + FlagRow(e, vtemplates);
    sims', same', errors := sims, same, 0;
    for j := 0 to |vtemplates|
      invariant |sims'| == |same'| == |sims|
      invariant forall k :: 0 <= k < start + j ==> sims'[k] == simsAfter[k]
      invariant forall k :: 0 <= k < start + j ==> same'[k] == sameAfter[k]
      invariant forall k :: start + j <= k < |same'| ==> same'[k] == 0
      invariant forall k :: start + j <= k < |sims'| ==> sims'[k] == sims[k]
      invariant forall k :: start + j <= k < |same'| ==> same'[k] == same[k]
      invariant errors == Errors(outs[..j])
    {
      RowOutcomeAt(e, vtemplates, matcher, j);
      SimilarityAt(outs, j);
      FlagAt(e, vtemplates, j);
      ErrorsStep(outs, j);
      var out := matcher(vtemplates[j].data, e.data);
      sims' := sims'[start + j := out.similarity];
      if e.identity == vtemplates[j].identity {
        same' := same'[start + j := 1];
      }
      if out.status.code != Success {
        errors := errors + 1;
      }
    }
    assert outs[..|outs|] == outs;
    assert sims'[..start + |vtemplates|] == simsAfter;
    assert same'[..start + |vtemplates|] == sameAfter;
    assert sims'[start + |vtemplates|..] == sims[start + |vtemplates|..];
    assert same'[start + |vtemplates|..] == same[start + |vtemplates|..];
  }

  /** The state of the matching loop after the first `i` enrollment
      templates: their rows fill the first `matchcounter` slots and every
      flag after them is still 0. */
  ghost predicate MatchedUpTo(es: seq<Template>, vs: seq<Template>, matcher: Matcher, i: nat,
                              similarity: seq<real>, issameperson: seq<Byte>, mterrors: nat, matchcounter: nat)
  {
    && i <= |es| && matchcounter == i * |vs|
    && |similarity| == |issameperson| == |es| * |vs|
    && matchcounter <= |similarity|
    && similarity[..matchcounter] == Similarities(Outcomes(es[..i], vs, matcher))
    && issameperson[..matchcounter] == Flags(es[..i], vs)
    && (forall k :: matchcounter <= k < |issameperson| ==> issameperson[k] == 0)
    && mterrors == Errors(Outcomes(es[..i], vs, matcher))
  }

  /** Another row fits in the vectors while enrollment templates remain. */
  lemma MatchedRoom(es: seq<Template>, vs: seq<Template>, matcher: Matcher, i: nat,
                    similarity: seq<real>, issameperson: seq<Byte>, mterrors: nat, matchcounter: nat)
    requires MatchedUpTo(es, vs, matcher, i, similarity, issameperson, mterrors, matchcounter)
    requires i < |es|
    ensures matchcounter + |vs| <= |similarity|
  {
    RowInside(i, |vs|, |es|, |vs|);
    MulStep(i, |vs|);
  }

  /** Writing the row of enrollment template `i` after the first `i` rows
      gives the state after `i + 1` enrollment templates. */
  lemma MatchedStep(es: seq<Template>, vs: seq<Template>, matcher: Matcher, i: nat,
                    similarity: seq<real>, issameperson: seq<Byte>, mterrors: nat, matchcounter: nat,
                    sims': seq<real>, same': seq<Byte>, errors: nat)
    requires MatchedUpTo(es, vs, matcher, i, similarity, issameperson, mterrors, matchcounter)
    requires i < |es| && matchcounter + |vs| <= |similarity|
    requires |sims'| == |same'| == |similarity|
    requires sims'[..matchcounter + |vs|]
          == similarity[..matchcounter] + Similarities(RowOutcomes(es[i], vs, matcher))
    requires same'[..matchcounter + |vs|] == issameperson[..matchcounter] + FlagRow(es[i], vs)
    requires forall k :: matchcounter + |vs| <= k < |same'| ==> same'[k] == 0
    requires errors == Errors(RowOutcomes(es[i], vs, matcher))
    ensures MatchedUpTo(es, vs, matcher, i + 1, sims', same', mterrors + errors, matchcounter + |vs|)
  {
    MulStep(i, |vs|);
    assert es[..i + 1][..i] == es[..i];
    SimilaritiesAppend(Outcomes(es[..i], vs, matcher), RowOutcomes(es[i], vs, matcher));
  }

  /** One pass of the outer matching loop: the row of enrollment template `i`. */
  method MatchNext(etemplates: seq<Template>, vtemplates: seq<Template>, matcher: Matcher, i: nat,
                   similarity: seq<real>, issameperson: seq<Byte>, mterrors: nat, matchcounter: nat)
    returns (similarity': seq<real>, issameperson': seq<Byte>, mterrors': nat, matchcounter': nat)
    requires i < |etemplates|
    requires MatchedUpTo(etemplates, vtemplates, matcher, i, similarity, issameperson, mterrors, matchcounter)
    ensures MatchedUpTo(etemplates, vtemplates, matcher, i + 1, similarity', issameperson', mterrors', matchcounter')
  {
    MatchedRoom(etemplates, vtemplates, matcher, i, similarity, issameperson, mterrors, matchcounter);
    var errors;
    similarity', issameperson', errors :=
      MatchRow(etemplates[i], vtemplates, matcher, similarity, issameperson, matchcounter);
    MatchedStep(etemplates, vtemplates, matcher, i, similarity, issameperson, mterrors, matchcounter,
                similarity', issameperson', errors);
    mterrors' := mterrors + errors;
    matchcounter' := matchcounter + |vtemplates|;
  }

  /** The matching loop of stage 4. The similarity and flag vectors start
      out as zeros; a flag is set to 1 when the two labels agree. */
  method MatchAll(etemplates: seq<Template>, vtemplates: seq<Template>, matcher: Matcher)
    returns (similarity: seq<real>, issameperson: seq<Byte>, mterrors: nat)
    ensures similarity == Similarities(Outcomes(etemplates, vtemplates, matcher))
    ensures issameperson == Flags(etemplates, vtemplates)
    ensures mterrors == Errors(Outcomes(etemplates, vtemplates, matcher))
  {
    var comparisons := |etemplates| * |vtemplates|;
    similarity := seq(comparisons, _ => 0.0);
    issameperson := seq(comparisons, _ => 0);
    mterrors := 0;
    var matchcounter: nat := 0;
    for i := 0 to |etemplates|
      invariant MatchedUpTo(etemplates, vtemplates, matcher, i, similarity, issameperson, mterrors, matchcounter)
    {
      similarity, issameperson, mterrors, matchcounter :=
        MatchNext(etemplates, vtemplates, matcher, i, similarity, issameperson, mterrors, matchcounter);
    }
    assert etemplates[..|etemplates|] == etemplates;
    assert similarity[..|similarity|] == similarity;
    assert issameperson[..|issameperson|] == issameperson;
  }

  // ---------------------------------------------------------------------
  // Genuine pairs

  /** How many verification templates carry label `x`. */
  function Occurrences(x: nat, vs: seq<Template>): (n: nat)
    ensures n <= |vs|
  {
    if vs == [] then 0
    else Occurrences(x, vs[..|vs| - 1]) + (if vs[|vs| - 1].identity == x then 1 else 0)
  }

  /** Genuine pairs: for each enrollment template, the verification
      templates with its label. */
  function MatchCount(es: seq<Template>, vs: seq<Template>): nat
  {
    if es == [] then 0
    else MatchCount(es[..|es| - 1], vs) + Occurrences(es[|es| - 1].identity, vs)
  }

  lemma {:induction false} CountFlagAppend(a: seq<Byte>, b: seq<Byte>, v: Byte)
    ensures Roc.CountFlag(a + b, v) == Roc.CountFlag(a, v) + Roc.CountFlag(b, v)
    decreases |b|
  {
    if b == [] {
      assert a + b == a;
    } else {
      var b' := b[..|b| - 1];
      assert (a + b)[..|a + b| - 1] == a + b';
      CountFlagAppend(a, b', v);
    }
  }

  lemma {:induction false} FlagRowCounts(e: Template, vs: seq<Template>)
    ensures Roc.CountFlag(FlagRow(e, vs), 1) == Occurrences(e.identity, vs)
    ensures Roc.CountFlag(FlagRow(e, vs), 0) == |vs| - Occurrences(e.identity, vs)
  {
    if vs != [] {
      var init := vs[..|vs| - 1];
      FlagRowCounts(e, init);
      CountFlagAppend(FlagRow(e, init), [SameFlag(e, vs[|vs| - 1])], 1);
      CountFlagAppend(FlagRow(e, init), [SameFlag(e, vs[|vs| - 1])], 0);
    }
  }

  /** The flag vector holds one 1 per genuine pair and a 0 for every other
      comparison. */
  lemma {:induction false} FlagsCountGenuinePairs(es: seq<Template>, vs: seq<Template>)
    ensures MatchCount(es, vs) <= |es| * |vs|
    ensures Roc.CountFlag(Flags(es, vs), 1) == MatchCount(es, vs)
    ensures Roc.CountFlag(Flags(es, vs), 0) == |es| * |vs| - MatchCount(es, vs)
  {
    if es != [] {
      var init := es[..|es| - 1];
      var e := es[|es| - 1];
      FlagsCountGenuinePairs(init, vs);
      FlagRowCounts(e, vs);
      CountFlagAppend(Flags(init, vs), FlagRow(e, vs), 1);
      CountFlagAppend(Flags(init, vs), FlagRow(e, vs), 0);
      MulStep(|init|, |vs|);
    }
  }

  lemma {:induction false} MatchCountAppend(a: seq<Template>, b: seq<Template>, vs: seq<Template>)
    ensures MatchCount(a + b, vs) == MatchCount(a, vs) + MatchCount(b, vs)
    decreases |b|
  {
    if b == [] {
      assert a + b == a;
    } else {
      var b' := b[..|b| - 1];
      assert (a + b)[..|a + b| - 1] == a + b';
      MatchCountAppend(a, b', vs);
    }
  }

  /** Reordering the enrollment templates (the optional shuffle) does not
      change the number of genuine pairs. */
  lemma {:induction false} MatchCountPermutation(es: seq<Template>, shuffled: seq<Template>, vs: seq<Template>)
    requires multiset(es) == multiset(shuffled)
    ensures MatchCount(es, vs) == MatchCount(shuffled, vs)
    decreases |es|
  {
    if es == [] {
      assert |shuffled| == |multiset(shuffled)| == 0;
    } else {
      var x := es[|es| - 1];
      var init := es[..|es| - 1];
      assert es == init + [x];
      assert x in multiset(shuffled);
      var k :| 0 <= k < |shuffled| && shuffled[k] == x;
      var rest := shuffled[..k] + shuffled[k + 1..];
      assert shuffled == shuffled[..k] + [x] + shuffled[k + 1..];
      RemoveOne(es, shuffled, k);
      MatchCountPermutation(init, rest, vs);
      MatchCountAppend(shuffled[..k] + [x], shuffled[k + 1..], vs);
      MatchCountAppend(shuffled[..k], [x], vs);
      MatchCountAppend(shuffled[..k], shuffled[k + 1..], vs);
      MatchCountAppend(init, [x], vs);
      assert [x][..0] == [];
    }
  }

  /** Taking the last element from one side and a matching element from
      the other keeps two permutations permutations of each other. */
  lemma RemoveOne<T>(es: seq<T>, shuffled: seq<T>, k: nat)
    requires es != [] && k < |shuffled| && shuffled[k] == es[|es| - 1]
    requires multiset(es) == multiset(shuffled)
    ensures multiset(shuffled[..k] + shuffled[k + 1..]) == multiset(es[..|es| - 1])
  {
    var x := es[|es| - 1];
    var init, a, b := es[..|es| - 1], shuffled[..k], shuffled[k + 1..];
    assert es == init + [x];
    assert shuffled == a + ([x] + b);
    assert multiset(shuffled) == multiset(a) + multiset{x} + multiset(b);
    assert multiset(es) == multiset(init) + multiset{x};
    assert multiset(a + b) == multiset(a) + multiset(b);
    assert multiset(a + b) == multiset(shuffled) - multiset{x};
  }

  /** The labels of a list of templates. */
  function LabelsOf(ts: seq<Template>): (r: seq<nat>)
    ensures |r| == |ts|
  {
    if ts == [] then [] else LabelsOf(ts[..|ts| - 1]) + [ts[|ts| - 1].identity]
  }

  lemma {:induction false} OccurrencesAreMultiplicity(x: nat, vs: seq<Template>)
    ensures Occurrences(x, vs) == multiset(LabelsOf(vs))[x]
  {
    if vs != [] {
      OccurrencesAreMultiplicity(x, vs[..|vs| - 1]);
    }
  }

  /** When every enrollment label occurs `c` times among the verification
      labels, the genuine pairs number `|es| * c`. */
  lemma {:induction false} UniformMatchCount(es: seq<Template>, vs: seq<Template>, c: nat)
    requires forall k :: 0 <= k < |es| ==> multiset(LabelsOf(vs))[es[k].identity] == c
    ensures MatchCount(es, vs) == |es| * c
  {
    if es != [] {
      UniformMatchCount(es[..|es| - 1], vs, c);
      OccurrencesAreMultiplicity(es[|es| - 1].identity, vs);
      MulStep(|es| - 1, c);
    }
  }

  lemma {:induction false} RepeatMultiplicity(c: nat, k: nat, x: nat)
    ensures multiset(seq(k, _ => c))[x] == if x == c then k else 0
  {
    if k > 0 {
      RepeatMultiplicity(c, k - 1, x);
      assert seq(k, _ => c) == seq(k - 1, _ => c) + [c];
    }
  }

  /** In `Blocks(n, k)` every identity below `n` occurs `k` times. */
  lemma {:induction false} BlocksMultiplicity(n: nat, k: nat, x: nat)
    ensures multiset(Corpus.Blocks(n, k))[x] == if x < n then k else 0
  {
    if n > 0 {
      var before, block := Corpus.Blocks(n - 1, k), seq(k, _ => n - 1);
      assert Corpus.Blocks(n, k) == before + block;
      assert multiset(before + block) == multiset(before) + multiset(block);
      BlocksMultiplicity(n - 1, k, x);
      RepeatMultiplicity(n - 1, k, x);
    }
  }

  /** Distractor labels are all at least `first`. */
  lemma RangeMultiplicity(first: nat, count: nat, x: nat)
    requires x < first
    ensures multiset(Corpus.Range(first, count))[x] == 0
  {
    assert x !in Corpus.Range(first, count);
  }

  /** `totalpositivepairs`: genuine comparisons when each of `n` identities
      has `etpp` enrollment and `vtpp` verification templates. */
  function PositivePairs(etpp: nat, vtpp: nat, n: nat): nat
  {
    etpp * vtpp * n
  }

  /** `totalnegativepairs`: impostor comparisons between identities plus
      every enrollment template against every distractor. */
  function NegativePairs(etpp: nat, vtpp: nat, n: nat, d: nat): nat
  {
    if n == 0 then 0 else etpp * vtpp * n * (n - 1) + etpp * n * d
  }

  /** The two pair counts the harness computes by formula add up to the
      number of comparisons. */
  lemma PairsPartitionComparisons(etpp: nat, vtpp: nat, n: nat, d: nat)
    ensures PositivePairs(etpp, vtpp, n) + NegativePairs(etpp, vtpp, n, d) == (n * etpp) * (n * vtpp + d)
  {
    if n > 0 {
      var m := n - 1;
      calc {
        (n * etpp) * (n * vtpp + d);
        (n * etpp) * (n * vtpp) + (n * etpp) * d;
        { assert (n * etpp) * (n * vtpp) == etpp * vtpp * n * n; }
        etpp * vtpp * n * n + etpp * n * d;
        { assert etpp * vtpp * n * n == etpp * vtpp * n * m + etpp * vtpp * n; }
        etpp * vtpp * n * m + etpp * vtpp * n + etpp * n * d;
      }
    }
  }

  /** The pair-count formulas agree with the flags the matching loop sets,
      whatever order the enrollment templates were shuffled into: the flag
      vector holds `totalpositivepairs` ones and `totalnegativepairs` zeros. */
  lemma GenuinePairsClosedForm(es: seq<Template>, vs: seq<Template>, etpp: nat, vtpp: nat, n: nat, d: nat)
    requires multiset(LabelsOf(es)) == multiset(Corpus.Blocks(n, etpp))
    requires LabelsOf(vs) == Corpus.Blocks(n, vtpp) + Corpus.Range(n, d)
    ensures Roc.CountFlag(Flags(es, vs), 1) == PositivePairs(etpp, vtpp, n)
    ensures Roc.CountFlag(Flags(es, vs), 0) == NegativePairs(etpp, vtpp, n, d)
  {
    EveryIdentitySeen(es, vs, etpp, vtpp, n, d);
    UniformMatchCount(es, vs, vtpp);
    FlagsCountGenuinePairs(es, vs);
    var ne, nv := |es|, |vs|;
    assert ne == |multiset(LabelsOf(es))| == n * etpp;
    assert nv == n * vtpp + d;
    PairsPartitionComparisons(etpp, vtpp, n, d);
    Regroup(n, etpp, vtpp);
  }

  lemma Regroup(n: nat, etpp: nat, vtpp: nat)
    ensures (n * etpp) * vtpp == etpp * vtpp * n
  {
  }

  /** Each enrollment label names an identity with `vtpp` verification
      templates. */
  lemma EveryIdentitySeen(es: seq<Template>, vs: seq<Template>, etpp: nat, vtpp: nat, n: nat, d: nat)
    requires multiset(LabelsOf(es)) == multiset(Corpus.Blocks(n, etpp))
    requires LabelsOf(vs) == Corpus.Blocks(n, vtpp) + Corpus.Range(n, d)
    ensures forall k :: 0 <= k < |es| ==> multiset(LabelsOf(vs))[es[k].identity] == vtpp
  {
    forall k | 0 <= k < |es|
      ensures multiset(LabelsOf(vs))[es[k].identity] == vtpp
    {
      var x := es[k].identity;
      LabelAt(es, k);
      BlocksMultiplicity(n, etpp, x);
      BlocksMultiplicity(n, vtpp, x);
      RangeMultiplicity(n, d, x);
    }
  }

  lemma {:induction false} LabelAt(ts: seq<Template>, k: nat)
    requires k < |ts|
    ensures ts[k].identity in multiset(LabelsOf(ts))
  {
    if k < |ts| - 1 {
      LabelAt(ts[..|ts| - 1], k);
    }
  }

  /** Shuffling templates reorders their labels too. */
  lemma {:induction false} LabelsOfPermutation(es: seq<Template>, shuffled: seq<Template>)
    requires multiset(es) == multiset(shuffled)
    ensures multiset(LabelsOf(es)) == multiset(LabelsOf(shuffled))
    decreases |es|
  {
    if es == [] {
      assert |shuffled| == |multiset(shuffled)| == 0;
    } else {
      var x := es[|es| - 1];
      var init := es[..|es| - 1];
      assert es == init + [x];
      assert x in multiset(shuffled);
      var k :| 0 <= k < |shuffled| && shuffled[k] == x;
      var rest := shuffled[..k] + shuffled[k + 1..];
      assert shuffled == shuffled[..k] + [x] + shuffled[k + 1..];
      RemoveOne(es, shuffled, k);
      LabelsOfPermutation(init, rest);
      LabelsAppend(shuffled[..k] + [x], shuffled[k + 1..]);
      LabelsAppend(shuffled[..k], [x]);
      LabelsAppend(shuffled[..k], shuffled[k + 1..]);
      assert LabelsOf([x]) == [x.identity];
    }
  }

  lemma {:induction false} LabelsAppend(a: seq<Template>, b: seq<Template>)
    ensures LabelsOf(a + b) == LabelsOf(a) + LabelsOf(b)
    decreases |b|
  {
    if b == [] {
      assert a + b == a;
    } else {
      var b' := b[..|b| - 1];
      assert (a + b)[..|a + b| - 1] == a + b';
      LabelsAppend(a, b');
    }
  }
  /** The templates made from a list of sources carry the sources' labels. */
  lemma {:induction false} LabelsOfTemplates(srcs: seq<Corpus.Source>, role: TemplateRole,
                                             load: string -> Image, engine: Engine)
    ensures LabelsOf(Corpus.TemplatesOf(srcs, role, load, engine)) == Corpus.Labels(srcs)
    decreases |srcs|
  {
    if srcs != [] {
      var init := srcs[..|srcs| - 1];
      LabelsOfTemplates(init, role, load, engine);
      var ts := Corpus.TemplatesOf(srcs, role, load, engine);
      assert ts[..|ts| - 1] == Corpus.TemplatesOf(init, role, load, engine);
      assert Corpus.Labels(srcs) == Corpus.Labels(init) + [srcs[|srcs| - 1].identity];
    }
  }

  /** Both flag counts are the same whatever order the enrollment
      templates were shuffled into. */
  lemma ShuffleKeepsFlagCounts(es: seq<Template>, shuffled: seq<Template>, vs: seq<Template>)
    requires multiset(es) == multiset(shuffled)
    ensures Roc.CountFlag(Flags(shuffled, vs), 1) == Roc.CountFlag(Flags(es, vs), 1)
    ensures Roc.CountFlag(Flags(shuffled, vs), 0) == Roc.CountFlag(Flags(es, vs), 0)
  {
    assert |es| == |multiset(es)| == |multiset(shuffled)| == |shuffled|;
    FlagsCountGenuinePairs(es, vs);
    FlagsCountGenuinePairs(shuffled, vs);
    MatchCountPermutation(es, shuffled, vs);
  }
}
