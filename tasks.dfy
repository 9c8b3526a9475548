/**
 * The training-data derivations of data_adapter/data_object.py: what each
 * `generate_*_data` method makes of one sentence (or one document), and the methods
 * themselves, each an instance of the shared derivation in module Derivation.
 */
module Tasks {
  import opened Wrappers
  import opened Strings
  import opened Normalise
  import opened Records
  import opened Splits
  import opened Derivation
  import R = Reconciliation

  /** A category-sentiment label: `(category, polarity)`. */
  type CategoryPair = (string, string)

  // ---------------------------------------------------------------------------
  // Label pieces
  // ---------------------------------------------------------------------------

  /** The polarities of a list of terms. */
  function TermPolarities(ts: seq<AspectTerm>): (v: set<Option<string>>)
    ensures forall i :: 0 <= i < |ts| ==> ts[i].polarity in v
    ensures forall p :: p in v ==> exists i :: 0 <= i < |ts| && ts[i].polarity == p
  {
    set i | 0 <= i < |ts| :: ts[i].polarity
  }

  /** The categories of a list of terms (a term's category may be None). */
  function TermCategories(ts: seq<AspectTerm>): (v: set<Option<string>>)
    ensures forall i :: 0 <= i < |ts| ==> ts[i].category in v
    ensures forall c :: c in v ==> exists i :: 0 <= i < |ts| && ts[i].category == c
  {
    set i | 0 <= i < |ts| :: ts[i].category
  }

  /** The `(category, polarity)` pairs of a list of category annotations, in order. */
  function CategoryPairs(cs: seq<AspectCategory>): (r: seq<CategoryPair>)
    ensures |r| == |cs|
    ensures forall i :: 0 <= i < |cs| ==> r[i].0 == cs[i].category && r[i].1 == cs[i].polarity
  {
    seq(|cs|, i requires 0 <= i < |cs| => (cs[i].category, cs[i].polarity))
  }

  /** The category names of a list of category annotations, in order. */
  function CategoryNames(cs: seq<AspectCategory>): (r: seq<string>)
    ensures |r| == |cs|
    ensures forall i :: 0 <= i < |cs| ==> r[i] == cs[i].category
  {
    seq(|cs|, i requires 0 <= i < |cs| => cs[i].category)
  }

  /** What category annotations add to `distinct_categories`. */
  function CategoryVocabulary(cs: seq<AspectCategory>): (v: set<Option<string>>)
    ensures None !in v
    ensures forall i :: 0 <= i < |cs| ==> Some(cs[i].category) in v
    ensures forall c :: c in v ==> exists i :: 0 <= i < |cs| && Some(cs[i].category) == c
  {
    set i | 0 <= i < |cs| :: Some(cs[i].category)
  }

  /** What category annotations add to `distinct_polarities`. */
  function CategoryPolarities(cs: seq<AspectCategory>): (v: set<Option<string>>)
    ensures None !in v
    ensures forall i :: 0 <= i < |cs| ==> Some(cs[i].polarity) in v
    ensures forall c :: c in v ==> exists i :: 0 <= i < |cs| && Some(cs[i].polarity) == c
  {
    set i | 0 <= i < |cs| :: Some(cs[i].polarity)
  }

  /** `category.split('#')[0]`: the entity part of an `ENTITY#ATTRIBUTE` category, the
      text before the first `#`, or the whole category when it has none. */
  function Entity(c: string): (e: string)
    ensures '#' !in e
    ensures '#' in c ==> |e| < |c| && c[..|e|] == e && c[|e|] == '#'
    ensures '#' !in c ==> e == c
  {
    SplitFirstField(c, '#');
    SplitOn(c, '#')[0]
  }

  /** The entity ends at the first `#`. */
  lemma {:induction false} EntityBeforeFirstHash(c: string, k: nat)
    requires k < |c| && c[k] == '#' && '#' !in c[..k]
    ensures Entity(c) == c[..k]
  {
    assert c[k] in c;
  }

  lemma {:induction false} EntityExamples()
    ensures Entity("FOOD#QUALITY") == "FOOD"
    ensures Entity("AMBIENCE") == "AMBIENCE"
  {
    var a := "FOOD#QUALITY";
    assert a[..4] == "FOOD";
    EntityBeforeFirstHash(a, 4);
    assert '#' !in "AMBIENCE";
  }

  /** The entities of a list of terms; a term without a category raises AttributeError
      (`None.split`). */
  function TermEntities(ts: seq<AspectTerm>): (r: Result<set<Option<string>>>)
    ensures r.Failure? <==> exists i :: 0 <= i < |ts| && ts[i].category.None?
    ensures r.Failure? ==> r.error == AttributeError
    ensures r.Success? ==> forall i :: 0 <= i < |ts| ==> Some(Entity(ts[i].category.value)) in r.value
    ensures r.Success? ==> forall e :: e in r.value ==> exists i :: 0 <= i < |ts| && e == Some(Entity(ts[i].category.value))
  {
    if exists i :: 0 <= i < |ts| && ts[i].category.None? then Failure(AttributeError)
    else Success(set i | 0 <= i < |ts| :: Some(Entity(ts[i].category.value)))
  }

  // ---------------------------------------------------------------------------
  // Per-sentence and per-document steps
  // ---------------------------------------------------------------------------

  /** `generate_atsa_data` (lines 195-203): the newline-free text labelled with the
      sentence's terms; every term's polarity enters the vocabulary. */
  function AtsaStep(s: AbsaSentence): (r: Result<Yield<seq<AspectTerm>>>)
    ensures r.Failure? <==> s.aspectTerms.None?
    ensures r.Failure? ==> r.error == TypeError
    ensures r.Success? ==>
              && r.value.sample == Some(Sample(DeleteNewlines(s.text), s.aspectTerms.value))
              && NoNewlines(r.value.sample.value.content)
              && r.value.categories == {}
              && forall i :: 0 <= i < |s.aspectTerms.value| ==> s.aspectTerms.value[i].polarity in r.value.polarities
  {
    match s.aspectTerms
    case None => Failure(TypeError)
    case Some(ts) => Success(Yield(Some(Sample(DeleteNewlines(s.text), ts)), {}, TermPolarities(ts)))
  }

  /** Category annotations as `(category, polarity)` pairs (lines 465-475, 539-549,
      930-942, 984-996, 1038-1050); `normalise` is the task's newline rule and
      `dropEmpty` whether a sentence without annotations is skipped. */
  function CategoryPairsStep(s: AbsaSentence, normalise: string -> string, dropEmpty: bool)
    : (r: Result<Yield<seq<CategoryPair>>>)
    ensures r.Failure? <==> s.aspectCategories.None?
    ensures r.Failure? ==> r.error == TypeError
    ensures r.Success? ==> (r.value.sample.None? <==> dropEmpty && s.aspectCategories.value == [])
    ensures r.Success? && r.value.sample.Some? ==>
              && r.value.sample.value.content == normalise(s.text)
              && |r.value.sample.value.target| == |s.aspectCategories.value|
              && (forall i :: 0 <= i < |s.aspectCategories.value| ==>
                    r.value.sample.value.target[i] == (s.aspectCategories.value[i].category, s.aspectCategories.value[i].polarity))
    ensures r.Success? ==>
              r.value.categories == CategoryVocabulary(s.aspectCategories.value)
              && r.value.polarities == CategoryPolarities(s.aspectCategories.value)
  {
    match s.aspectCategories
    case None => Failure(TypeError)
    case Some(cs) =>
      var sample := if dropEmpty && cs == [] then None else Some(Sample(normalise(s.text), CategoryPairs(cs)));
      Success(Yield(sample, CategoryVocabulary(cs), CategoryPolarities(cs)))
  }

  /** The SemEval-2014 restaurant and MAMS rule: newlines become spaces, every sentence
      is kept. */
  function KeptPairsStep(s: AbsaSentence): Result<Yield<seq<CategoryPair>>> {
    CategoryPairsStep(s, NewlinesToSpaces, false)
  }

  /** The SemEval-2016 Chinese and laptop rule: newline runs collapse, unlabelled
      sentences are dropped. */
  function DroppedPairsStep(s: AbsaSentence): Result<Yield<seq<CategoryPair>>> {
    CategoryPairsStep(s, CollapseNewlines, true)
  }

  /** SemEval-2015 restaurants (lines 632-666): the label reconciled from the terms'
      categories; a sentence without terms yields no sample. */
  function ReconciledStep(s: AbsaSentence): (r: Result<Yield<seq<R.LabelPair>>>)
    ensures r.Failure? <==> s.aspectTerms.None?
    ensures r.Failure? ==> r.error == TypeError
    ensures r.Success? ==> (r.value.sample.None? <==> s.aspectTerms.value == [])
    ensures r.Success? && r.value.sample.Some? ==>
              && NoNewlines(r.value.sample.value.content)
              && r.value.sample.value.target == R.ReconciledLabel(s.aspectTerms.value)
    ensures r.Success? ==> r.value.categories == TermCategories(s.aspectTerms.value)
    ensures r.Success? ==> r.value.polarities == R.AddedPolarities(s.aspectTerms.value)
  {
    match s.aspectTerms
    case None => Failure(TypeError)
    case Some(ts) =>
      var pairs := R.ReconciledLabel(ts);
      R.ReconciledLabelEmpty(ts);
      R.CategoriesMembers(ts);
      assert R.CategorySet(R.Categories(ts)) == TermCategories(ts);
      Success(Yield(if pairs == [] then None else Some(Sample(CollapseNewlines(s.text), pairs)),
                    R.CategorySet(R.Categories(ts)), R.AddedPolarities(ts)))
  }

  /** SemEval-2016 subtask 1 category detection (lines 697-704): the list of category
      names, every sentence kept. */
  function CategoryListStep(s: AbsaSentence): (r: Result<Yield<seq<string>>>)
    ensures r.Failure? <==> s.aspectCategories.None?
    ensures r.Failure? ==> r.error == TypeError
    ensures r.Success? ==>
              && r.value.sample == Some(Sample(NewlinesToSpaces(s.text), CategoryNames(s.aspectCategories.value)))
              && r.value.categories == CategoryVocabulary(s.aspectCategories.value)
              && r.value.polarities == {}
  {
    match s.aspectCategories
    case None => Failure(TypeError)
    case Some(cs) => Success(Yield(Some(Sample(NewlinesToSpaces(s.text), CategoryNames(cs))), CategoryVocabulary(cs), {}))
  }

  /** SemEval-2016 subtask 2 (lines 787-796): the same pairs for a whole document. */
  function DocumentPairsStep(d: AbsaDocument): (r: Result<Yield<seq<CategoryPair>>>)
    ensures r.Failure? <==> d.aspectCategories.None?
    ensures r.Failure? ==> r.error == TypeError
    ensures r.Success? ==>
              && r.value.sample.Some?
              && r.value.sample.value.content == NewlinesToSpaces(d.text)
              && r.value.sample.value.target == CategoryPairs(d.aspectCategories.value)
              && r.value.categories == CategoryVocabulary(d.aspectCategories.value)
              && r.value.polarities == CategoryPolarities(d.aspectCategories.value)
  {
    match d.aspectCategories
    case None => Failure(TypeError)
    case Some(cs) => Success(Yield(Some(Sample(NewlinesToSpaces(d.text), CategoryPairs(cs))), CategoryVocabulary(cs), CategoryPolarities(cs)))
  }

  /** SemEval-2016 subtask 2 category detection (lines 832-838). */
  function DocumentCategoryListStep(d: AbsaDocument): (r: Result<Yield<seq<string>>>)
    ensures r.Failure? <==> d.aspectCategories.None?
    ensures r.Failure? ==> r.error == TypeError
    ensures r.Success? ==>
              && r.value.sample == Some(Sample(NewlinesToSpaces(d.text), CategoryNames(d.aspectCategories.value)))
              && r.value.categories == CategoryVocabulary(d.aspectCategories.value)
              && r.value.polarities == {}
  {
    match d.aspectCategories
    case None => Failure(TypeError)
    case Some(cs) => Success(Yield(Some(Sample(NewlinesToSpaces(d.text), CategoryNames(cs))), CategoryVocabulary(cs), {}))
  }

  /** SemEval-2016 restaurant category detection from terms (lines 1108-1115): the set
      of the terms' categories. */
  function TermCategoriesStep(s: AbsaSentence): (r: Result<Yield<set<Option<string>>>>)
    ensures r.Failure? <==> s.aspectTerms.None?
    ensures r.Failure? ==> r.error == TypeError
    ensures r.Success? ==>
              && r.value.sample == Some(Sample(NewlinesToSpaces(s.text), r.value.categories))
              && r.value.categories == TermCategories(s.aspectTerms.value)
              && r.value.polarities == {}
  {
    match s.aspectTerms
    case None => Failure(TypeError)
    case Some(ts) => Success(Yield(Some(Sample(NewlinesToSpaces(s.text), TermCategories(ts))), TermCategories(ts), {}))
  }

  /** SemEval-2016 restaurant entity detection (lines 1142-1149): the set of the terms'
      entities. */
  function EntitiesStep(s: AbsaSentence): (r: Result<Yield<set<Option<string>>>>)
    ensures r.Failure? <==> s.aspectTerms.None? || TermEntities(s.aspectTerms.value).Failure?
    ensures r.Failure? && s.aspectTerms.None? ==> r.error == TypeError
    ensures r.Failure? && s.aspectTerms.Some? ==> r.error == AttributeError
    ensures r.Success? ==>
              && r.value.sample == Some(Sample(NewlinesToSpaces(s.text), r.value.categories))
              && r.value.categories == TermEntities(s.aspectTerms.value).value
              && r.value.polarities == {}
  {
    match s.aspectTerms
    case None => Failure(TypeError)
    case Some(ts) =>
      match TermEntities(ts)
      case Failure(e) => Failure(e)
      case Success(es) => Success(Yield(Some(Sample(NewlinesToSpaces(s.text), es)), es, {}))
  }

  // ---------------------------------------------------------------------------
  // What the samples of a partition satisfy
  // ---------------------------------------------------------------------------

  /** Every sentence of a kept-pairs partition becomes exactly one sample. */
  lemma {:induction false} KeptPairsCount(docs: seq<AbsaDocument>)
    requires DeriveDocs(docs, KeptPairsStep).Success?
    ensures |DeriveDocs(docs, KeptPairsStep).value.samples| == SentenceCount(docs)
  {
    DeriveDocsCount(docs, KeptPairsStep);
  }

  /** Every sentence of a term-task partition becomes exactly one sample, free of
      newlines. */
  lemma {:induction false} AtsaSamples(docs: seq<AbsaDocument>)
    requires DeriveDocs(docs, AtsaStep).Success?
    ensures |DeriveDocs(docs, AtsaStep).value.samples| == SentenceCount(docs)
    ensures forall i :: 0 <= i < |DeriveDocs(docs, AtsaStep).value.samples| ==>
              NoNewlines(DeriveDocs(docs, AtsaStep).value.samples[i].content)
  {
    DeriveDocsCount(docs, AtsaStep);
    DeriveDocsAll(docs, AtsaStep, (x: Sample<seq<AspectTerm>>) => NoNewlines(x.content));
  }

  /** A partition with dropped empty labels holds only labelled samples. */
  lemma {:induction false} DroppedPairsSamplesLabelled(docs: seq<AbsaDocument>)
    requires DeriveDocs(docs, DroppedPairsStep).Success?
    ensures forall i :: 0 <= i < |DeriveDocs(docs, DroppedPairsStep).value.samples| ==>
              DeriveDocs(docs, DroppedPairsStep).value.samples[i].target != []
    ensures forall i :: 0 <= i < |DeriveDocs(docs, DroppedPairsStep).value.samples| ==>
              NoNewlines(DeriveDocs(docs, DroppedPairsStep).value.samples[i].content)
  {
    DeriveDocsAll(docs, DroppedPairsStep, (x: Sample<seq<CategoryPair>>) => x.target != []);
    DeriveDocsAll(docs, DroppedPairsStep, (x: Sample<seq<CategoryPair>>) => NoNewlines(x.content));
  }

  /** The same for the reconciled labels; moreover no label names a category twice. */
  lemma {:induction false} ReconciledSamplesLabelled(docs: seq<AbsaDocument>)
    requires DeriveDocs(docs, ReconciledStep).Success?
    ensures forall i :: 0 <= i < |DeriveDocs(docs, ReconciledStep).value.samples| ==>
              DeriveDocs(docs, ReconciledStep).value.samples[i].target != []
    ensures forall i :: 0 <= i < |DeriveDocs(docs, ReconciledStep).value.samples| ==>
              NoNewlines(DeriveDocs(docs, ReconciledStep).value.samples[i].content)
    ensures var xs := DeriveDocs(docs, ReconciledStep).value.samples;
            forall i :: 0 <= i < |xs| ==> DistinctCategories(xs[i].target)
  {
    DeriveDocsAll(docs, ReconciledStep, (x: Sample<seq<R.LabelPair>>) => x.target != []);
    DeriveDocsAll(docs, ReconciledStep, (x: Sample<seq<R.LabelPair>>) => NoNewlines(x.content));
    forall s | ReconciledStep(s).Success? && ReconciledStep(s).value.sample.Some?
      ensures DistinctCategories(ReconciledStep(s).value.sample.value.target)
    {
      R.ReconciledLabelDistinct(s.aspectTerms.value);
    }
    DeriveDocsAll(docs, ReconciledStep, (x: Sample<seq<R.LabelPair>>) => DistinctCategories(x.target));
  }

  predicate DistinctCategories(pairs: seq<R.LabelPair>) {
    forall j, k :: 0 <= j < k < |pairs| ==> pairs[j].0 != pairs[k].0
  }

  /** An entity label never holds a `#`. */
  lemma {:induction false} EntitySamples(docs: seq<AbsaDocument>)
    requires DeriveDocs(docs, EntitiesStep).Success?
    ensures var xs := DeriveDocs(docs, EntitiesStep).value.samples;
            forall i, e :: 0 <= i < |xs| && e in xs[i].target ==> e.Some? && '#' !in e.value
  {
    DeriveDocsAll(docs, EntitiesStep, (x: Sample<set<Option<string>>>) => forall e :: e in x.target ==> e.Some? && '#' !in e.value);
  }

  // ---------------------------------------------------------------------------
  // The reconciled derivation, which runs the reconciliation method per sentence
  // ---------------------------------------------------------------------------

  method CollectReconciledSentences(acc: Derived<seq<R.LabelPair>>, sentences: seq<AbsaSentence>)
    returns (r: Result<Derived<seq<R.LabelPair>>>)
    ensures DeriveSeq(sentences, ReconciledStep).Failure? ==> r == Failure(DeriveSeq(sentences, ReconciledStep).error)
    ensures DeriveSeq(sentences, ReconciledStep).Success? ==> r == Success(Merge(acc, DeriveSeq(sentences, ReconciledStep).value))
  {
    var out := acc;
    MergeNothing(acc);
    for j := 0 to |sentences|
      invariant DeriveSeq(sentences[..j], ReconciledStep).Success?
      invariant out == Merge(acc, DeriveSeq(sentences[..j], ReconciledStep).value)
    {
      PrefixSnoc(sentences, j);
      assert sentences[..j + 1][..j] == sentences[..j];
      var sentence := sentences[j];
      if sentence.aspectTerms.None? {
        DeriveSeqFailurePersists(sentences, ReconciledStep, j + 1);
        return Failure(TypeError);
      }
      var pairs, categories, polarities := R.ReconcileSentence(sentence.aspectTerms.value);
      var sample := if |pairs| == 0 then None else Some(Sample(CollapseNewlines(sentence.text), pairs));
      var y := Yield(sample, categories, polarities);
      assert ReconciledStep(sentence) == Success(y);
      MergeAbsorb(acc, DeriveSeq(sentences[..j], ReconciledStep).value, y);
      out := Absorb(out, y);
    }
    assert sentences[..|sentences|] == sentences;
    r := Success(out);
  }

  method CollectReconciled(docs: seq<AbsaDocument>) returns (r: Result<Derived<seq<R.LabelPair>>>)
    ensures r == DeriveDocs(docs, ReconciledStep)
  {
    var acc := Nothing();
    for i := 0 to |docs|
      invariant DeriveDocs(docs[..i], ReconciledStep) == Success(acc)
    {
      PrefixSnoc(docs, i);
      assert docs[..i + 1][..i] == docs[..i];
      var doc := docs[i];
      if doc.absaSentences.None? {
        DeriveDocsFailurePersists(docs, ReconciledStep, i + 1);
        return Failure(TypeError);
      }
      var next := CollectReconciledSentences(acc, doc.absaSentences.value);
      if next.Failure? {
        DeriveDocsFailurePersists(docs, ReconciledStep, i + 1);
        return next;
      }
      acc := next.value;
    }
    assert docs[..|docs|] == docs;
    r := Success(acc);
  }

  // ---------------------------------------------------------------------------
  // The generate methods
  // ---------------------------------------------------------------------------

  /** The default `random_state` of `generate_dev_data`. */
  const DefaultRandomState := 1234

  /** `BaseDataset.generate_atsa_data(test_size)`, lines 178-212. */
  method GenerateAtsaData(p: Partitions<AbsaDocument>, testSize: Option<real>, split: Splitter<Sample<seq<AspectTerm>>>)
    returns (r: Result<TaskResult<seq<AspectTerm>>>)
    ensures Produces(r, Prepared(p, Sentences(AtsaStep), SplitWhenNoDevAndSized(testSize), split))
  {
    r := GenerateTask(p, Sentences(AtsaStep), SplitWhenNoDevAndSized(testSize), split);
  }

  /** `generate_acd_and_sc_data(dev_size)` of the SemEval-2014 restaurant and MAMS
      datasets, lines 449-483 and 523-558. */
  method GenerateKeptAcdAndScData(p: Partitions<AbsaDocument>, devSize: Option<real>, split: Splitter<Sample<seq<CategoryPair>>>)
    returns (r: Result<TaskResult<seq<CategoryPair>>>)
    ensures Produces(r, Prepared(p, Sentences(KeptPairsStep), GenerateDev(devSize, DefaultRandomState), split))
  {
    r := GenerateTask(p, Sentences(KeptPairsStep), GenerateDev(devSize, DefaultRandomState), split);
  }

  /** `generate_acd_and_sc_data(dev_size)` of the SemEval-2016 Chinese camera and phone
      and English laptop datasets, lines 914-950, 968-1004 and 1022-1058. */
  method GenerateDroppedAcdAndScData(p: Partitions<AbsaDocument>, devSize: Option<real>, split: Splitter<Sample<seq<CategoryPair>>>)
    returns (r: Result<TaskResult<seq<CategoryPair>>>)
    ensures Produces(r, Prepared(p, Sentences(DroppedPairsStep), GenerateDev(devSize, DefaultRandomState), split))
  {
    r := GenerateTask(p, Sentences(DroppedPairsStep), GenerateDev(devSize, DefaultRandomState), split);
  }

  /** `Semeval2015Task12.generate_acd_and_sc_data(dev_size)`, lines 614-673. */
  method GenerateReconciledAcdAndScData(p: Partitions<AbsaDocument>, devSize: Option<real>, split: Splitter<Sample<seq<R.LabelPair>>>)
    returns (r: Result<TaskResult<seq<R.LabelPair>>>)
    ensures Produces(r, Prepared(p, Sentences(ReconciledStep), GenerateDev(devSize, DefaultRandomState), split))
  {
    var level: Level<seq<R.LabelPair>> := Sentences(ReconciledStep);
    var result := new DataTypeAndData<Sample<seq<R.LabelPair>>>(Partitions(None, None, None));
    var categories: set<Option<string>> := {};
    var polarities: set<Option<string>> := {};
    for n := 0 to |Kinds|
      invariant DeriveParts(p, level, n) == Success(Derivation(result.Value(), categories, polarities))
    {
      var k := Kinds[n];
      var data := Part(p, k);
      if data.None? {
        continue;
      }
      var d := CollectReconciled(data.value);
      if d.Failure? {
        DerivePartsFailurePersists(p, level, n + 1);
        return Failure(d.error);
      }
      result.Put(k, Some(d.value.samples));
      categories := categories + d.value.categories;
      polarities := polarities + d.value.polarities;
    }
    r := FinishTask(result, categories, polarities, GenerateDev(devSize, DefaultRandomState), split);
  }

  /** `Semeval2016Task5Sub1.generate_aspect_category_detection_data(test_size)`,
      lines 681-713. */
  method GenerateSentenceCategoryDetectionData(p: Partitions<AbsaDocument>, testSize: Option<real>, split: Splitter<Sample<seq<string>>>)
    returns (r: Result<TaskResult<seq<string>>>)
    ensures Produces(r, Prepared(p, Sentences(CategoryListStep), SplitWhenNoDev(testSize), split))
  {
    r := GenerateTask(p, Sentences(CategoryListStep), SplitWhenNoDev(testSize), split);
  }

  /** `Semeval2016Task5Sub2.generate_acd_and_sc_data(dev_size, random_state)`,
      lines 770-814. */
  method GenerateDocumentAcdAndScData(p: Partitions<AbsaDocument>, devSize: Option<real>, randomState: int,
                                      split: Splitter<Sample<seq<CategoryPair>>>)
    returns (r: Result<TaskResult<seq<CategoryPair>>>)
    ensures Produces(r, Prepared(p, Documents(DocumentPairsStep), GenerateDevThenLog(devSize, randomState), split))
  {
    r := GenerateTask(p, Documents(DocumentPairsStep), GenerateDevThenLog(devSize, randomState), split);
  }

  /** `Semeval2016Task5Sub2.generate_aspect_category_detection_data(test_size)`,
      lines 816-847. */
  method GenerateDocumentCategoryDetectionData(p: Partitions<AbsaDocument>, testSize: Option<real>, split: Splitter<Sample<seq<string>>>)
    returns (r: Result<TaskResult<seq<string>>>)
    ensures Produces(r, Prepared(p, Documents(DocumentCategoryListStep), SplitWhenNoDev(testSize), split))
  {
    r := GenerateTask(p, Documents(DocumentCategoryListStep), SplitWhenNoDev(testSize), split);
  }

  /** `Semeval2016Task5RestSub1.generate_aspect_category_detection_data(test_size)`,
      lines 1092-1124. */
  method GenerateTermCategoryDetectionData(p: Partitions<AbsaDocument>, testSize: Option<real>, split: Splitter<Sample<set<Option<string>>>>)
    returns (r: Result<TaskResult<set<Option<string>>>>)
    ensures Produces(r, Prepared(p, Sentences(TermCategoriesStep), SplitWhenNoDev(testSize), split))
  {
    r := GenerateTask(p, Sentences(TermCategoriesStep), SplitWhenNoDev(testSize), split);
  }

  /** `Semeval2016Task5RestSub1.generate_entity_detection_data(test_size)`,
      lines 1126-1158. */
  method GenerateEntityDetectionData(p: Partitions<AbsaDocument>, testSize: Option<real>, split: Splitter<Sample<set<Option<string>>>>)
    returns (r: Result<TaskResult<set<Option<string>>>>)
    ensures Produces(r, Prepared(p, Sentences(EntitiesStep), SplitWhenNoDev(testSize), split))
  {
    r := GenerateTask(p, Sentences(EntitiesStep), SplitWhenNoDev(testSize), split);
  }
}
