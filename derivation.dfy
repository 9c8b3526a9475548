/**
 * The label derivation shared by every `generate_*_data` method
 * (data_adapter/data_object.py, lines 178-212, 449-483, 614-673, 681-713, 770-847,
 * 914-1058, 1092-1158): for each present partition, in the order train, dev, test, walk
 * its documents (and, for sentence-level tasks, each document's sentences), turn each
 * item into at most one `[content, label]` sample plus vocabulary entries, store the
 * samples in `result[data_type]`, build the dev partition, and sort the vocabularies.
 * What a task does with one item is its step function (module Tasks).
 */
module Derivation {
  import opened Wrappers
  import opened Records
  import opened Vocabulary
  import opened Splits

  /** What one sentence or document contributes: its sample, unless the task drops it,
      and what it adds to `distinct_categories` and `distinct_polarities`. */
  datatype Yield<L> = Yield(sample: Option<Sample<L>>, categories: set<Option<string>>, polarities: set<Option<string>>)

  /** The samples of one partition, in order, and the vocabulary entries seen so far. */
  datatype Derived<L> = Derived(samples: seq<Sample<L>>, categories: set<Option<string>>, polarities: set<Option<string>>)

  function Nothing<L>(): Derived<L> {
    Derived([], {}, {})
  }

  /** `samples.append(...)` when there is a sample, and the vocabulary additions. */
  function Absorb<L>(d: Derived<L>, y: Yield<L>): Derived<L> {
    Derived(d.samples + (if y.sample.Some? then [y.sample.value] else []),
            d.categories + y.categories, d.polarities + y.polarities)
  }

  /** `d` followed by `e`. */
  function Merge<L>(d: Derived<L>, e: Derived<L>): Derived<L> {
    Derived(d.samples + e.samples, d.categories + e.categories, d.polarities + e.polarities)
  }

  lemma {:induction false} MergeAbsorb<L>(d: Derived<L>, e: Derived<L>, y: Yield<L>)
    ensures Merge(d, Absorb(e, y)) == Absorb(Merge(d, e), y)
  {
    var s := if y.sample.Some? then [y.sample.value] else [];
    assert d.samples + (e.samples + s) == (d.samples + e.samples) + s;
  }

  lemma {:induction false} MergeNothing<L>(d: Derived<L>)
    ensures Merge(d, Nothing()) == d
  {
    assert d.samples + [] == d.samples;
  }

  // ---------------------------------------------------------------------------
  // One partition
  // ---------------------------------------------------------------------------

  /** The items processed in order; the first item whose step raises aborts with its
      error. */
  function DeriveSeq<T, L>(items: seq<T>, step: T -> Result<Yield<L>>): Result<Derived<L>>
    decreases |items|
  {
    if items == [] then Success(Nothing())
    else
      match DeriveSeq(items[..|items| - 1], step)
      case Failure(e) => Failure(e)
      case Success(d) =>
        match step(items[|items| - 1])
        case Failure(e) => Failure(e)
        case Success(y) => Success(Absorb(d, y))
  }

  /** The documents of a partition, each one's sentences processed in order; iterating a
      document whose `absa_sentences` is None raises TypeError. */
  function DeriveDocs<L>(docs: seq<AbsaDocument>, step: AbsaSentence -> Result<Yield<L>>): Result<Derived<L>>
    decreases |docs|
  {
    if docs == [] then Success(Nothing())
    else
      match DeriveDocs(docs[..|docs| - 1], step)
      case Failure(e) => Failure(e)
      case Success(d) =>
        match docs[|docs| - 1].absaSentences
        case None => Failure(TypeError)
        case Some(ss) =>
          match DeriveSeq(ss, step)
          case Failure(e) => Failure(e)
          case Success(e) => Success(Merge(d, e))
  }

  /** Once a prefix fails, the whole list fails with the same error. */
  lemma {:induction false} DeriveSeqFailurePersists<T, L>(items: seq<T>, step: T -> Result<Yield<L>>, j: nat)
    requires j <= |items| && DeriveSeq(items[..j], step).Failure?
    ensures DeriveSeq(items, step) == DeriveSeq(items[..j], step)
    decreases |items|
  {
    if j < |items| {
      var init := items[..|items| - 1];
      assert init[..j] == items[..j];
      DeriveSeqFailurePersists(init, step, j);
    } else {
      assert items[..j] == items;
    }
  }

  lemma {:induction false} DeriveDocsFailurePersists<L>(docs: seq<AbsaDocument>, step: AbsaSentence -> Result<Yield<L>>, j: nat)
    requires j <= |docs| && DeriveDocs(docs[..j], step).Failure?
    ensures DeriveDocs(docs, step) == DeriveDocs(docs[..j], step)
    decreases |docs|
  {
    if j < |docs| {
      var init := docs[..|docs| - 1];
      assert init[..j] == docs[..j];
      DeriveDocsFailurePersists(init, step, j);
    } else {
      assert docs[..j] == docs;
    }
  }

  /** The samples of one document's sentences appended to those collected so far. */
  method CollectDocumentSentences<L>(acc: Derived<L>, sentences: seq<AbsaSentence>, step: AbsaSentence -> Result<Yield<L>>)
    returns (r: Result<Derived<L>>)
    ensures DeriveSeq(sentences, step).Failure? ==> r == Failure(DeriveSeq(sentences, step).error)
    ensures DeriveSeq(sentences, step).Success? ==> r == Success(Merge(acc, DeriveSeq(sentences, step).value))
  {
    var out := acc;
    MergeNothing(acc);
    for j := 0 to |sentences|
      invariant DeriveSeq(sentences[..j], step).Success?
      invariant out == Merge(acc, DeriveSeq(sentences[..j], step).value)
    {
      PrefixSnoc(sentences, j);
      assert sentences[..j + 1][..j] == sentences[..j];
      var y := step(sentences[j]);
      if y.Failure? {
        DeriveSeqFailurePersists(sentences, step, j + 1);
        return Failure(y.error);
      }
      MergeAbsorb(acc, DeriveSeq(sentences[..j], step).value, y.value);
      out := Absorb(out, y.value);
    }
    assert sentences[..|sentences|] == sentences;
    r := Success(out);
  }

  /** `for sentence in ...: ... samples.append([content, label])` for one partition of
      a sentence-level task. */
  method CollectSentences<L>(docs: seq<AbsaDocument>, step: AbsaSentence -> Result<Yield<L>>)
    returns (r: Result<Derived<L>>)
    ensures r == DeriveDocs(docs, step)
  {
    var acc := Nothing();
    for i := 0 to |docs|
      invariant DeriveDocs(docs[..i], step) == Success(acc)
    {
      PrefixSnoc(docs, i);
      assert docs[..i + 1][..i] == docs[..i];
      var doc := docs[i];
      if doc.absaSentences.None? {
        DeriveDocsFailurePersists(docs, step, i + 1);
        return Failure(TypeError);
      }
      var next := CollectDocumentSentences(acc, doc.absaSentences.value, step);
      if next.Failure? {
        DeriveDocsFailurePersists(docs, step, i + 1);
        return next;
      }
      acc := next.value;
    }
    assert docs[..|docs|] == docs;
    r := Success(acc);
  }

  /** The same for a document-level task: one step per document. */
  method CollectDocuments<L>(docs: seq<AbsaDocument>, step: AbsaDocument -> Result<Yield<L>>)
    returns (r: Result<Derived<L>>)
    ensures r == DeriveSeq(docs, step)
  {
    var acc := Nothing();
    for i := 0 to |docs|
      invariant DeriveSeq(docs[..i], step) == Success(acc)
    {
      PrefixSnoc(docs, i);
      assert docs[..i + 1][..i] == docs[..i];
      var y := step(docs[i]);
      if y.Failure? {
        DeriveSeqFailurePersists(docs, step, i + 1);
        return Failure(y.error);
      }
      acc := Absorb(acc, y.value);
    }
    assert docs[..|docs|] == docs;
    r := Success(acc);
  }

  // ---------------------------------------------------------------------------
  // How many samples
  // ---------------------------------------------------------------------------

  /** The number of sentences of a partition. */
  function SentenceCount(docs: seq<AbsaDocument>): nat
    decreases |docs|
  {
    if docs == [] then 0
    else
      var last := docs[|docs| - 1];
      SentenceCount(docs[..|docs| - 1]) + (if last.absaSentences.Some? then |last.absaSentences.value| else 0)
  }

  /** The step keeps a sample for each of these items it accepts. */
  predicate KeepsAll<T, L>(items: seq<T>, step: T -> Result<Yield<L>>) {
    forall k :: 0 <= k < |items| && step(items[k]).Success? ==> step(items[k]).value.sample.Some?
  }

  /** At most one sample per item, and exactly one when the task keeps every item. */
  lemma {:induction false} DeriveSeqCount<T, L>(items: seq<T>, step: T -> Result<Yield<L>>)
    requires DeriveSeq(items, step).Success?
    ensures |DeriveSeq(items, step).value.samples| <= |items|
    ensures KeepsAll(items, step) ==> |DeriveSeq(items, step).value.samples| == |items|
    decreases |items|
  {
    if items != [] {
      var init := items[..|items| - 1];
      DeriveSeqCount(init, step);
      if KeepsAll(items, step) {
        assert KeepsAll(init, step) by {
          forall k | 0 <= k < |init| && step(init[k]).Success? ensures step(init[k]).value.sample.Some? {
            assert init[k] == items[k];
          }
        }
      }
    }
  }

  /** A sentence-level task yields at most one sample per sentence, and exactly one per
      sentence when it keeps every sentence. */
  lemma {:induction false} DeriveDocsCount<L>(docs: seq<AbsaDocument>, step: AbsaSentence -> Result<Yield<L>>)
    requires DeriveDocs(docs, step).Success?
    ensures |DeriveDocs(docs, step).value.samples| <= SentenceCount(docs)
    ensures (forall s :: step(s).Success? ==> step(s).value.sample.Some?) ==>
              |DeriveDocs(docs, step).value.samples| == SentenceCount(docs)
    decreases |docs|
  {
    if docs != [] {
      var init := docs[..|docs| - 1];
      DeriveDocsCount(init, step);
      var ss := docs[|docs| - 1].absaSentences.value;
      DeriveSeqCount(ss, step);
    }
  }

  /** A property every sample the step produces holds of every sample of the list. */
  lemma {:induction false} DeriveSeqAll<T, L>(items: seq<T>, step: T -> Result<Yield<L>>, good: Sample<L> -> bool)
    requires forall t :: step(t).Success? && step(t).value.sample.Some? ==> good(step(t).value.sample.value)
    requires DeriveSeq(items, step).Success?
    ensures forall i :: 0 <= i < |DeriveSeq(items, step).value.samples| ==> good(DeriveSeq(items, step).value.samples[i])
    decreases |items|
  {
    if items != [] {
      DeriveSeqAll(items[..|items| - 1], step, good);
    }
  }

  /** The same for the sentences of a partition. */
  lemma {:induction false} DeriveDocsAll<L>(docs: seq<AbsaDocument>, step: AbsaSentence -> Result<Yield<L>>, good: Sample<L> -> bool)
    requires forall t :: step(t).Success? && step(t).value.sample.Some? ==> good(step(t).value.sample.value)
    requires DeriveDocs(docs, step).Success?
    ensures forall i :: 0 <= i < |DeriveDocs(docs, step).value.samples| ==> good(DeriveDocs(docs, step).value.samples[i])
    decreases |docs|
  {
    if docs != [] {
      DeriveDocsAll(docs[..|docs| - 1], step, good);
      DeriveSeqAll(docs[|docs| - 1].absaSentences.value, step, good);
    }
  }

  // ---------------------------------------------------------------------------
  // All partitions
  // ---------------------------------------------------------------------------

  /** The samples of every partition and the vocabulary entries of all of them. */
  datatype Derivation<L> = Derivation(data: Partitions<Sample<L>>, categories: set<Option<string>>, polarities: set<Option<string>>)

  /** How a task walks a partition. */
  datatype Level<L> =
    | Sentences(sentenceStep: AbsaSentence -> Result<Yield<L>>)
    | Documents(documentStep: AbsaDocument -> Result<Yield<L>>)

  function DeriveLevel<L>(docs: seq<AbsaDocument>, level: Level<L>): Result<Derived<L>> {
    match level
    case Sentences(step) => DeriveDocs(docs, step)
    case Documents(step) => DeriveSeq(docs, step)
  }

  method CollectLevel<L>(docs: seq<AbsaDocument>, level: Level<L>) returns (r: Result<Derived<L>>)
    ensures r == DeriveLevel(docs, level)
  {
    match level {
      case Sentences(step) => r := CollectSentences(docs, step);
      case Documents(step) => r := CollectDocuments(docs, step);
    }
  }

  /** The first `n` keys of the `{train, dev, test}` dictionary processed: an absent
      partition stays absent, a present one is replaced by its samples. */
  function DeriveParts<L>(p: Partitions<AbsaDocument>, level: Level<L>, n: nat): Result<Derivation<L>>
    requires n <= |Kinds|
  {
    if n == 0 then Success(Derivation(Partitions(None, None, None), {}, {}))
    else
      match DeriveParts(p, level, n - 1)
      case Failure(e) => Failure(e)
      case Success(acc) =>
        var k := Kinds[n - 1];
        match Part(p, k)
        case None => Success(acc)
        case Some(docs) =>
          match DeriveLevel(docs, level)
          case Failure(e) => Failure(e)
          case Success(d) =>
            Success(Derivation(WithPart(acc.data, k, Some(d.samples)),
                               acc.categories + d.categories, acc.polarities + d.polarities))
  }

  lemma {:induction false} DerivePartsFailurePersists<L>(p: Partitions<AbsaDocument>, level: Level<L>, n: nat)
    requires n <= |Kinds| && DeriveParts(p, level, n).Failure?
    ensures DeriveParts(p, level, |Kinds|) == DeriveParts(p, level, n)
    decreases |Kinds| - n
  {
    if n < |Kinds| {
      DerivePartsFailurePersists(p, level, n + 1);
    }
  }

  /** Step `n` fills in the `n`-th key and leaves the others as they were. */
  lemma {:induction false} DerivePartsStep<L>(p: Partitions<AbsaDocument>, level: Level<L>, n: nat)
    requires n < |Kinds| && DeriveParts(p, level, n + 1).Success?
    ensures DeriveParts(p, level, n).Success?
    ensures forall k :: k != Kinds[n] ==>
              Part(DeriveParts(p, level, n + 1).value.data, k) == Part(DeriveParts(p, level, n).value.data, k)
    ensures Part(p, Kinds[n]).None? ==> Part(DeriveParts(p, level, n + 1).value.data, Kinds[n]) == Part(DeriveParts(p, level, n).value.data, Kinds[n])
    ensures Part(p, Kinds[n]).Some? ==>
              DeriveLevel(Part(p, Kinds[n]).value, level).Success?
              && Part(DeriveParts(p, level, n + 1).value.data, Kinds[n]) == Some(DeriveLevel(Part(p, Kinds[n]).value, level).value.samples)
  {
  }

  /** Exactly the present partitions get samples, each from its own documents. */
  lemma {:induction false} DerivePartsShape<L>(p: Partitions<AbsaDocument>, level: Level<L>)
    requires DeriveParts(p, level, |Kinds|).Success?
    ensures forall k :: Part(DeriveParts(p, level, |Kinds|).value.data, k).None? <==> Part(p, k).None?
    ensures forall k :: Part(p, k).Some? ==>
              DeriveLevel(Part(p, k).value, level).Success?
              && Part(DeriveParts(p, level, |Kinds|).value.data, k) == Some(DeriveLevel(Part(p, k).value, level).value.samples)
  {
    DerivePartsStep(p, level, 2);
    DerivePartsStep(p, level, 1);
    DerivePartsStep(p, level, 0);
    assert Kinds[0] == Train && Kinds[1] == Dev && Kinds[2] == Test;
  }

  // ---------------------------------------------------------------------------
  // The dev partition and the vocabularies
  // ---------------------------------------------------------------------------

  /** How a task obtains its dev partition. */
  datatype DevRule =
      /** `generate_dev_data(result, dev_size, random_state)`. */
    | GenerateDev(devSize: Option<real>, randomState: int)
      /** The same, followed by the category-distribution logging loop, which iterates
          every partition and so raises TypeError where one is None. */
    | GenerateDevThenLog(devSize: Option<real>, randomState: int)
      /** `if result['dev'] is None and test_size is not None:` an inline
          `train_test_split` without `random_state`. */
    | SplitWhenNoDevAndSized(testSize: Option<real>)
      /** `if result['dev'] is None:` the same inline split, whatever `test_size` is; a
          `test_size` of None is passed on to the library. */
    | SplitWhenNoDev(testSize: Option<real>)

  function ApplyDevRule<S>(p: Partitions<S>, rule: DevRule, split: Splitter<S>): Result<Partitions<S>> {
    match rule
    case GenerateDev(size, seed) => WithDevData(p, size, seed, split)
    case GenerateDevThenLog(size, seed) =>
      (match WithDevData(p, size, seed, split)
       case Failure(e) => Failure(e)
       case Success(q) => if q.train.None? || q.dev.None? || q.test.None? then Failure(TypeError) else Success(q))
    case SplitWhenNoDevAndSized(size) =>
      if p.dev.None? && size.Some? then SplitTrain(p, size, None, split) else Success(p)
    case SplitWhenNoDev(size) =>
      if p.dev.None? then SplitTrain(p, size, None, split) else Success(p)
  }

  /** The samples of every partition once the dev partition is in place. */
  function Prepared<L>(p: Partitions<AbsaDocument>, level: Level<L>, rule: DevRule, split: Splitter<Sample<L>>)
    : Result<Derivation<L>>
  {
    match DeriveParts(p, level, |Kinds|)
    case Failure(e) => Failure(e)
    case Success(d) =>
      match ApplyDevRule(d.data, rule, split)
      case Failure(e) => Failure(e)
      case Success(q) => Success(Derivation(q, d.categories, d.polarities))
  }

  /** What a `generate_*_data` method returns: the partitions and the two sorted
      vocabularies (a task that returns one of them leaves the other empty). */
  datatype TaskResult<L> = TaskResult(data: Partitions<Sample<L>>, categories: seq<Option<string>>, polarities: seq<Option<string>>)

  /** `r` is what the method returns for the prepared partitions: their error, TypeError
      where a vocabulary mixes None with strings, otherwise the partitions with both
      vocabularies sorted. */
  ghost predicate Produces<L>(r: Result<TaskResult<L>>, prepared: Result<Derivation<L>>) {
    match prepared
    case Failure(e) => r == Failure(e)
    case Success(d) =>
      if OptionsSortable(d.categories) && OptionsSortable(d.polarities) then
        && r.Success?
        && r.value.data == d.data
        && SortedOptionListing(r.value.categories, d.categories)
        && SortedOptionListing(r.value.polarities, d.polarities)
      else r == Failure(TypeError)
  }

  lemma {:induction false} SortedOptionListingUnique(r: seq<Option<string>>, q: seq<Option<string>>, v: set<Option<string>>)
    requires SortedOptionListing(r, v) && SortedOptionListing(q, v)
    ensures r == q
  {
    if v != {None} {
      var rs := seq(|r|, i requires 0 <= i < |r| => r[i].value);
      var qs := seq(|q|, i requires 0 <= i < |q| => q[i].value);
      SortedListingUnique(rs, qs, PresentStrings(v));
      assert forall i :: 0 <= i < |r| ==> r[i] == Some(rs[i]);
      assert forall i :: 0 <= i < |q| ==> q[i] == Some(qs[i]);
    }
  }

  /** The outcome is determined by the prepared partitions, the split's outcome included:
      `Produces` leaves no freedom beyond what `Prepared` fixes. Where the source's split is
      unseeded, two runs of the source may still differ, because their splits differ. */
  lemma {:induction false} ProducesDeterministic<L>(r1: Result<TaskResult<L>>, r2: Result<TaskResult<L>>, prepared: Result<Derivation<L>>)
    requires Produces(r1, prepared) && Produces(r2, prepared)
    ensures r1 == r2
  {
    if prepared.Success? {
      var d := prepared.value;
      if OptionsSortable(d.categories) && OptionsSortable(d.polarities) {
        SortedOptionListingUnique(r1.value.categories, r2.value.categories, d.categories);
        SortedOptionListingUnique(r1.value.polarities, r2.value.polarities, d.polarities);
      }
    }
  }

  /** Builds the dev partition in `result` and sorts the vocabularies. */
  method FinishTask<L>(result: DataTypeAndData<Sample<L>>, categories: set<Option<string>>,
                       polarities: set<Option<string>>, rule: DevRule, split: Splitter<Sample<L>>)
    returns (r: Result<TaskResult<L>>)
    modifies result
    ensures Produces(r, match ApplyDevRule(old(result.Value()), rule, split)
                        case Failure(e) => Failure(e)
                        case Success(q) => Success(Derivation(q, categories, polarities)))
  {
    var outcome: Outcome;
    match rule {
      case GenerateDev(size, seed) =>
        outcome := result.GenerateDevData(size, seed, split);
      case GenerateDevThenLog(size, seed) =>
        outcome := result.GenerateDevData(size, seed, split);
        if outcome.Pass? && (result.train.None? || result.dev.None? || result.test.None?) {
          outcome := Fail(TypeError);
        }
      case SplitWhenNoDevAndSized(size) =>
        if result.dev.None? && size.Some? {
          outcome := result.SplitTrainForDev(size, None, split);
        } else {
          outcome := Pass;
        }
      case SplitWhenNoDev(size) =>
        if result.dev.None? {
          outcome := result.SplitTrainForDev(size, None, split);
        } else {
          outcome := Pass;
        }
    }
    if outcome.Fail? {
      return Failure(outcome.error);
    }
    var sortedCategories := SortOptions(categories);
    if sortedCategories.Failure? {
      return Failure(TypeError);
    }
    var sortedPolarities := SortOptions(polarities);
    if sortedPolarities.Failure? {
      return Failure(TypeError);
    }
    r := Success(TaskResult(result.Value(), sortedCategories.value, sortedPolarities.value));
  }

  /** A `generate_*_data` method: derive the samples of every present partition into a
      fresh `result` dictionary, then build the dev partition and sort the vocabularies. */
  method GenerateTask<L>(p: Partitions<AbsaDocument>, level: Level<L>, rule: DevRule, split: Splitter<Sample<L>>)
    returns (r: Result<TaskResult<L>>)
    ensures Produces(r, Prepared(p, level, rule, split))
  {
    var result := new DataTypeAndData<Sample<L>>(Partitions(None, None, None));
    var categories: set<Option<string>> := {};
    var polarities: set<Option<string>> := {};
    for n := 0 to |Kinds|
      invariant DeriveParts(p, level, n) == Success(Derivation(result.Value(), categories, polarities))
    {
      var k := Kinds[n];
      var data := Part(p, k);
      if data.None? {
        continue;
      }
      var d := CollectLevel(data.value, level);
      if d.Failure? {
        DerivePartsFailurePersists(p, level, n + 1);
        return Failure(d.error);
      }
      result.Put(k, Some(d.value.samples));
      categories := categories + d.value.categories;
      polarities := polarities + d.value.polarities;
    }
    r := FinishTask(result, categories, polarities, rule, split);
  }
}
