/**
 * The SemEval loaders (data_adapter/data_object.py): `Semeval2014Task4._load_semeval_by_filepath`
 * (lines 367-411), `Semeval2015Task12._load_data_by_filepath` (lines 566-612) and
 * `Semeval2016Task5Sub2._load_data_by_filepath` (lines 721-768). The markup parser is left
 * out: each loader is given the elements it finds, as attribute maps and texts, in
 * document order. A missing attribute raises KeyError; an offset that is not a numeral
 * raises ValueError in the `AspectTerm` constructor.
 */
module Semeval {
  import opened Wrappers
  import opened Strings
  import opened Records

  /** A parsed element: its attributes and the text of its children, which is what
      `x in tag` looks through. */
  datatype Element = Element(attributes: map<string, string>, contents: seq<string>)

  /** A SemEval-2014 `<sentence>`: its text and its `<aspectTerm>` and `<aspectCategory>`
      elements. */
  datatype Sentence2014Tag = Sentence2014Tag(text: string, termTags: seq<Element>, categoryTags: seq<Element>)

  /** A SemEval-2015/2016 `<sentence>` and the `<Opinion>` elements inside it. */
  datatype OpinionSentenceTag = OpinionSentenceTag(text: string, opinions: seq<Element>)

  /** A `<Review>`: its sentences, and every `<Opinion>` element below it. */
  datatype ReviewTag = ReviewTag(sentences: seq<OpinionSentenceTag>, opinions: seq<Element>)

  /** `tag[key]`. */
  function Attr(e: Element, key: string): (r: Result<string>)
    ensures r.Success? <==> key in e.attributes
    ensures r.Success? ==> r.value == e.attributes[key]
    ensures r.Failure? ==> r.error == KeyError
  {
    if key in e.attributes then Success(e.attributes[key]) else Failure(KeyError)
  }

  // ---------------------------------------------------------------------------
  // SemEval-2014 Task 4
  // ---------------------------------------------------------------------------

  /** Lines 391-396: an `<aspectTerm>` as a term without category. */
  function Term2014(e: Element): (r: Result<AspectTerm>)
    ensures ("term" !in e.attributes || "polarity" !in e.attributes || "from" !in e.attributes || "to" !in e.attributes)
              ==> r == Failure(KeyError)
    ensures r.Success? ==>
              && r.value.term == e.attributes["term"]
              && r.value.polarity == Some(e.attributes["polarity"])
              && Success(r.value.fromIndex) == ParseInt(e.attributes["from"])
              && Success(r.value.toIndex) == ParseInt(e.attributes["to"])
              && r.value.category.None?
  {
    match Attr(e, "term")
    case Failure(err) => Failure(err)
    case Success(term) =>
      match Attr(e, "polarity")
      case Failure(err) => Failure(err)
      case Success(polarity) =>
        match Attr(e, "from")
        case Failure(err) => Failure(err)
        case Success(from) =>
          match Attr(e, "to")
          case Failure(err) => Failure(err)
          case Success(to) => NewAspectTerm(term, Some(polarity), from, to, None)
  }

  /** Lines 400-403: an `<aspectCategory>`. */
  function Category2014(e: Element): (r: Result<AspectCategory>)
    ensures r.Success? <==> "category" in e.attributes && "polarity" in e.attributes
    ensures r.Success? ==> r.value == AspectCategory(e.attributes["category"], e.attributes["polarity"])
    ensures r.Failure? ==> r.error == KeyError
  {
    match Attr(e, "category")
    case Failure(err) => Failure(err)
    case Success(category) =>
      match Attr(e, "polarity")
      case Failure(err) => Failure(err)
      case Success(polarity) => Success(AspectCategory(category, polarity))
  }

  /** One 2014 sentence: its terms are read before its categories. */
  function Sentence2014(tag: Sentence2014Tag): Result<AbsaSentence> {
    match Collect(tag.termTags, Term2014)
    case Failure(err) => Failure(err)
    case Success(terms) =>
      match Collect(tag.categoryTags, Category2014)
      case Failure(err) => Failure(err)
      case Success(categories) => Success(Sentence(tag.text, None, Some(categories), Some(terms)))
  }

  /** Lines 387-405 for one sentence. */
  method ReadSentence2014(tag: Sentence2014Tag) returns (r: Result<AbsaSentence>)
    ensures r == Sentence2014(tag)
  {
    var terms := CollectEach(tag.termTags, Term2014);
    if terms.Failure? {
      return Failure(terms.error);
    }
    var categories := CollectEach(tag.categoryTags, Category2014);
    if categories.Failure? {
      return Failure(categories.error);
    }
    r := Success(Sentence(tag.text, None, Some(categories.value), Some(terms.value)));
  }

  /** The documents of one 2014 file: one single-sentence document per sentence. */
  function File2014(tags: seq<Sentence2014Tag>): Result<seq<AbsaDocument>> {
    match Collect(tags, Sentence2014)
    case Failure(err) => Failure(err)
    case Success(ss) => Success(seq(|ss|, i requires 0 <= i < |ss| => SingleSentenceDocument(ss[i])))
  }

  /** A loaded 2014 sentence keeps its text and one term and one category per element,
      each in order. */
  lemma {:induction false} Sentence2014Shape(tag: Sentence2014Tag)
    requires Sentence2014(tag).Success?
    ensures var s := Sentence2014(tag).value;
            && s.text == tag.text && s.polarity.None?
            && s.aspectTerms.Some? && |s.aspectTerms.value| == |tag.termTags|
            && (forall k :: 0 <= k < |tag.termTags| ==> Term2014(tag.termTags[k]) == Success(s.aspectTerms.value[k]))
            && s.aspectCategories.Some? && |s.aspectCategories.value| == |tag.categoryTags|
            && (forall k :: 0 <= k < |tag.categoryTags| ==> Category2014(tag.categoryTags[k]) == Success(s.aspectCategories.value[k]))
  {
    CollectShape(tag.termTags, Term2014);
    CollectShape(tag.categoryTags, Category2014);
  }

  /** A 2014 file loads exactly when each of its sentences does; then each document is
      one sentence, in file order, with that sentence's text. */
  lemma {:induction false} File2014Shape(tags: seq<Sentence2014Tag>)
    ensures File2014(tags).Success? <==> forall i :: 0 <= i < |tags| ==> Sentence2014(tags[i]).Success?
    ensures File2014(tags).Success? ==>
              var docs := File2014(tags).value;
              && |docs| == |tags|
              && forall i :: 0 <= i < |tags| ==>
                   && docs[i].text == tags[i].text
                   && docs[i].absaSentences == Some([Sentence2014(tags[i]).value])
  {
    CollectShape(tags, Sentence2014);
    if File2014(tags).Success? {
      var ss := Collect(tags, Sentence2014).value;
      forall i | 0 <= i < |tags| ensures Sentence2014(tags[i]) == Success(ss[i]) && ss[i].text == tags[i].text {
        Sentence2014Shape(tags[i]);
      }
    }
  }

  /** A term whose offsets are written as numerals keeps them. */
  lemma {:induction false} Term2014Numerals(term: string, polarity: string, from: nat, to: nat)
    ensures Term2014(Element(map["term" := term, "polarity" := polarity, "from" := NatToString(from), "to" := NatToString(to)], []))
              == Success(AspectTerm(term, Some(polarity), from, to, None))
  {
    NewAspectTermOfNumerals(term, Some(polarity), from, to, None);
  }

  /** Lines 383-406: the sentence loop of one 2014 file, then the documents. */
  method ReadFile2014(tags: seq<Sentence2014Tag>) returns (r: Result<seq<AbsaDocument>>)
    ensures r == File2014(tags)
  {
    var sentences: seq<AbsaSentence> := [];
    for i := 0 to |tags|
      invariant Collect(tags[..i], Sentence2014) == Success(sentences)
    {
      PrefixSnoc(tags, i);
      assert tags[..i + 1][..i] == tags[..i];
      var s := ReadSentence2014(tags[i]);
      if s.Failure? {
        CollectFailurePersists(tags, i + 1, Sentence2014);
        return Failure(s.error);
      }
      sentences := sentences + [s.value];
    }
    assert tags[..|tags|] == tags;
    r := Success(seq(|sentences|, i requires 0 <= i < |sentences| => SingleSentenceDocument(sentences[i])));
  }

  /** A file that is not given loads as None. */
  function Optional2014(tags: Option<seq<Sentence2014Tag>>): Result<Option<seq<AbsaDocument>>> {
    match tags
    case None => Success(None)
    case Some(ts) =>
      match File2014(ts)
      case Failure(err) => Failure(err)
      case Success(docs) => Success(Some(docs))
  }

  /** The 2014 corpus: the files are read in the order train, test, dev. */
  function Corpus2014(train: Option<seq<Sentence2014Tag>>, test: Option<seq<Sentence2014Tag>>,
                      dev: Option<seq<Sentence2014Tag>>): (r: Result<Partitions<AbsaDocument>>)
    ensures r.Success? <==> Optional2014(train).Success? && Optional2014(test).Success? && Optional2014(dev).Success?
    ensures Optional2014(train).Failure? ==> r == Failure(Optional2014(train).error)
    ensures Optional2014(train).Success? && Optional2014(test).Failure? ==> r == Failure(Optional2014(test).error)
    ensures Optional2014(train).Success? && Optional2014(test).Success? && Optional2014(dev).Failure? ==>
              r == Failure(Optional2014(dev).error)
    ensures r.Success? ==>
              && (r.value.train.None? <==> train.None?)
              && (r.value.dev.None? <==> dev.None?)
              && (r.value.test.None? <==> test.None?)
  {
    match Optional2014(train)
    case Failure(err) => Failure(err)
    case Success(trainDocs) =>
      match Optional2014(test)
      case Failure(err) => Failure(err)
      case Success(testDocs) =>
        match Optional2014(dev)
        case Failure(err) => Failure(err)
        case Success(devDocs) => Success(Partitions(trainDocs, devDocs, testDocs))
  }

  /** One entry of the `data_type_and_filepath` loop. */
  method ReadOptional2014(tags: Option<seq<Sentence2014Tag>>) returns (r: Result<Option<seq<AbsaDocument>>>)
    ensures r == Optional2014(tags)
  {
    if tags.None? {
      return Success(None);
    }
    var docs := ReadFile2014(tags.value);
    if docs.Failure? {
      return Failure(docs.error);
    }
    r := Success(Some(docs.value));
  }

  /** Lines 367-411. */
  method LoadData2014(train: Option<seq<Sentence2014Tag>>, test: Option<seq<Sentence2014Tag>>,
                      dev: Option<seq<Sentence2014Tag>>) returns (r: Result<Partitions<AbsaDocument>>)
    ensures r == Corpus2014(train, test, dev)
  {
    var trainDocs := ReadOptional2014(train);
    if trainDocs.Failure? {
      return Failure(trainDocs.error);
    }
    var testDocs := ReadOptional2014(test);
    if testDocs.Failure? {
      return Failure(testDocs.error);
    }
    var devDocs := ReadOptional2014(dev);
    if devDocs.Failure? {
      return Failure(devDocs.error);
    }
    r := Success(Partitions(trainDocs.value, devDocs.value, testDocs.value));
  }

  // ---------------------------------------------------------------------------
  // Opinions (SemEval-2015 Task 12 and SemEval-2016 Task 5 subtask 2)
  // ---------------------------------------------------------------------------

  /** An `<Opinion>` becomes a term (it names a target) or a category. */
  datatype Opinion = TermOpinion(term: AspectTerm) | CategoryOpinion(category: AspectCategory)

  /** One opinion: category and polarity first, then, when `targeted`, the target and its
      offsets, giving a term that carries the category. */
  function OpinionOf(e: Element, targeted: bool): (r: Result<Opinion>)
    ensures ("category" !in e.attributes || "polarity" !in e.attributes) ==> r == Failure(KeyError)
    ensures !targeted && "category" in e.attributes && "polarity" in e.attributes ==>
              r == Success(CategoryOpinion(AspectCategory(e.attributes["category"], e.attributes["polarity"])))
    ensures targeted && r.Success? ==>
              && "target" in e.attributes && "from" in e.attributes && "to" in e.attributes
              && r.value.TermOpinion?
              && r.value.term.term == e.attributes["target"]
              && r.value.term.polarity == Some(e.attributes["polarity"])
              && r.value.term.category == Some(e.attributes["category"])
              && Success(r.value.term.fromIndex) == ParseInt(e.attributes["from"])
              && Success(r.value.term.toIndex) == ParseInt(e.attributes["to"])
  {
    match Attr(e, "category")
    case Failure(err) => Failure(err)
    case Success(category) =>
      match Attr(e, "polarity")
      case Failure(err) => Failure(err)
      case Success(polarity) =>
        if targeted then
          match Attr(e, "target")
          case Failure(err) => Failure(err)
          case Success(target) =>
            match Attr(e, "from")
            case Failure(err) => Failure(err)
            case Success(from) =>
              match Attr(e, "to")
              case Failure(err) => Failure(err)
              case Success(to) =>
                match NewAspectTerm(target, Some(polarity), from, to, Some(category))
                case Failure(err) => Failure(err)
                case Success(t) => Success(TermOpinion(t))
        else Success(CategoryOpinion(AspectCategory(category, polarity)))
  }

  /** Line 594: `'target' in opinion_tag.attrs`. */
  predicate HasTargetAttribute(e: Element) {
    "target" in e.attributes
  }

  /** Line 753: `'target' in opinion_tag`, which looks among the element's children, not
      its attributes. */
  predicate HasTargetChild(e: Element) {
    "target" in e.contents
  }

  /** The terms and the categories of a list of opinions, each in order. */
  function Opinions(es: seq<Element>, targeted: Element -> bool): Result<(seq<AspectTerm>, seq<AspectCategory>)>
    decreases |es|
  {
    if es == [] then Success(([], []))
    else
      match Opinions(es[..|es| - 1], targeted)
      case Failure(err) => Failure(err)
      case Success(acc) =>
        var e := es[|es| - 1];
        match OpinionOf(e, targeted(e))
        case Failure(err) => Failure(err)
        case Success(TermOpinion(t)) => Success((acc.0 + [t], acc.1))
        case Success(CategoryOpinion(c)) => Success((acc.0, acc.1 + [c]))
  }

  /** How many of the opinions name a target. */
  function CountTargeted(es: seq<Element>, targeted: Element -> bool): (n: nat)
    ensures n <= |es|
    decreases |es|
  {
    if es == [] then 0
    else CountTargeted(es[..|es| - 1], targeted) + (if targeted(es[|es| - 1]) then 1 else 0)
  }

  /** Every opinion lands in exactly one list: the targeted ones become terms, each
      carrying a category, the others categories. */
  lemma {:induction false} OpinionsPartition(es: seq<Element>, targeted: Element -> bool)
    requires Opinions(es, targeted).Success?
    ensures |Opinions(es, targeted).value.0| == CountTargeted(es, targeted)
    ensures |Opinions(es, targeted).value.1| == |es| - CountTargeted(es, targeted)
    ensures forall t :: t in Opinions(es, targeted).value.0 ==> t.category.Some?
    decreases |es|
  {
    if es != [] {
      OpinionsPartition(es[..|es| - 1], targeted);
    }
  }

  /** An opinion is rejected exactly when it lacks a category or a polarity, or, if it is
      targeted, a target, an offset or a numeral offset; the list fails on the first
      rejected one. */
  lemma {:induction false} OpinionsFailurePersists(es: seq<Element>, j: nat, targeted: Element -> bool)
    requires j <= |es| && Opinions(es[..j], targeted).Failure?
    ensures Opinions(es, targeted) == Opinions(es[..j], targeted)
    decreases |es|
  {
    if j < |es| {
      var init := es[..|es| - 1];
      assert init[..j] == es[..j];
      OpinionsFailurePersists(init, j, targeted);
    } else {
      assert es[..j] == es;
    }
  }

  /** The opinion loop (lines 588-600, 749-761). */
  method ReadOpinions(es: seq<Element>, targeted: Element -> bool)
    returns (r: Result<(seq<AspectTerm>, seq<AspectCategory>)>)
    ensures r == Opinions(es, targeted)
  {
    var terms: seq<AspectTerm> := [];
    var categories: seq<AspectCategory> := [];
    for i := 0 to |es|
      invariant Opinions(es[..i], targeted) == Success((terms, categories))
    {
      PrefixSnoc(es, i);
      assert es[..i + 1][..i] == es[..i];
      var opinion := OpinionOf(es[i], targeted(es[i]));
      if opinion.Failure? {
        OpinionsFailurePersists(es, i + 1, targeted);
        return Failure(opinion.error);
      }
      match opinion.value {
        case TermOpinion(t) =>
          terms := terms + [t];
        case CategoryOpinion(c) =>
          categories := categories + [c];
      }
    }
    assert es[..|es|] == es;
    r := Success((terms, categories));
  }

  /** A childless `<Opinion .../>` never counts as targeted at line 753, whatever its
      attributes: subtask 2 records it as a category. */
  lemma {:induction false} ChildlessOpinionsAreCategories(es: seq<Element>)
    requires forall i :: 0 <= i < |es| ==> es[i].contents == []
    requires Opinions(es, HasTargetChild).Success?
    ensures Opinions(es, HasTargetChild).value.0 == []
    ensures |Opinions(es, HasTargetChild).value.1| == |es|
  {
    OpinionsPartition(es, HasTargetChild);
    NoTargetChild(es);
  }

  lemma {:induction false} NoTargetChild(es: seq<Element>)
    requires forall i :: 0 <= i < |es| ==> es[i].contents == []
    ensures CountTargeted(es, HasTargetChild) == 0
    decreases |es|
  {
    if es != [] {
      NoTargetChild(es[..|es| - 1]);
    }
  }

  // ---------------------------------------------------------------------------
  // SemEval-2015 Task 12: opinions per sentence
  // ---------------------------------------------------------------------------

  /** One 2015 sentence with its terms and categories. */
  function Sentence2015(tag: OpinionSentenceTag): Result<AbsaSentence> {
    match Opinions(tag.opinions, HasTargetAttribute)
    case Failure(err) => Failure(err)
    case Success(parts) => Success(Sentence(tag.text, None, Some(parts.1), Some(parts.0)))
  }

  /** A review of the 2015 corpus: its sentences, and their texts joined. */
  function Review2015(review: ReviewTag): Result<AbsaDocument> {
    match Collect(review.sentences, Sentence2015)
    case Failure(err) => Failure(err)
    case Success(ss) => Success(AbsaDocument(Concat(SentenceTextsOfTags(review.sentences)), None, None, None, Some(ss), ""))
  }

  function SentenceTextsOfTags(tags: seq<OpinionSentenceTag>): (r: seq<string>)
    ensures |r| == |tags| && forall i :: 0 <= i < |tags| ==> r[i] == tags[i].text
  {
    seq(|tags|, i requires 0 <= i < |tags| => tags[i].text)
  }

  /** A loaded 2015 review holds one sentence per `<sentence>`, in order, each with the
      text of its tag; the review's text is their concatenation. */
  lemma {:induction false} Review2015Shape(review: ReviewTag)
    requires Review2015(review).Success?
    ensures var d := Review2015(review).value;
            && d.absaSentences.Some? && |d.absaSentences.value| == |review.sentences|
            && (forall i :: 0 <= i < |review.sentences| ==> d.absaSentences.value[i].text == review.sentences[i].text)
            && d.text == Concat(SentenceTexts(d))
  {
    var ss := Collect(review.sentences, Sentence2015).value;
    CollectShape(review.sentences, Sentence2015);
    assert SentenceTexts(Review2015(review).value) == SentenceTextsOfTags(review.sentences);
  }

  /** Lines 582-601 for one review. */
  method ReadReview2015(review: ReviewTag) returns (r: Result<AbsaDocument>)
    ensures r == Review2015(review)
  {
    var tags := review.sentences;
    var texts: seq<string> := [];
    var sentences: seq<AbsaSentence> := [];
    for i := 0 to |tags|
      invariant Collect(tags[..i], Sentence2015) == Success(sentences)
      invariant texts == SentenceTextsOfTags(tags)[..i]
    {
      PrefixSnoc(tags, i);
      assert tags[..i + 1][..i] == tags[..i];
      var parts := ReadOpinions(tags[i].opinions, HasTargetAttribute);
      if parts.Failure? {
        CollectFailurePersists(tags, i + 1, Sentence2015);
        return Failure(parts.error);
      }
      var sentence := Sentence(tags[i].text, None, Some(parts.value.1), Some(parts.value.0));
      PrefixSnoc(SentenceTextsOfTags(tags), i);
      sentences := sentences + [sentence];
      texts := texts + [sentence.text];
    }
    assert tags[..|tags|] == tags;
    assert texts == SentenceTextsOfTags(tags);
    var text := Concat(texts);
    r := Success(AbsaDocument(text, None, None, None, Some(sentences), ""));
  }

  // ---------------------------------------------------------------------------
  // SemEval-2016 Task 5 subtask 2: opinions per review
  // ---------------------------------------------------------------------------

  /** A review of subtask 2: plain sentences, and the review's opinions on the document. */
  function ReviewSub2(review: ReviewTag): Result<AbsaDocument> {
    var ss := seq(|review.sentences|, i requires 0 <= i < |review.sentences| => Sentence(review.sentences[i].text, None, None, None));
    match Opinions(review.opinions, HasTargetChild)
    case Failure(err) => Failure(err)
    case Success(parts) =>
      Success(AbsaDocument(Concat(SentenceTextsOfTags(review.sentences)), None, Some(parts.1), Some(parts.0), Some(ss), ""))
  }

  /** A loaded subtask-2 review keeps every opinion of the review, at document level, and
      its sentences carry none. */
  lemma {:induction false} ReviewSub2Shape(review: ReviewTag)
    requires ReviewSub2(review).Success?
    ensures var d := ReviewSub2(review).value;
            && |d.aspectTerms.value| + |d.aspectCategories.value| == |review.opinions|
            && |d.absaSentences.value| == |review.sentences|
            && forall i :: 0 <= i < |review.sentences| ==>
                 d.absaSentences.value[i] == Sentence(review.sentences[i].text, None, None, None)
  {
    OpinionsPartition(review.opinions, HasTargetChild);
  }

  /** Lines 737-762 for one review. */
  method ReadReviewSub2(review: ReviewTag) returns (r: Result<AbsaDocument>)
    ensures r == ReviewSub2(review)
  {
    var tags := review.sentences;
    var texts: seq<string> := [];
    var sentences: seq<AbsaSentence> := [];
    for i := 0 to |tags|
      invariant |sentences| == i
      invariant forall k :: 0 <= k < i ==> sentences[k] == Sentence(tags[k].text, None, None, None)
      invariant texts == SentenceTextsOfTags(tags)[..i]
    {
      PrefixSnoc(SentenceTextsOfTags(tags), i);
      var sentence := Sentence(tags[i].text, None, None, None);
      sentences := sentences + [sentence];
      texts := texts + [sentence.text];
    }
    assert texts == SentenceTextsOfTags(tags);
    var parts := ReadOpinions(review.opinions, HasTargetChild);
    if parts.Failure? {
      return Failure(parts.error);
    }
    ghost var ss := seq(|review.sentences|, i requires 0 <= i < |review.sentences| => Sentence(review.sentences[i].text, None, None, None));
    assert sentences == ss;
    assert Opinions(review.opinions, HasTargetChild) == Success(parts.value);
    r := Success(AbsaDocument(Concat(texts), None, Some(parts.value.1), Some(parts.value.0), Some(sentences), ""));
  }

  // ---------------------------------------------------------------------------
  // The two-file corpora
  // ---------------------------------------------------------------------------

  /** Which of the two review layouts a corpus uses. */
  datatype Layout = SentenceOpinions | ReviewOpinions

  function ReviewOf(layout: Layout, review: ReviewTag): Result<AbsaDocument> {
    match layout
    case SentenceOpinions => Review2015(review)
    case ReviewOpinions => ReviewSub2(review)
  }

  /** The documents of one reviews file. */
  function ReviewsFile(layout: Layout, reviews: seq<ReviewTag>): Result<seq<AbsaDocument>> {
    Collect(reviews, (review: ReviewTag) => ReviewOf(layout, review))
  }

  /** A file that is not given loads as None. */
  function OptionalReviews(layout: Layout, reviews: Option<seq<ReviewTag>>): Result<Option<seq<AbsaDocument>>> {
    match reviews
    case None => Success(None)
    case Some(rs) =>
      match ReviewsFile(layout, rs)
      case Failure(err) => Failure(err)
      case Success(docs) => Success(Some(docs))
  }

  /** Train from the first file, test from the second, no dev partition. */
  function ReviewCorpus(layout: Layout, train: Option<seq<ReviewTag>>, test: Option<seq<ReviewTag>>)
    : (r: Result<Partitions<AbsaDocument>>)
    ensures OptionalReviews(layout, train).Failure? ==> r == Failure(OptionalReviews(layout, train).error)
    ensures r.Success? <==> OptionalReviews(layout, train).Success? && OptionalReviews(layout, test).Success?
    ensures r.Success? ==>
              && r.value.dev.None?
              && (r.value.train.None? <==> train.None?)
              && (r.value.test.None? <==> test.None?)
              && (train.Some? ==> |r.value.train.value| == |train.value|)
              && (test.Some? ==> |r.value.test.value| == |test.value|)
  {
    match OptionalReviews(layout, train)
    case Failure(err) => Failure(err)
    case Success(trainDocs) =>
      match OptionalReviews(layout, test)
      case Failure(err) => Failure(err)
      case Success(testDocs) =>
        ReviewsCount(layout, train);
        ReviewsCount(layout, test);
        Success(Partitions(trainDocs, None, testDocs))
  }

  /** One document per review. */
  lemma {:induction false} ReviewsCount(layout: Layout, reviews: Option<seq<ReviewTag>>)
    requires OptionalReviews(layout, reviews).Success?
    ensures OptionalReviews(layout, reviews).value.None? <==> reviews.None?
    ensures reviews.Some? ==> |OptionalReviews(layout, reviews).value.value| == |reviews.value|
  {
    if reviews.Some? {
      CollectShape(reviews.value, (review: ReviewTag) => ReviewOf(layout, review));
    }
  }

  method ReadReview(layout: Layout, review: ReviewTag) returns (r: Result<AbsaDocument>)
    ensures r == ReviewOf(layout, review)
  {
    match layout {
      case SentenceOpinions =>
        r := ReadReview2015(review);
      case ReviewOpinions =>
        r := ReadReviewSub2(review);
    }
  }

  /** The review loop of one file. */
  method ReadReviewsFile(layout: Layout, reviews: seq<ReviewTag>) returns (r: Result<seq<AbsaDocument>>)
    ensures r == ReviewsFile(layout, reviews)
  {
    var f := (review: ReviewTag) => ReviewOf(layout, review);
    var docs: seq<AbsaDocument> := [];
    for i := 0 to |reviews|
      invariant Collect(reviews[..i], f) == Success(docs)
    {
      PrefixSnoc(reviews, i);
      assert reviews[..i + 1][..i] == reviews[..i];
      var d := ReadReview(layout, reviews[i]);
      if d.Failure? {
        CollectFailurePersists(reviews, i + 1, f);
        return Failure(d.error);
      }
      docs := docs + [d.value];
    }
    assert reviews[..|reviews|] == reviews;
    r := Success(docs);
  }

  /** Lines 566-612 (`SentenceOpinions`) and 721-768 (`ReviewOpinions`). */
  method LoadReviews(layout: Layout, train: Option<seq<ReviewTag>>, test: Option<seq<ReviewTag>>)
    returns (r: Result<Partitions<AbsaDocument>>)
    ensures r == ReviewCorpus(layout, train, test)
  {
    var data: seq<Option<seq<AbsaDocument>>> := [];
    var files := [train, test];
    for i := 0 to 2
      invariant |data| == i
      invariant forall k :: 0 <= k < i ==> OptionalReviews(layout, files[k]) == Success(data[k])
    {
      if files[i].None? {
        data := data + [None];
        continue;
      }
      var docs := ReadReviewsFile(layout, files[i].value);
      if docs.Failure? {
        assert OptionalReviews(layout, files[i]) == Failure(docs.error);
        if i == 1 {
          assert OptionalReviews(layout, train) == Success(data[0]);
        }
        return Failure(docs.error);
      }
      data := data + [Some(docs.value)];
    }
    r := Success(Partitions(data[0], None, data[1]));
  }
}
