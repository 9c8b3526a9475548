/**
 * The canonical records every adapter emits (data_adapter/data_object.py, lines 29-115),
 * the `{train, dev, test}` partition record and the `[content, label]` sample.
 * Python's None is `None` of Option; a list that the constructor received as None stays
 * None, which matters because iterating over it raises TypeError.
 */
module Records {
  import opened Wrappers
  import opened Strings

  /** A literal aspect span: `fromIndex` inclusive, `toIndex` exclusive. */
  datatype AspectTerm = AspectTerm(
    term: string,
    polarity: Option<string>,
    fromIndex: int,
    toIndex: int,
    category: Option<string>)

  /** `AspectTerm(term, polarity, from_index, to_index, category)` given the offsets as the
      attribute text of a markup file: the constructor applies `int()` to both, so a
      malformed offset raises ValueError. */
  function NewAspectTerm(term: string, polarity: Option<string>, fromText: string, toText: string,
                         category: Option<string>): (r: Result<AspectTerm>)
    ensures r.Success? <==> ParseInt(fromText).Success? && ParseInt(toText).Success?
    ensures r.Success? ==> r.value == AspectTerm(term, polarity, ParseInt(fromText).value, ParseInt(toText).value, category)
    ensures r.Failure? ==> r.error == ValueError
  {
    match ParseInt(fromText)
    case Failure(e) => Failure(e)
    case Success(f) =>
      match ParseInt(toText)
      case Failure(e) => Failure(e)
      case Success(t) => Success(AspectTerm(term, polarity, f, t, category))
  }

  /** Offsets written out as decimal numerals are read back exactly. */
  lemma {:induction false} NewAspectTermOfNumerals(term: string, polarity: Option<string>, from: nat, to: nat, category: Option<string>)
    ensures NewAspectTerm(term, polarity, NatToString(from), NatToString(to), category)
              == Success(AspectTerm(term, polarity, from, to, category))
  {
    ParseFormattedInt(from);
    ParseFormattedInt(to);
  }

  datatype AspectCategory = AspectCategory(category: string, polarity: string)

  /** A plain classification text. */
  datatype Text = Text(text: string, polarity: Option<string>, sampleId: string)

  /** `startIndexInDoc` is -1 unless the adapter records the sentence's offset. */
  datatype AbsaSentence = AbsaSentence(
    text: string,
    polarity: Option<string>,
    aspectCategories: Option<seq<AspectCategory>>,
    aspectTerms: Option<seq<AspectTerm>>,
    sampleId: string,
    startIndexInDoc: int)

  datatype AbsaDocument = AbsaDocument(
    text: string,
    polarity: Option<string>,
    aspectCategories: Option<seq<AspectCategory>>,
    aspectTerms: Option<seq<AspectTerm>>,
    absaSentences: Option<seq<AbsaSentence>>,
    sampleId: string)

  /** `AbsaSentence(text, polarity, categories, terms)` with the constructor's defaults. */
  function Sentence(text: string, polarity: Option<string>, categories: Option<seq<AspectCategory>>,
                    terms: Option<seq<AspectTerm>>): AbsaSentence
  {
    AbsaSentence(text, polarity, categories, terms, "", -1)
  }

  /** The one-sentence document several adapters wrap each sentence in. */
  function SingleSentenceDocument(s: AbsaSentence): AbsaDocument {
    AbsaDocument(s.text, None, None, None, Some([s]), "")
  }

  /** A dataset's data; None means the corpus has no such partition. */
  datatype Partitions<T> = Partitions(train: Option<seq<T>>, dev: Option<seq<T>>, test: Option<seq<T>>)

  /** The keys of the `{train, dev, test}` dictionaries, in their insertion order. */
  datatype PartitionKind = Train | Dev | Test

  const Kinds: seq<PartitionKind> := [Train, Dev, Test]

  /** `data[kind]`. */
  function Part<T>(p: Partitions<T>, k: PartitionKind): Option<seq<T>> {
    match k
    case Train => p.train
    case Dev => p.dev
    case Test => p.test
  }

  /** `data[kind] = v`: that entry changes, the other two do not. */
  function WithPart<T>(p: Partitions<T>, k: PartitionKind, v: Option<seq<T>>): (r: Partitions<T>)
    ensures Part(r, k) == v
    ensures forall k' :: k' != k ==> Part(r, k') == Part(p, k')
  {
    match k
    case Train => Partitions(v, p.dev, p.test)
    case Dev => Partitions(p.train, v, p.test)
    case Test => Partitions(p.train, p.dev, v)
  }

  /** The key named by a `data_type` argument, if it is one of the three. */
  function KindOfName(name: Option<string>): (r: Option<PartitionKind>)
    ensures r == Some(Train) <==> name == Some("train")
    ensures r == Some(Dev) <==> name == Some("dev")
    ensures r == Some(Test) <==> name == Some("test")
  {
    if name == Some("train") then Some(Train)
    else if name == Some("dev") then Some(Dev)
    else if name == Some("test") then Some(Test)
    else None
  }

  /** One `[content, label]` training sample. */
  datatype Sample<L> = Sample(content: string, target: L)

  /** The texts of a document's sentences, in order. */
  function SentenceTexts(doc: AbsaDocument): seq<string> {
    match doc.absaSentences
    case None => []
    case Some(ss) => seq(|ss|, i requires 0 <= i < |ss| => ss[i].text)
  }

  /** `AbsaDocument.get_plain_text_of_sentences`: the sentence texts, or [] without sentences. */
  method PlainTextOfSentences(doc: AbsaDocument) returns (result: seq<string>)
    ensures doc.absaSentences.None? ==> result == []
    ensures doc.absaSentences.Some? ==>
              |result| == |doc.absaSentences.value|
              && forall i :: 0 <= i < |result| ==> result[i] == doc.absaSentences.value[i].text
  {
    result := [];
    if doc.absaSentences.None? {
      return;
    }
    var sentences := doc.absaSentences.value;
    for i := 0 to |sentences|
      invariant |result| == i
      invariant forall k :: 0 <= k < i ==> result[k] == sentences[k].text
    {
      result := result + [sentences[i].text];
    }
  }
}
