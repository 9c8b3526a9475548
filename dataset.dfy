/**
 * `BaseDataset` (data_adapter/data_object.py, lines 118-176): a dataset holds its three
 * partitions, loaded once by the constructor, and answers the text of the sentences or
 * of the documents of one partition named by a `data_type` string.
 */
module Dataset {
  import opened Wrappers
  import opened Records
  import Derivation

  /** The sentence texts of a partition's documents, document by document. */
  function SentenceTextsOf(docs: seq<AbsaDocument>): seq<string>
    decreases |docs|
  {
    if docs == [] then [] else SentenceTextsOf(docs[..|docs| - 1]) + SentenceTexts(docs[|docs| - 1])
  }

  /** The texts of a partition's documents. */
  function DocumentTextsOf(docs: seq<AbsaDocument>): (r: seq<string>)
    ensures |r| == |docs| && forall i :: 0 <= i < |docs| ==> r[i] == docs[i].text
  {
    seq(|docs|, i requires 0 <= i < |docs| => docs[i].text)
  }

  /** One text per sentence: as many texts as the partition has sentences. */
  lemma {:induction false} SentenceTextsCount(docs: seq<AbsaDocument>)
    ensures |SentenceTextsOf(docs)| == Derivation.SentenceCount(docs)
    decreases |docs|
  {
    if docs != [] {
      SentenceTextsCount(docs[..|docs| - 1]);
    }
  }

  /** Appending a document appends its sentence texts. */
  lemma {:induction false} SentenceTextsSnoc(docs: seq<AbsaDocument>, d: AbsaDocument)
    ensures SentenceTextsOf(docs + [d]) == SentenceTextsOf(docs) + SentenceTexts(d)
  {
    assert (docs + [d])[..|docs|] == docs;
  }

  /** The texts of two batches of documents are the texts of the first, then the second. */
  lemma {:induction false} SentenceTextsAppend(a: seq<AbsaDocument>, b: seq<AbsaDocument>)
    ensures SentenceTextsOf(a + b) == SentenceTextsOf(a) + SentenceTextsOf(b)
    decreases |b|
  {
    if b != [] {
      var init := b[..|b| - 1];
      var last := b[|b| - 1];
      var ab := a + b;
      assert ab[..|ab| - 1] == a + init;
      assert ab[|ab| - 1] == last;
      assert SentenceTextsOf(ab) == SentenceTextsOf(a + init) + SentenceTexts(last);
      assert SentenceTextsOf(b) == SentenceTextsOf(init) + SentenceTexts(last);
      SentenceTextsAppend(a, init);
    } else {
      assert a + b == a;
    }
  }

  /** What `get_sentences(data_type)` returns for these partitions: [] for a name that is
      not a partition's, TypeError for an absent partition, otherwise its sentence texts. */
  function SentencesOfKind(p: Partitions<AbsaDocument>, dataType: Option<string>): (r: Result<seq<string>>)
    ensures KindOfName(dataType).None? ==> r == Success([])
    ensures KindOfName(dataType).Some? && Part(p, KindOfName(dataType).value).None? ==> r == Failure(TypeError)
  {
    match KindOfName(dataType)
    case None => Success([])
    case Some(k) =>
      match Part(p, k)
      case None => Failure(TypeError)
      case Some(docs) => Success(SentenceTextsOf(docs))
  }

  /** A present partition yields one text per sentence. */
  lemma {:induction false} SentencesOfKindCount(p: Partitions<AbsaDocument>, dataType: Option<string>)
    requires KindOfName(dataType).Some? && Part(p, KindOfName(dataType).value).Some?
    ensures SentencesOfKind(p, dataType).Success?
    ensures |SentencesOfKind(p, dataType).value| == Derivation.SentenceCount(Part(p, KindOfName(dataType).value).value)
  {
    SentenceTextsCount(Part(p, KindOfName(dataType).value).value);
  }

  /** What `get_documents(data_type)` returns. */
  function DocumentsOfKind(p: Partitions<AbsaDocument>, dataType: Option<string>): (r: Result<seq<string>>)
    ensures KindOfName(dataType).None? ==> r == Success([])
    ensures KindOfName(dataType).Some? && Part(p, KindOfName(dataType).value).None? ==> r == Failure(TypeError)
    ensures KindOfName(dataType).Some? && Part(p, KindOfName(dataType).value).Some? ==>
              r.Success? && |r.value| == |Part(p, KindOfName(dataType).value).value|
  {
    match KindOfName(dataType)
    case None => Success([])
    case Some(k) =>
      match Part(p, k)
      case None => Failure(TypeError)
      case Some(docs) => Success(DocumentTextsOf(docs))
  }

  class BaseDataset {
    var trainData: Option<seq<AbsaDocument>>
    var devData: Option<seq<AbsaDocument>>
    var testData: Option<seq<AbsaDocument>>

    /** `get_data_type_and_data_dict()`. */
    function Data(): Partitions<AbsaDocument>
      reads this
    {
      Partitions(trainData, devData, testData)
    }

    /** The partitions `_load_data` returned. */
    constructor (loaded: Partitions<AbsaDocument>)
      ensures Data() == loaded
    {
      trainData, devData, testData := loaded.train, loaded.dev, loaded.test;
    }

    /** The documents of the partition `data_type` names: None for an unknown name,
        `Some(None)` for an absent partition. */
    method Lookup(dataType: Option<string>) returns (data: Option<Option<seq<AbsaDocument>>>)
      ensures KindOfName(dataType).None? <==> data.None?
      ensures data.Some? ==> data.value == Part(Data(), KindOfName(dataType).value)
    {
      var k := KindOfName(dataType);
      if k.None? {
        return None;
      }
      data := Some(Part(Data(), k.value));
    }

    /** `get_sentences(data_type)`. */
    method GetSentences(dataType: Option<string>) returns (r: Result<seq<string>>)
      ensures r == SentencesOfKind(Data(), dataType)
    {
      var data := Lookup(dataType);
      if data.None? {
        return Success([]);
      }
      if data.value.None? {
        return Failure(TypeError);
      }
      var docs := data.value.value;
      var sentences: seq<string> := [];
      for i := 0 to |docs|
        invariant sentences == SentenceTextsOf(docs[..i])
      {
        var texts := PlainTextOfSentences(docs[i]);
        assert texts == SentenceTexts(docs[i]);
        ghost var before := sentences;
        for j := 0 to |texts|
          invariant sentences == before + texts[..j]
        {
          PrefixSnoc(texts, j);
          sentences := sentences + [texts[j]];
        }
        assert texts[..|texts|] == texts;
        PrefixSnoc(docs, i);
        SentenceTextsSnoc(docs[..i], docs[i]);
      }
      assert docs[..|docs|] == docs;
      r := Success(sentences);
    }

    /** `get_documents(data_type)`. */
    method GetDocuments(dataType: Option<string>) returns (r: Result<seq<string>>)
      ensures r == DocumentsOfKind(Data(), dataType)
    {
      var data := Lookup(dataType);
      if data.None? {
        return Success([]);
      }
      if data.value.None? {
        return Failure(TypeError);
      }
      var docs := data.value.value;
      var documents: seq<string> := [];
      for i := 0 to |docs|
        invariant |documents| == i
        invariant forall k :: 0 <= k < i ==> documents[k] == docs[k].text
      {
        documents := documents + [docs[i].text];
      }
      assert documents == DocumentTextsOf(docs);
      r := Success(documents);
    }
  }
}
