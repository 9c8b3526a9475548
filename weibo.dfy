/**
 * `Nlpcc2012WeiboSa._load_data` (data_adapter/data_object.py, lines 284-357): the
 * NLPCC 2012 Weibo corpus. Each `<weibo>` becomes a document whose text is the
 * concatenation of its sentences; an opinionated sentence carries its numbered targets
 * `target_word_1`, `target_begin_1`, ... as aspect terms. Train and dev are a seeded
 * split of these documents; test comes from the processed "sonar" files, one sentence
 * per line, marked 'other' when an annotated opinion snippet occurs in it.
 * The markup parser and the directory listing are left out: the loader is given the
 * parsed tags and the lines of the test files.
 */
module Weibo {
  import opened Wrappers
  import opened Strings
  import opened Records
  import opened Splits

  /** A parsed `<sentence>` tag: its attributes and its text. */
  datatype SentenceTag = SentenceTag(attributes: map<string, string>, text: string)

  /** A parsed `<weibo>` tag. */
  datatype WeiboTag = WeiboTag(attributes: map<string, string>, sentences: seq<SentenceTag>)

  /** One processed test file: its lines and the lines of its `.ann` companion. */
  datatype TestFile = TestFile(lines: seq<string>, annotationLines: seq<string>)

  // ---------------------------------------------------------------------------
  // The numbered targets of one sentence
  // ---------------------------------------------------------------------------

  function WordKey(n: nat): string { "target_word_" + NatToString(n) }
  function BeginKey(n: nat): string { "target_begin_" + NatToString(n) }
  function EndKey(n: nat): string { "target_end_" + NatToString(n) }
  function PolarityKey(n: nat): string { "target_polarity_" + NatToString(n) }

  /** Different cursors name different attributes. */
  lemma {:induction false} WordKeyInjective(a: nat, b: nat)
    requires WordKey(a) == WordKey(b)
    ensures a == b
  {
    var p := "target_word_";
    assert NatToString(a) == WordKey(a)[|p|..];
    assert NatToString(b) == WordKey(b)[|p|..];
    NatToStringInjective(a, b);
  }

  /** `tag.get('target_word_%d' % n, '')` is a non-empty word. */
  predicate HasTarget(attributes: map<string, string>, n: nat) {
    WordKey(n) in attributes && attributes[WordKey(n)] != ""
  }

  /** The word attributes of the cursors before `n`. */
  function KeysBefore(n: nat): set<string> {
    set j | 1 <= j < n :: WordKey(j)
  }

  /** The attributes not yet visited shrink at every iteration of the target loop. */
  lemma {:induction false} KeysShrink(attributes: map<string, string>, n: nat)
    requires n >= 1 && WordKey(n) in attributes
    ensures attributes.Keys - KeysBefore(n + 1) < attributes.Keys - KeysBefore(n)
  {
    assert KeysBefore(n + 1) == KeysBefore(n) + {WordKey(n)};
    if WordKey(n) in KeysBefore(n) {
      var j :| 1 <= j < n && WordKey(j) == WordKey(n);
      WordKeyInjective(j, n);
    }
  }

  /** `int(tag.get(key))`: TypeError when the attribute is missing, ValueError when it is not
      a number. */
  function IntAttribute(attributes: map<string, string>, key: string): (r: Result<int>)
    ensures key !in attributes ==> r == Failure(TypeError)
    ensures key in attributes ==> r == ParseInt(attributes[key])
  {
    match Get(attributes, key)
    case None => Failure(TypeError)
    case Some(v) => ParseInt(v)
  }

  /** Target `n` as an aspect term; the recorded end is inclusive, so one is added. */
  function TargetTerm(attributes: map<string, string>, n: nat): (r: Result<AspectTerm>)
    requires HasTarget(attributes, n)
    ensures r.Success? <==> IntAttribute(attributes, BeginKey(n)).Success? && IntAttribute(attributes, EndKey(n)).Success?
    ensures r.Success? ==>
              && r.value.term == attributes[WordKey(n)]
              && r.value.fromIndex == IntAttribute(attributes, BeginKey(n)).value
              && r.value.toIndex == IntAttribute(attributes, EndKey(n)).value + 1
              && r.value.polarity == Get(attributes, PolarityKey(n))
              && r.value.category.None?
  {
    match IntAttribute(attributes, BeginKey(n))
    case Failure(e) => Failure(e)
    case Success(begin) =>
      match IntAttribute(attributes, EndKey(n))
      case Failure(e) => Failure(e)
      case Success(end) => Success(AspectTerm(attributes[WordKey(n)], Get(attributes, PolarityKey(n)), begin, end + 1, None))
  }

  /** The targets from cursor `n` on, up to the first cursor whose word is missing or
      empty. */
  function Targets(attributes: map<string, string>, n: nat): Result<seq<AspectTerm>>
    requires n >= 1
    decreases attributes.Keys - KeysBefore(n)
  {
    if !HasTarget(attributes, n) then Success([])
    else
      KeysShrink(attributes, n);
      match TargetTerm(attributes, n)
      case Failure(e) => Failure(e)
      case Success(t) => Prepend([t], Targets(attributes, n + 1))
  }

  /** One step of the target list: a present word puts its term in front of the rest. */
  lemma {:induction false} TargetsUnfold(attributes: map<string, string>, n: nat)
    requires n >= 1 && HasTarget(attributes, n) && TargetTerm(attributes, n).Success?
    ensures Targets(attributes, n) == Prepend([TargetTerm(attributes, n).value], Targets(attributes, n + 1))
  {
  }

  /** `xs` are the terms of the targets numbered from `n` on, one per cursor. */
  predicate TermsFrom(attributes: map<string, string>, n: nat, xs: seq<AspectTerm>) {
    forall i :: 0 <= i < |xs| ==> TermAt(attributes, n + i, xs[i])
  }

  /** Target `j` is present and reads as `x`. */
  predicate TermAt(attributes: map<string, string>, j: nat, x: AspectTerm) {
    HasTarget(attributes, j) && TargetTerm(attributes, j) == Success(x)
  }

  /** Targets `n` to `k` all well formed, and no word `k + 1`: exactly those terms, in
      cursor order. */
  lemma {:induction false} TargetsInOrder(attributes: map<string, string>, n: nat, k: nat)
    requires 1 <= n <= k + 1
    requires forall j :: n <= j <= k ==> HasTarget(attributes, j) && TargetTerm(attributes, j).Success?
    requires !HasTarget(attributes, k + 1)
    ensures Targets(attributes, n).Success?
    ensures |Targets(attributes, n).value| == k + 1 - n
    ensures TermsFrom(attributes, n, Targets(attributes, n).value)
    decreases k + 1 - n
  {
    if n <= k {
      assert HasTarget(attributes, n);
      TargetsInOrder(attributes, n + 1, k);
      var rest := Targets(attributes, n + 1).value;
      var t := TargetTerm(attributes, n).value;
      TargetsUnfold(attributes, n);
      TargetsCons(attributes, n, t, rest);
    }
  }

  /** The pointwise shape of one more target in front. */
  lemma {:induction false} TargetsCons(attributes: map<string, string>, n: nat, t: AspectTerm, rest: seq<AspectTerm>)
    requires HasTarget(attributes, n) && TargetTerm(attributes, n) == Success(t)
    requires TermsFrom(attributes, n + 1, rest)
    ensures TermsFrom(attributes, n, [t] + rest)
  {
    var all := [t] + rest;
    assert TermAt(attributes, n, t);
    forall i | 0 <= i < |all| ensures TermAt(attributes, n + i, all[i]) {
      if i > 0 {
        assert all[i] == rest[i - 1];
        assert TermAt(attributes, n + 1 + (i - 1), rest[i - 1]);
      }
    }
  }

  /** Every term read is the term of some target whose word is present, in cursor order
      from the first. */
  lemma {:induction false} TargetsAreTerms(attributes: map<string, string>, n: nat)
    requires n >= 1
    requires Targets(attributes, n).Success?
    ensures TermsFrom(attributes, n, Targets(attributes, n).value)
    decreases attributes.Keys - KeysBefore(n)
  {
    if HasTarget(attributes, n) {
      KeysShrink(attributes, n);
      TargetsUnfold(attributes, n);
      TargetsAreTerms(attributes, n + 1);
      TargetsCons(attributes, n, TargetTerm(attributes, n).value, Targets(attributes, n + 1).value);
    }
  }

  /** `while sentence_tag.get('target_word_%d' % cursor, ''): ...` */
  method ReadTargets(attributes: map<string, string>) returns (r: Result<seq<AspectTerm>>)
    ensures r == Targets(attributes, 1)
  {
    var terms: seq<AspectTerm> := [];
    var cursor := 1;
    PrependNothing(Targets(attributes, 1));
    while GetOr(attributes, WordKey(cursor), "") != ""
      invariant GetOr(attributes, WordKey(cursor), "") != "" <==> HasTarget(attributes, cursor)
      invariant cursor >= 1
      invariant Targets(attributes, 1) == Prepend(terms, Targets(attributes, cursor))
      decreases attributes.Keys - KeysBefore(cursor)
    {
      KeysShrink(attributes, cursor);
      var term := TargetTerm(attributes, cursor);
      if term.Failure? {
        return Failure(term.error);
      }
      PrependSnoc(terms, term.value, Targets(attributes, cursor + 1));
      terms := terms + [term.value];
      cursor := cursor + 1;
    }
    assert terms + [] == terms;
    r := Success(terms);
  }

  // ---------------------------------------------------------------------------
  // Sentences and documents
  // ---------------------------------------------------------------------------

  /** One `<sentence>` tag starting at `start` in its weibo's text: an opinionated one
      (`opinionated="Y"`) carries its polarity and targets, any other has neither. */
  function SentenceOf(tag: SentenceTag, start: int): (r: Result<AbsaSentence>)
    ensures r.Success? ==> r.value.text == tag.text && r.value.startIndexInDoc == start
    ensures r.Success? ==> r.value.sampleId == GetOr(tag.attributes, "id", "")
    ensures GetOr(tag.attributes, "opinionated", "") != "Y" ==>
              r == Success(AbsaSentence(tag.text, None, None, Some([]), GetOr(tag.attributes, "id", ""), start))
    ensures GetOr(tag.attributes, "opinionated", "") == "Y" ==>
              (r.Failure? <==> Targets(tag.attributes, 1).Failure?)
              && (r.Success? ==> r.value.polarity == Get(tag.attributes, "polarity")
                                 && r.value.aspectTerms == Some(Targets(tag.attributes, 1).value))
  {
    var id := GetOr(tag.attributes, "id", "");
    if GetOr(tag.attributes, "opinionated", "") == "Y" then
      match Targets(tag.attributes, 1)
      case Failure(e) => Failure(e)
      case Success(terms) => Success(AbsaSentence(tag.text, Get(tag.attributes, "polarity"), None, Some(terms), id, start))
    else Success(AbsaSentence(tag.text, None, None, Some([]), id, start))
  }

  function TagTexts(tags: seq<SentenceTag>): (r: seq<string>)
    ensures |r| == |tags| && forall i :: 0 <= i < |tags| ==> r[i] == tags[i].text
  {
    seq(|tags|, i requires 0 <= i < |tags| => tags[i].text)
  }

  /** The sentences of a weibo from `start` on; each starts where the previous ends. */
  function SentencesFrom(tags: seq<SentenceTag>, start: int): Result<seq<AbsaSentence>>
    decreases |tags|
  {
    if tags == [] then Success([])
    else
      match SentenceOf(tags[0], start)
      case Failure(e) => Failure(e)
      case Success(s) => Prepend([s], SentencesFrom(tags[1..], start + |tags[0].text|))
  }

  /** Each sentence records where its text begins in the concatenation. */
  lemma {:induction false} SentencesFromOffsets(tags: seq<SentenceTag>, start: int)
    requires SentencesFrom(tags, start).Success?
    ensures |SentencesFrom(tags, start).value| == |tags|
    ensures forall k :: 0 <= k < |tags| ==>
              && SentencesFrom(tags, start).value[k].text == tags[k].text
              && SentencesFrom(tags, start).value[k].startIndexInDoc == start + |Concat(TagTexts(tags)[..k])|
    decreases |tags|
  {
    if tags != [] {
      var rest := tags[1..];
      var next := start + |tags[0].text|;
      var first := SentenceOf(tags[0], start).value;
      assert SentencesFrom(tags, start) == Prepend([first], SentencesFrom(rest, next));
      var later := SentencesFrom(rest, next).value;
      assert SentencesFrom(tags, start).value == [first] + later;
      SentencesFromOffsets(rest, next);
      forall k | 0 <= k < |tags|
        ensures ([first] + later)[k].text == tags[k].text
        ensures ([first] + later)[k].startIndexInDoc == start + |Concat(TagTexts(tags)[..k])|
      {
        if k == 0 {
          assert TagTexts(tags)[..0] == [];
        } else {
          assert ([first] + later)[k] == later[k - 1];
          TagTextsPrefixLength(tags, k);
        }
      }
    }
  }

  /** The texts before tag `k` are the first tag's text, then those before it in the rest. */
  lemma {:induction false} TagTextsPrefixLength(tags: seq<SentenceTag>, k: nat)
    requires 0 < k < |tags|
    ensures |Concat(TagTexts(tags)[..k])| == |tags[0].text| + |Concat(TagTexts(tags[1..])[..k - 1])|
  {
    assert TagTexts(tags)[..k][1..] == TagTexts(tags[1..])[..k - 1];
  }

  /** A `<weibo>` tag as a document. */
  function WeiboDocument(tag: WeiboTag): Result<AbsaDocument> {
    match SentencesFrom(tag.sentences, 0)
    case Failure(e) => Failure(e)
    case Success(ss) => Success(AbsaDocument(Concat(TagTexts(tag.sentences)), None, None, None, Some(ss), GetOr(tag.attributes, "id", "")))
  }

  /** Each sentence's recorded start locates its text inside the document text. */
  lemma {:induction false} WeiboSentencesLocated(tag: WeiboTag)
    requires WeiboDocument(tag).Success?
    ensures var d := WeiboDocument(tag).value;
            forall s :: s in d.absaSentences.value ==>
              0 <= s.startIndexInDoc && s.startIndexInDoc + |s.text| <= |d.text|
              && d.text[s.startIndexInDoc..s.startIndexInDoc + |s.text|] == s.text
  {
    var ss := WeiboDocument(tag).value.absaSentences.value;
    forall s | s in ss
      ensures 0 <= s.startIndexInDoc && s.startIndexInDoc + |s.text| <= |WeiboDocument(tag).value.text|
      ensures WeiboDocument(tag).value.text[s.startIndexInDoc..s.startIndexInDoc + |s.text|] == s.text
    {
      var k :| 0 <= k < |ss| && ss[k] == s;
      SentenceLocatedAt(tag, k);
    }
  }

  /** The `k`-th sentence of a weibo sits at its recorded start. */
  lemma {:induction false} SentenceLocatedAt(tag: WeiboTag, k: nat)
    requires WeiboDocument(tag).Success?
    requires k < |WeiboDocument(tag).value.absaSentences.value|
    ensures var d := WeiboDocument(tag).value;
            var s := d.absaSentences.value[k];
            0 <= s.startIndexInDoc && s.startIndexInDoc + |s.text| <= |d.text|
            && d.text[s.startIndexInDoc..s.startIndexInDoc + |s.text|] == s.text
  {
    var texts := TagTexts(tag.sentences);
    var ss := SentencesFrom(tag.sentences, 0).value;
    assert WeiboDocument(tag).value.text == Concat(texts);
    assert WeiboDocument(tag).value.absaSentences == Some(ss);
    SentencesFromOffsets(tag.sentences, 0);
    assert ss[k].text == texts[k] && ss[k].startIndexInDoc == |Concat(texts[..k])|;
    ConcatSlice(texts, k);
  }

  /** One step of the sentence loop: tag `i` read at `start`, then the rest. */
  lemma {:induction false} SentencesFromStep(tags: seq<SentenceTag>, i: nat, start: int)
    requires i < |tags| && SentenceOf(tags[i], start).Success?
    ensures SentencesFrom(tags[i..], start) ==
              Prepend([SentenceOf(tags[i], start).value], SentencesFrom(tags[i + 1..], start + |tags[i].text|))
  {
    assert tags[i..][0] == tags[i] && tags[i..][1..] == tags[i + 1..];
  }

  /** One `<sentence>` tag read at `start` (lines 299-316). */
  method ReadSentence(sentenceTag: SentenceTag, start: int) returns (r: Result<AbsaSentence>)
    ensures r == SentenceOf(sentenceTag, start)
  {
    var opinionated := GetOr(sentenceTag.attributes, "opinionated", "");
    var polarity: Option<string> := None;
    var terms: seq<AspectTerm> := [];
    if opinionated == "Y" {
      polarity := Get(sentenceTag.attributes, "polarity");
      var read := ReadTargets(sentenceTag.attributes);
      if read.Failure? {
        return Failure(read.error);
      }
      terms := read.value;
    }
    r := Success(AbsaSentence(sentenceTag.text, polarity, None, Some(terms), GetOr(sentenceTag.attributes, "id", ""), start));
  }

  /** Lines 294-320: the sentence loop with its running start index, then the document. */
  method ReadWeibo(tag: WeiboTag) returns (r: Result<AbsaDocument>)
    ensures r == WeiboDocument(tag)
  {
    var tags := tag.sentences;
    var sentences: seq<AbsaSentence> := [];
    var texts: seq<string> := [];
    var start := 0;
    ghost var allTexts := TagTexts(tags);
    PrependNothing(SentencesFrom(tags, 0));
    assert tags[0..] == tags;
    for i := 0 to |tags|
      invariant SentencesFrom(tags, 0) == Prepend(sentences, SentencesFrom(tags[i..], start))
      invariant |allTexts| == |tags| && texts == allTexts[..i]
      invariant start == |Concat(texts)|
    {
      var sentenceTag := tags[i];
      var read := ReadSentence(sentenceTag, start);
      if read.Failure? {
        assert tags[i..][0] == sentenceTag;
        return Failure(read.error);
      }
      var sentence := read.value;
      SentencesFromStep(tags, i, start);
      PrependSnoc(sentences, sentence, SentencesFrom(tags[i + 1..], start + |sentenceTag.text|));
      ConcatSnoc(texts, sentenceTag.text);
      assert allTexts[i] == sentenceTag.text;
      PrefixSnoc(allTexts, i);
      start := start + |sentenceTag.text|;
      sentences := sentences + [sentence];
      texts := texts + [sentenceTag.text];
    }
    assert tags[|tags|..] == [];
    assert sentences + [] == sentences;
    assert texts == allTexts;
    r := Success(AbsaDocument(Concat(texts), None, None, None, Some(sentences), GetOr(tag.attributes, "id", "")));
  }

  // ---------------------------------------------------------------------------
  // The test files
  // ---------------------------------------------------------------------------

  /** The index of the first line mentioning `root_text_begin`, or the number of lines. */
  function TextEnd(lines: seq<string>): (n: nat)
    ensures n <= |lines|
    ensures forall i :: 0 <= i < n ==> !Contains(lines[i], "root_text_begin")
    ensures n < |lines| ==> Contains(lines[n], "root_text_begin")
    decreases |lines|
  {
    if lines == [] then 0
    else if Contains(lines[0], "root_text_begin") then 0
    else 1 + TextEnd(lines[1..])
  }

  /** Lines 335-341: the text lines of a test file, after its header line and before the
      first marker line. */
  method TextLines(fileLines: seq<string>) returns (lines: seq<string>)
    ensures var body := if fileLines == [] then [] else fileLines[1..];
            lines == body[..TextEnd(body)]
  {
    var temp := if fileLines == [] then [] else fileLines[1..];
    var end := |temp|;
    for i := 0 to |temp|
      invariant forall j :: 0 <= j < i ==> !Contains(temp[j], "root_text_begin")
    {
      if Contains(temp[i], "root_text_begin") {
        end := i;
        break;
      }
    }
    assert end == TextEnd(temp);
    lines := temp[..end];
  }

  /** `[line.split('\t')[2] for line in test_ann_lines if len(line) != 0]`: IndexError for
      a non-empty line with fewer than three tab-separated fields. */
  function Snippets(annotationLines: seq<string>): Result<seq<string>>
    decreases |annotationLines|
  {
    if annotationLines == [] then Success([])
    else
      match Snippets(annotationLines[..|annotationLines| - 1])
      case Failure(e) => Failure(e)
      case Success(acc) =>
        var line := annotationLines[|annotationLines| - 1];
        if line == "" then Success(acc)
        else
          var fields := SplitOn(line, '\t');
          if |fields| < 3 then Failure(IndexError) else Success(acc + [fields[2]])
  }

  /** The snippet of a standard annotation line `id \t label \t snippet` is its third
      field. */
  lemma {:induction false} SnippetOfAnnotation(id: string, kind: string, snippet: string)
    requires '\t' !in id && '\t' !in kind && '\t' !in snippet
    ensures Snippets([id + "\t" + kind + "\t" + snippet]) == Success([snippet])
  {
    var line := id + "\t" + kind + "\t" + snippet;
    var tail := kind + ['\t'] + snippet;
    assert line == id + ['\t'] + tail;
    SplitOnConcat(id, '\t', tail);
    SplitOnConcat(kind, '\t', snippet);
    assert SplitOn(snippet, '\t') == [snippet];
    assert SplitOn(line, '\t') == [id, kind, snippet];
    assert line != "";
    var single := [line];
    assert single[..|single| - 1] == [];
    assert single[|single| - 1] == line;
    assert Snippets(single) == Success([] + [snippet]);
    assert [] + [snippet] == [snippet];
  }

  /** The polarity of a test line: 'other' when some snippet occurs in it. */
  function LinePolarity(snippets: seq<string>, line: string): (r: Option<string>)
    ensures r == Some("other") <==> exists k :: 0 <= k < |snippets| && Contains(line, snippets[k])
    ensures r.None? <==> forall k :: 0 <= k < |snippets| ==> !Contains(line, snippets[k])
  {
    if exists k :: 0 <= k < |snippets| && Contains(line, snippets[k]) then Some("other") else None
  }

  /** The test document of one file. */
  function TestDocument(file: TestFile): Result<AbsaDocument> {
    var body := if file.lines == [] then [] else file.lines[1..];
    var lines := body[..TextEnd(body)];
    match Snippets(file.annotationLines)
    case Failure(e) => Failure(e)
    case Success(snippets) =>
      Success(AbsaDocument(Concat(lines), None, None, None, Some(LineSentences(snippets, lines)), ""))
  }

  /** One sentence per text line, with the polarity its snippets give it. */
  function LineSentences(snippets: seq<string>, lines: seq<string>): seq<AbsaSentence> {
    seq(|lines|, i requires 0 <= i < |lines| => Sentence(lines[i], LinePolarity(snippets, lines[i]), None, None))
  }

  /** The snippet comprehension as a loop. */
  method ReadSnippets(annotationLines: seq<string>) returns (r: Result<seq<string>>)
    ensures r == Snippets(annotationLines)
  {
    var snippets: seq<string> := [];
    for i := 0 to |annotationLines|
      invariant Snippets(annotationLines[..i]) == Success(snippets)
    {
      PrefixSnoc(annotationLines, i);
      assert annotationLines[..i + 1][..i] == annotationLines[..i];
      var line := annotationLines[i];
      if |line| != 0 {
        var fields := SplitOn(line, '\t');
        if |fields| < 3 {
          assert Snippets(annotationLines[..i + 1]) == Failure(IndexError);
          SnippetsFailurePersists(annotationLines, i + 1);
          return Failure(IndexError);
        }
        snippets := snippets + [fields[2]];
      }
    }
    assert annotationLines[..|annotationLines|] == annotationLines;
    r := Success(snippets);
  }

  lemma {:induction false} SnippetsFailurePersists(lines: seq<string>, j: nat)
    requires j <= |lines| && Snippets(lines[..j]).Failure?
    ensures Snippets(lines) == Snippets(lines[..j])
    decreases |lines|
  {
    if j < |lines| {
      var init := lines[..|lines| - 1];
      assert init[..j] == lines[..j];
      SnippetsFailurePersists(init, j);
    } else {
      assert lines[..j] == lines;
    }
  }

  /** `for opinion_snippet in opinion_snippets: if opinion_snippet in test_line: ... break`. */
  method PolarityOfLine(snippets: seq<string>, line: string) returns (polarity: Option<string>)
    ensures polarity == LinePolarity(snippets, line)
  {
    polarity := None;
    for k := 0 to |snippets|
      invariant forall j :: 0 <= j < k ==> !Contains(line, snippets[j])
    {
      if Contains(line, snippets[k]) {
        polarity := Some("other");
        break;
      }
    }
  }

  /** Lines 335-357 for one test file. */
  method ReadTestFile(file: TestFile) returns (r: Result<AbsaDocument>)
    ensures r == TestDocument(file)
  {
    var lines := TextLines(file.lines);
    var snippets := ReadSnippets(file.annotationLines);
    if snippets.Failure? {
      return Failure(snippets.error);
    }
    ghost var expected := LineSentences(snippets.value, lines);
    var sentences: seq<AbsaSentence> := [];
    for i := 0 to |lines|
      invariant sentences == expected[..i]
    {
      var polarity := PolarityOfLine(snippets.value, lines[i]);
      PrefixSnoc(expected, i);
      sentences := sentences + [Sentence(lines[i], polarity, None, None)];
    }
    assert expected[..|lines|] == expected;
    var texts := seq(|sentences|, j requires 0 <= j < |sentences| => sentences[j].text);
    assert texts == lines;
    r := Success(AbsaDocument(Concat(texts), None, None, None, Some(sentences), ""));
  }

  /** A test document's sentences are its text lines, in order, and its text is their
      concatenation. */
  lemma {:induction false} TestDocumentShape(file: TestFile)
    requires TestDocument(file).Success?
    ensures var body := if file.lines == [] then [] else file.lines[1..];
            var d := TestDocument(file).value;
            && |d.absaSentences.value| == TextEnd(body)
            && (forall i :: 0 <= i < TextEnd(body) ==> d.absaSentences.value[i].text == body[i])
            && d.text == Concat(body[..TextEnd(body)])
            && (forall i :: 0 <= i < TextEnd(body) ==> d.absaSentences.value[i].aspectTerms.None?)
  {
    var body := if file.lines == [] then [] else file.lines[1..];
    var lines := body[..TextEnd(body)];
    var snippets := Snippets(file.annotationLines).value;
    var sentences := LineSentences(snippets, lines);
    assert TestDocument(file) == Success(AbsaDocument(Concat(lines), None, None, None, Some(sentences), ""));
    forall i | 0 <= i < TextEnd(body)
      ensures sentences[i].text == body[i] && sentences[i].aspectTerms.None?
    {
      assert lines[i] == body[i];
    }
  }

  // ---------------------------------------------------------------------------
  // The corpus
  // ---------------------------------------------------------------------------

  /** Every `<weibo>` tag of the training files, in order, as documents. */
  function WeiboDocuments(tags: seq<WeiboTag>): Result<seq<AbsaDocument>>
    decreases |tags|
  {
    if tags == [] then Success([])
    else
      match WeiboDocuments(tags[..|tags| - 1])
      case Failure(e) => Failure(e)
      case Success(acc) =>
        match WeiboDocument(tags[|tags| - 1])
        case Failure(e) => Failure(e)
        case Success(d) => Success(acc + [d])
  }

  function TestDocuments(files: seq<TestFile>): Result<seq<AbsaDocument>>
    decreases |files|
  {
    if files == [] then Success([])
    else
      match TestDocuments(files[..|files| - 1])
      case Failure(e) => Failure(e)
      case Success(acc) =>
        match TestDocument(files[|files| - 1])
        case Failure(e) => Failure(e)
        case Success(d) => Success(acc + [d])
  }

  lemma {:induction false} WeiboDocumentsFailurePersists(tags: seq<WeiboTag>, j: nat)
    requires j <= |tags| && WeiboDocuments(tags[..j]).Failure?
    ensures WeiboDocuments(tags) == WeiboDocuments(tags[..j])
    decreases |tags|
  {
    if j < |tags| {
      var init := tags[..|tags| - 1];
      assert init[..j] == tags[..j];
      WeiboDocumentsFailurePersists(init, j);
    } else {
      assert tags[..j] == tags;
    }
  }

  lemma {:induction false} TestDocumentsFailurePersists(files: seq<TestFile>, j: nat)
    requires j <= |files| && TestDocuments(files[..j]).Failure?
    ensures TestDocuments(files) == TestDocuments(files[..j])
    decreases |files|
  {
    if j < |files| {
      var init := files[..|files| - 1];
      assert init[..j] == files[..j];
      TestDocumentsFailurePersists(init, j);
    } else {
      assert files[..j] == files;
    }
  }

  /** The `{train, dev, test}` triple `_load_data` returns: train and dev split 80/20 from
      the weibo documents with the configured seed, test from the test files. */
  function WeiboCorpus(tags: seq<WeiboTag>, seed: int, split: Splitter<AbsaDocument>, files: seq<TestFile>)
    : (r: Result<Partitions<AbsaDocument>>)
    ensures r.Success? ==> r.value.train.Some? && r.value.dev.Some? && r.value.test.Some?
    ensures r.Success? ==> WeiboDocuments(tags).Success? && split(WeiboDocuments(tags).value, Some(0.2), Some(seed)) == Some((r.value.train.value, r.value.dev.value))
  {
    match WeiboDocuments(tags)
    case Failure(e) => Failure(e)
    case Success(samples) =>
      match split(samples, Some(0.2), Some(seed))
      case None => Failure(ValueError)
      case Some(parts) =>
        match TestDocuments(files)
        case Failure(e) => Failure(e)
        case Success(test) => Success(Partitions(Some(parts.0), Some(parts.1), Some(test)))
  }

  method LoadData(tags: seq<WeiboTag>, seed: int, split: Splitter<AbsaDocument>, files: seq<TestFile>)
    returns (r: Result<Partitions<AbsaDocument>>)
    ensures r == WeiboCorpus(tags, seed, split, files)
  {
    var samples: seq<AbsaDocument> := [];
    for i := 0 to |tags|
      invariant WeiboDocuments(tags[..i]) == Success(samples)
    {
      PrefixSnoc(tags, i);
      assert tags[..i + 1][..i] == tags[..i];
      var d := ReadWeibo(tags[i]);
      if d.Failure? {
        WeiboDocumentsFailurePersists(tags, i + 1);
        return Failure(d.error);
      }
      samples := samples + [d.value];
    }
    assert tags[..|tags|] == tags;
    var parts := split(samples, Some(0.2), Some(seed));
    if parts.None? {
      return Failure(ValueError);
    }
    var test: seq<AbsaDocument> := [];
    for i := 0 to |files|
      invariant TestDocuments(files[..i]) == Success(test)
    {
      PrefixSnoc(files, i);
      assert files[..i + 1][..i] == files[..i];
      var d := ReadTestFile(files[i]);
      if d.Failure? {
        TestDocumentsFailurePersists(files, i + 1);
        return Failure(d.error);
      }
      test := test + [d.value];
    }
    assert files[..|files|] == files;
    r := Success(Partitions(Some(parts.value.0), Some(parts.value.1), Some(test)));
  }
}
