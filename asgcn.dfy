/**
 * `AsgcnData._load_data_by_filepath` (data_adapter/data_object.py, lines 243-273): the
 * ASGCN files list each sample on three lines — the sentence with `$T$` where the aspect
 * stands, the aspect, and the polarity code `-1`, `0` or `1` — and each sample becomes a
 * one-term sentence wrapped in a one-sentence document. Reading the files is left out:
 * the loader is given their lines.
 */
module Asgcn {
  import opened Wrappers
  import opened Strings
  import opened Records

  /** `polarity_mapping[polarity]`: KeyError for any other code. */
  function PolarityOfCode(code: string): (r: Result<string>)
    ensures r == Success("negative") <==> code == "-1"
    ensures r == Success("neutral") <==> code == "0"
    ensures r == Success("positive") <==> code == "1"
    ensures r.Failure? <==> code !in {"-1", "0", "1"}
    ensures r.Failure? ==> r.error == KeyError
  {
    if code == "-1" then Success("negative")
    else if code == "0" then Success("neutral")
    else if code == "1" then Success("positive")
    else Failure(KeyError)
  }

  /** The sentence rebuilt around the aspect with single spaces, and the aspect's span. */
  datatype Placement = Placement(text: string, fromIndex: nat, toIndex: nat)

  /** Lines 254-265: `left aspect right`, leaving out an empty side and its space. The
      recorded span always holds the aspect, so the consistency check of lines 266-267
      never fires. */
  function PlaceAspect(left: string, aspect: string, right: string): (r: Placement)
    ensures r.fromIndex <= r.toIndex <= |r.text|
    ensures r.text[r.fromIndex..r.toIndex] == aspect
    ensures r.toIndex - r.fromIndex == |aspect|
    ensures left == "" ==> r.fromIndex == 0
    ensures left != "" ==> r.fromIndex == |left| + 1 && r.text[..|left|] == left && r.text[|left|] == ' '
    ensures right == "" ==> r.toIndex == |r.text|
    ensures right != "" ==> r.toIndex < |r.text| && r.text[r.toIndex] == ' ' && r.text[r.toIndex + 1..] == right
  {
    var head := if left != "" then left + " " + aspect else aspect;
    var from := if left != "" then |left| + 1 else 0;
    var text := if right != "" then head + " " + right else head;
    assert head[from..] == aspect;
    assert text[..|head|] == head;
    Placement(text, from, from + |aspect|)
  }

  /** `[s.lower().strip() for s in line.partition("$T$")]`: the two sides of the
      placeholder (the separator itself is discarded). */
  function Sides(line: string): (r: (string, string))
  {
    var parts := Partition(line, "$T$");
    (Strip(Lower(parts.0)), Strip(Lower(parts.2)))
  }

  /** One three-line group as a sentence. */
  function GroupSentence(sentenceLine: string, aspectLine: string, polarityLine: string): (r: Result<AbsaSentence>)
    ensures r.Failure? <==> PolarityOfCode(Strip(polarityLine)).Failure?
    ensures r.Failure? ==> r.error == KeyError
    ensures r.Success? ==>
              && r.value.aspectTerms.Some? && |r.value.aspectTerms.value| == 1
              && r.value.aspectTerms.value[0].term == Strip(Lower(aspectLine))
              && r.value.aspectTerms.value[0].polarity == Some(PolarityOfCode(Strip(polarityLine)).value)
              && r.value.aspectTerms.value[0].category.None?
              && r.value.aspectCategories.None?
  {
    var (left, right) := Sides(sentenceLine);
    var aspect := Strip(Lower(aspectLine));
    match PolarityOfCode(Strip(polarityLine))
    case Failure(e) => Failure(e)
    case Success(polarity) =>
      var placed := PlaceAspect(left, aspect, right);
      var term := AspectTerm(aspect, Some(polarity), placed.fromIndex, placed.toIndex, None);
      Success(Sentence(placed.text, None, None, Some([term])))
  }

  /** The term of every loaded sentence marks the aspect inside the sentence text. */
  lemma {:induction false} GroupSentenceSpan(sentenceLine: string, aspectLine: string, polarityLine: string)
    requires GroupSentence(sentenceLine, aspectLine, polarityLine).Success?
    ensures var s := GroupSentence(sentenceLine, aspectLine, polarityLine).value;
            var t := s.aspectTerms.value[0];
            0 <= t.fromIndex <= t.toIndex <= |s.text| && s.text[t.fromIndex..t.toIndex] == t.term
  {
  }

  /** The sentences of a file, group by group; a trailing group of one or two lines
      raises IndexError at `lines[i + 1]` or `lines[i + 2]`. */
  function FileSentences(lines: seq<string>): Result<seq<AbsaSentence>>
    decreases |lines|
  {
    if lines == [] then Success([])
    else if |lines| < 3 then Failure(IndexError)
    else
      match GroupSentence(lines[0], lines[1], lines[2])
      case Failure(e) => Failure(e)
      case Success(s) =>
        match FileSentences(lines[3..])
        case Failure(e) => Failure(e)
        case Success(rest) => Success([s] + rest)
  }

  /** A file of `g` complete groups whose codes are all valid loads, one sentence per
      group. */
  lemma {:induction false} FileSentencesCount(lines: seq<string>, g: nat)
    requires |lines| == 3 * g
    requires forall j :: 0 <= j < g ==> Strip(lines[3 * j + 2]) in {"-1", "0", "1"}
    ensures FileSentences(lines).Success? && |FileSentences(lines).value| == g
    decreases g
  {
    if g > 0 {
      assert Strip(lines[3 * 0 + 2]) in {"-1", "0", "1"};
      assert GroupSentence(lines[0], lines[1], lines[2]).Success?;
      ValidCodesOfRest(lines, g);
      FileSentencesCount(lines[3..], g - 1);
      FileSentencesStep(lines, 0);
      assert lines[0..] == lines;
    }
  }

  /** The groups after the first keep their valid codes. */
  lemma {:induction false} ValidCodesOfRest(lines: seq<string>, g: nat)
    requires g > 0 && |lines| == 3 * g
    requires forall j :: 0 <= j < g ==> Strip(lines[3 * j + 2]) in {"-1", "0", "1"}
    ensures forall j :: 0 <= j < g - 1 ==> Strip(lines[3..][3 * j + 2]) in {"-1", "0", "1"}
  {
    forall j | 0 <= j < g - 1 ensures Strip(lines[3..][3 * j + 2]) in {"-1", "0", "1"} {
      assert lines[3..][3 * j + 2] == lines[3 * (j + 1) + 2];
    }
  }

  /** A file of `g` groups followed by one or two more lines does not load. */
  lemma {:induction false} IncompleteFileFails(lines: seq<string>, g: nat)
    requires 3 * g < |lines| < 3 * g + 3
    ensures FileSentences(lines).Failure?
    decreases g
  {
    if g > 0 {
      IncompleteFileFails(lines[3..], g - 1);
    }
  }

  /** One group of the loop: the sentence of lines `i` to `i + 2`, then the rest. */
  lemma {:induction false} FileSentencesStep(lines: seq<string>, i: nat)
    requires i + 2 < |lines|
    ensures GroupSentence(lines[i], lines[i + 1], lines[i + 2]).Failure? ==>
              FileSentences(lines[i..]) == Failure(GroupSentence(lines[i], lines[i + 1], lines[i + 2]).error)
    ensures GroupSentence(lines[i], lines[i + 1], lines[i + 2]).Success? ==>
              FileSentences(lines[i..]) == Prepend([GroupSentence(lines[i], lines[i + 1], lines[i + 2]).value], FileSentences(lines[i + 3..]))
  {
    assert lines[i..][3..] == lines[i + 3..];
  }

  /** The loop of lines 253-270 over the groups of three lines. */
  method ReadSentences(lines: seq<string>) returns (r: Result<seq<AbsaSentence>>)
    ensures r == FileSentences(lines)
  {
    var sentences: seq<AbsaSentence> := [];
    var i := 0;
    assert lines[i..] == lines;
    PrependNothing(FileSentences(lines));
    while i < |lines|
      invariant i <= |lines|
      invariant FileSentences(lines) == Prepend(sentences, FileSentences(lines[i..]))
      decreases |lines| - i
    {
      if i + 2 >= |lines| {
        assert FileSentences(lines[i..]) == Failure(IndexError);
        return Failure(IndexError);
      }
      FileSentencesStep(lines, i);
      var s := GroupSentence(lines[i], lines[i + 1], lines[i + 2]);
      if s.Failure? {
        return Failure(s.error);
      }
      PrependSnoc(sentences, s.value, FileSentences(lines[i + 3..]));
      sentences := sentences + [s.value];
      i := i + 3;
    }
    assert lines[i..] == [];
    assert sentences + [] == sentences;
    r := Success(sentences);
  }

  /** A file's sentences, each wrapped in its own document (line 271). */
  method LoadFile(lines: seq<string>) returns (r: Result<seq<AbsaDocument>>)
    ensures FileSentences(lines).Failure? ==> r == Failure(FileSentences(lines).error)
    ensures FileSentences(lines).Success? ==>
              && r.Success?
              && |r.value| == |FileSentences(lines).value|
              && forall k :: 0 <= k < |r.value| ==> r.value[k] == SingleSentenceDocument(FileSentences(lines).value[k])
  {
    var sentences := ReadSentences(lines);
    if sentences.Failure? {
      return Failure(sentences.error);
    }
    var documents: seq<AbsaDocument> := [];
    for k := 0 to |sentences.value|
      invariant |documents| == k
      invariant forall j :: 0 <= j < k ==> documents[j] == SingleSentenceDocument(sentences.value[j])
    {
      documents := documents + [SingleSentenceDocument(sentences.value[k])];
    }
    r := Success(documents);
  }

  /** The corpus: train from the first file, test from the second, no dev partition. */
  method LoadData(trainLines: seq<string>, testLines: seq<string>) returns (r: Result<Partitions<AbsaDocument>>)
    ensures FileSentences(trainLines).Failure? ==> r == Failure(FileSentences(trainLines).error)
    ensures FileSentences(trainLines).Success? && FileSentences(testLines).Failure? ==>
              r == Failure(FileSentences(testLines).error)
    ensures r.Success? ==>
              && r.value.dev.None? && r.value.train.Some? && r.value.test.Some?
              && |r.value.train.value| == |FileSentences(trainLines).value|
              && |r.value.test.value| == |FileSentences(testLines).value|
              && (forall k :: 0 <= k < |r.value.train.value| ==>
                    r.value.train.value[k] == SingleSentenceDocument(FileSentences(trainLines).value[k]))
              && (forall k :: 0 <= k < |r.value.test.value| ==>
                    r.value.test.value[k] == SingleSentenceDocument(FileSentences(testLines).value[k]))
    ensures FileSentences(trainLines).Success? && FileSentences(testLines).Success? ==> r.Success?
  {
    var train := LoadFile(trainLines);
    if train.Failure? {
      return Failure(train.error);
    }
    var test := LoadFile(testLines);
    if test.Failure? {
      return Failure(test.error);
    }
    r := Success(Partitions(Some(train.value), None, Some(test.value)));
  }
}
