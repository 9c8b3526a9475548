/**
 * The three newline normalisations the label derivation applies to a sentence or
 * document text before it becomes a sample's content:
 *   `re.sub('[\r\n]', '', s)`   (term task)                 DeleteNewlines
 *   `re.sub('[\r\n]', ' ', s)`  (most category tasks)       NewlinesToSpaces
 *   `re.sub('[\r\n]+', ' ', s)` (reconciled and dropped     CollapseNewlines
 *                                 category pairs)
 */
module Normalise {

  predicate IsNewline(c: char) {
    c == '\r' || c == '\n'
  }

  predicate NoNewlines(s: string) {
    forall i :: 0 <= i < |s| ==> !IsNewline(s[i])
  }

  /** The number of carriage returns and line feeds in `s`. */
  function NewlineCount(s: string): nat {
    if s == [] then 0 else (if IsNewline(s[0]) then 1 else 0) + NewlineCount(s[1..])
  }

  /** Deletes every '\r' and '\n'; the other characters keep their order. */
  function DeleteNewlines(s: string): (r: string)
    ensures NoNewlines(r)
    ensures |r| == |s| - NewlineCount(s)
  {
    if s == [] then []
    else if IsNewline(s[0]) then DeleteNewlines(s[1..])
    else [s[0]] + DeleteNewlines(s[1..])
  }

  /** Replaces every '\r' and '\n' by one space. */
  function NewlinesToSpaces(s: string): (r: string)
    ensures |r| == |s| && NoNewlines(r)
  {
    seq(|s|, i requires 0 <= i < |s| => if IsNewline(s[i]) then ' ' else s[i])
  }

  /** The suffix of `s` after its leading run of newline characters. */
  function DropNewlineRun(s: string): (r: string)
    ensures |r| <= |s| && r == s[|s| - |r|..]
    ensures r == [] || !IsNewline(r[0])
  {
    if s != [] && IsNewline(s[0]) then DropNewlineRun(s[1..]) else s
  }

  /** Replaces every maximal run of '\r'/'\n' characters by one space. */
  function CollapseNewlines(s: string): (r: string)
    ensures NoNewlines(r)
    ensures |r| <= |s|
    decreases |s|
  {
    if s == [] then []
    else if IsNewline(s[0]) then [' '] + CollapseNewlines(DropNewlineRun(s))
    else [s[0]] + CollapseNewlines(s[1..])
  }

  /** On a text with no newline characters all three normalisations are the identity;
      in particular each of them is idempotent. */
  lemma {:induction false} NormalisationsFixNewlineFree(s: string)
    requires NoNewlines(s)
    ensures DeleteNewlines(s) == s
    ensures NewlinesToSpaces(s) == s
    ensures CollapseNewlines(s) == s
  {
    if s != [] {
      assert !IsNewline(s[0]);
      NormalisationsFixNewlineFree(s[1..]);
      assert s == [s[0]] + s[1..];
    }
  }

  lemma {:induction false} NormalisationsIdempotent(s: string)
    ensures DeleteNewlines(DeleteNewlines(s)) == DeleteNewlines(s)
    ensures NewlinesToSpaces(NewlinesToSpaces(s)) == NewlinesToSpaces(s)
    ensures CollapseNewlines(CollapseNewlines(s)) == CollapseNewlines(s)
  {
    NormalisationsFixNewlineFree(DeleteNewlines(s));
    NormalisationsFixNewlineFree(NewlinesToSpaces(s));
    NormalisationsFixNewlineFree(CollapseNewlines(s));
  }

  /** No two adjacent newline characters. */
  predicate NoNewlinePairs(s: string) {
    forall i :: 0 <= i < |s| - 1 ==> !(IsNewline(s[i]) && IsNewline(s[i + 1]))
  }

  /** Replacing characters one by one: the first character, then the rest. */
  lemma {:induction false} NewlinesToSpacesCons(s: string)
    requires s != []
    ensures NewlinesToSpaces(s) == [if IsNewline(s[0]) then ' ' else s[0]] + NewlinesToSpaces(s[1..])
  {
    var head := [if IsNewline(s[0]) then ' ' else s[0]];
    assert forall i :: 0 < i < |s| ==> NewlinesToSpaces(s)[i] == NewlinesToSpaces(s[1..])[i - 1];
    assert NewlinesToSpaces(s) == head + NewlinesToSpaces(s[1..]);
  }

  /** Collapsing runs differs from replacing each character only where a run is longer
      than one: on texts without adjacent newline characters the two agree. */
  lemma {:induction false} CollapseIsReplaceOnSingleNewlines(s: string)
    requires NoNewlinePairs(s)
    ensures CollapseNewlines(s) == NewlinesToSpaces(s)
    decreases |s|
  {
    if s != [] {
      var rest := s[1..];
      assert NoNewlinePairs(rest) by {
        forall i | 0 <= i < |rest| - 1 ensures !(IsNewline(rest[i]) && IsNewline(rest[i + 1])) {
          assert rest[i] == s[i + 1] && rest[i + 1] == s[i + 2];
        }
      }
      CollapseIsReplaceOnSingleNewlines(rest);
      NewlinesToSpacesCons(s);
      if IsNewline(s[0]) {
        if rest != [] {
          assert !(IsNewline(s[0]) && IsNewline(s[1]));
          assert rest[0] == s[1];
        }
        assert DropNewlineRun(rest) == rest;
        assert CollapseNewlines(s) == [' '] + CollapseNewlines(rest);
      } else {
        assert CollapseNewlines(s) == [s[0]] + CollapseNewlines(rest);
      }
    }
  }

  /** What collapsing does to the first character. */
  lemma {:induction false} CollapseCons(c: char, s: string)
    ensures !IsNewline(c) ==> CollapseNewlines([c] + s) == [c] + CollapseNewlines(s)
    ensures IsNewline(c) ==> CollapseNewlines([c] + s) == [' '] + CollapseNewlines(DropNewlineRun(s))
  {
    assert ([c] + s)[1..] == s;
  }

  lemma {:induction false} DropNewlineRunCons(c: char, s: string)
    ensures IsNewline(c) ==> DropNewlineRun([c] + s) == DropNewlineRun(s)
    ensures !IsNewline(c) ==> DropNewlineRun([c] + s) == [c] + s
  {
    assert ([c] + s)[1..] == s;
  }

  /** A run of two newline characters becomes one space when runs are collapsed. */
  lemma {:induction false} CollapseShortensRuns()
    ensures CollapseNewlines("\r\n") == " "
  {
    var e: string := [];
    var run := ['\n'] + e;
    DropNewlineRunCons('\n', e);
    assert DropNewlineRun(run) == e;
    CollapseCons('\r', run);
    assert CollapseNewlines(['\r'] + run) == [' '] + e;
    assert ['\r'] + run == "\r\n";
  }

  /** Replacing character by character turns the same run into two spaces. */
  lemma {:induction false} ReplaceKeepsRuns()
    ensures NewlinesToSpaces("\r\n") == "  "
  {
  }

  /** What deleting does to the first character. */
  lemma {:induction false} DeleteCons(c: char, s: string)
    ensures !IsNewline(c) ==> DeleteNewlines([c] + s) == [c] + DeleteNewlines(s)
    ensures IsNewline(c) ==> DeleteNewlines([c] + s) == DeleteNewlines(s)
  {
    assert ([c] + s)[1..] == s;
  }

  /** Deleting removes the run altogether. */
  lemma {:induction false} DeleteRemovesRuns()
    ensures DeleteNewlines("\r\n") == ""
  {
    var e: string := [];
    DeleteCons('\n', e);
    DeleteCons('\r', ['\n'] + e);
    assert ['\r'] + (['\n'] + e) == "\r\n";
  }
}
