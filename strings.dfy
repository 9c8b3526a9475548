/**
 * The handful of Python `str` operations the adapters rely on: `isspace`/`strip`,
 * ASCII `lower`, substring search and `partition`, `split` on one character,
 * `join`, `'%d' % n` and `int(s)`.
 */
module Strings {
  import opened Wrappers

  // ---------------------------------------------------------------------------
  // Whitespace and stripping
  // ---------------------------------------------------------------------------

  /** Python's `str.isspace()` on one character (Unicode White_Space as CPython defines it). */
  predicate IsSpace(c: char) {
    || ('\t' <= c <= '\r')
    || ('\U{1C}' <= c <= '\U{1F}')
    || c == ' '
    || c == '\U{85}'
    || c == '\U{A0}'
    || c == '\U{1680}'
    || ('\U{2000}' <= c <= '\U{200A}')
    || c == '\U{2028}'
    || c == '\U{2029}'
    || c == '\U{202F}'
    || c == '\U{205F}'
    || c == '\U{3000}'
  }

  /** `s.lstrip()`. */
  function StripLeft(s: string): string {
    if s != [] && IsSpace(s[0]) then StripLeft(s[1..]) else s
  }

  /** `s.lstrip()` drops the leading whitespace and keeps the rest. */
  lemma {:induction false} StripLeftShape(s: string)
    ensures var r := StripLeft(s);
            && |r| <= |s| && r == s[|s| - |r|..]
            && (r == [] || !IsSpace(r[0]))
            && forall i :: 0 <= i < |s| - |r| ==> IsSpace(s[i])
    decreases |s|
  {
    if s != [] && IsSpace(s[0]) {
      StripLeftShape(s[1..]);
      var r := StripLeft(s);
      forall i | 0 < i < |s| - |r| ensures IsSpace(s[i]) {
        assert s[i] == s[1..][i - 1];
      }
    }
  }

  /** `s.rstrip()`. */
  function StripRight(s: string): string {
    if s != [] && IsSpace(s[|s| - 1]) then StripRight(s[..|s| - 1]) else s
  }

  /** `s.rstrip()` drops the trailing whitespace and keeps the rest. */
  lemma {:induction false} StripRightShape(s: string)
    ensures var r := StripRight(s);
            && |r| <= |s| && r == s[..|r|]
            && (r == [] || !IsSpace(r[|r| - 1]))
            && forall i :: |r| <= i < |s| ==> IsSpace(s[i])
    decreases |s|
  {
    if s != [] && IsSpace(s[|s| - 1]) {
      StripRightShape(s[..|s| - 1]);
      var r := StripRight(s);
      forall i | |r| <= i < |s| - 1 ensures IsSpace(s[i]) {
        assert s[i] == s[..|s| - 1][i];
      }
    }
  }

  /** `s.strip()`. */
  function Strip(s: string): (r: string)
    ensures r == [] || (!IsSpace(r[0]) && !IsSpace(r[|r| - 1]))
  {
    StripLeftShape(s);
    StripRightShape(StripLeft(s));
    var r := StripRight(StripLeft(s));
    assert r != [] ==> r[0] == StripLeft(s)[0];
    r
  }

  /** A stripped string is a contiguous piece of the original with only whitespace cut off. */
  lemma {:induction false} StripIsSlice(s: string)
    ensures exists i, j ::
              && 0 <= i <= j <= |s| && Strip(s) == s[i..j]
              && (forall k :: 0 <= k < i ==> IsSpace(s[k]))
              && (forall k :: j <= k < |s| ==> IsSpace(s[k]))
  {
    var l := StripLeft(s);
    StripLeftShape(s);
    var i := |s| - |l|;
    var r := StripRight(l);
    StripRightShape(l);
    var j := i + |r|;
    assert Strip(s) == s[i..j];
    forall k | j <= k < |s| ensures IsSpace(s[k]) {
      assert s[k] == l[k - i];
    }
  }

  /** `str.lower()` on ASCII letters; other characters are kept. */
  function LowerChar(c: char): char {
    if 'A' <= c <= 'Z' then (c as int - 'A' as int + 'a' as int) as char else c
  }

  /** Same length, no ASCII capital left, every other character kept in place, and each
      capital replaced by its small letter. */
  function Lower(s: string): (r: string)
    ensures |r| == |s|
    ensures forall i :: 0 <= i < |r| ==> !('A' <= r[i] <= 'Z')
    ensures forall i :: 0 <= i < |s| && !('A' <= s[i] <= 'Z') ==> r[i] == s[i]
    ensures forall i :: 0 <= i < |s| && 'A' <= s[i] <= 'Z' ==> 'a' <= r[i] <= 'z' && r[i] as int - s[i] as int == 32
  {
    seq(|s|, i requires 0 <= i < |s| => LowerChar(s[i]))
  }

  /** Lowering twice is lowering once. */
  lemma {:induction false} LowerIdempotent(s: string)
    ensures Lower(Lower(s)) == Lower(s)
  {
  }

  // ---------------------------------------------------------------------------
  // Substrings
  // ---------------------------------------------------------------------------

  /** `p` occurs in `s` starting at index `i`. */
  predicate OccursAt(s: string, p: string, i: nat) {
    i + |p| <= |s| && s[i..i + |p|] == p
  }

  /** The first index at or after `from` where `p` occurs in `s`. */
  function FindFrom(s: string, p: string, from: nat): (r: Option<nat>)
    requires from <= |s|
    ensures r.Some? ==> from <= r.value <= |s| && OccursAt(s, p, r.value)
    ensures r.Some? ==> forall j :: from <= j < r.value ==> !OccursAt(s, p, j)
    ensures r.None? ==> forall j :: from <= j <= |s| ==> !OccursAt(s, p, j)
    decreases |s| - from
  {
    if OccursAt(s, p, from) then Some(from)
    else if from == |s| then None
    else FindFrom(s, p, from + 1)
  }

  /** `s.find(p)` as an Option: the first index where `p` occurs. */
  function Find(s: string, p: string): (r: Option<nat>)
    ensures r.Some? ==> OccursAt(s, p, r.value)
    ensures r.Some? ==> forall j :: 0 <= j < r.value ==> !OccursAt(s, p, j)
    ensures r.None? ==> forall j :: 0 <= j <= |s| ==> !OccursAt(s, p, j)
  {
    FindFrom(s, p, 0)
  }

  /** Python's `p in s` on strings. */
  predicate Contains(s: string, p: string) {
    Find(s, p).Some?
  }

  /** `p in s` holds exactly when `s` has a slice equal to `p`. */
  lemma {:induction false} ContainsIffSlice(s: string, p: string)
    ensures Contains(s, p) <==> exists i, j :: 0 <= i <= j <= |s| && s[i..j] == p
  {
    if exists i, j :: 0 <= i <= j <= |s| && s[i..j] == p {
      var i, j :| 0 <= i <= j <= |s| && s[i..j] == p;
      assert OccursAt(s, p, i);
    }
  }

  /** `s.partition(sep)`: the text before the first `sep`, `sep` itself, and the rest;
      `(s, "", "")` when `sep` does not occur. */
  function Partition(s: string, sep: string): (r: (string, string, string))
    requires sep != []
    ensures r.0 + r.1 + r.2 == s
    ensures r.1 == sep <==> Contains(s, sep)
    ensures r.1 == [] <==> !Contains(s, sep)
    ensures r.1 == sep ==> forall j :: 0 <= j < |r.0| ==> !OccursAt(s, sep, j)
  {
    match Find(s, sep)
    case Some(k) =>
      assert s == s[..k] + s[k..k + |sep|] + s[k + |sep|..];
      (s[..k], sep, s[k + |sep|..])
    case None => (s, [], [])
  }

  // ---------------------------------------------------------------------------
  // split and join on one separator character
  // ---------------------------------------------------------------------------

  /** The first index of `d` in `s`. */
  function IndexOf(s: string, d: char): (k: nat)
    requires d in s
    ensures k < |s| && s[k] == d && d !in s[..k]
  {
    if s[0] == d then 0 else 1 + IndexOf(s[1..], d)
  }

  /** `s.split(d)` for a one-character separator `d`. */
  function SplitOn(s: string, d: char): (r: seq<string>)
    ensures |r| >= 1
    ensures forall i :: 0 <= i < |r| ==> d !in r[i]
    decreases |s|
  {
    if d !in s then [s]
    else
      var k := IndexOf(s, d);
      [s[..k]] + SplitOn(s[k + 1..], d)
  }

  /** `sep.join(parts)`. */
  function Join(parts: seq<string>, sep: string): string {
    if parts == [] then []
    else if |parts| == 1 then parts[0]
    else parts[0] + sep + Join(parts[1..], sep)
  }

  /** The first field of `s.split(d)` is the text before the first `d`, or all of `s`. */
  lemma {:induction false} SplitFirstField(s: string, d: char)
    ensures d !in s ==> SplitOn(s, d)[0] == s
    ensures d in s ==> SplitOn(s, d)[0] == s[..IndexOf(s, d)]
  {
  }

  /** Joining the fields of a split gives back the original string. */
  lemma {:induction false} JoinSplit(s: string, d: char)
    ensures Join(SplitOn(s, d), [d]) == s
    decreases |s|
  {
    if d in s {
      var k := IndexOf(s, d);
      var tail := s[k + 1..];
      var rest := SplitOn(tail, d);
      JoinSplit(tail, d);
      assert SplitOn(s, d) == [s[..k]] + rest;
      JoinCons(s[..k], rest, [d]);
      assert s == s[..k] + [d] + tail;
    }
  }

  /** Joining a field in front of at least one more field puts a separator between. */
  lemma {:induction false} JoinCons(x: string, rest: seq<string>, sep: string)
    requires |rest| >= 1
    ensures Join([x] + rest, sep) == x + sep + Join(rest, sep)
  {
    var parts := [x] + rest;
    assert parts[0] == x && parts[1..] == rest;
  }

  /** Splitting `a + [d] + b` with `d` not in `a` yields `a` followed by the fields of `b`. */
  lemma {:induction false} SplitOnConcat(a: string, d: char, b: string)
    requires d !in a
    ensures SplitOn(a + [d] + b, d) == [a] + SplitOn(b, d)
  {
    var s := a + [d] + b;
    assert s[|a|] == d;
    var k := IndexOf(s, d);
    assert s[..k] == a;
    assert s[k + 1..] == b;
  }

  /** Splitting a join of separator-free fields gives back the fields. */
  lemma {:induction false} SplitJoin(parts: seq<string>, d: char)
    requires |parts| >= 1
    requires forall i :: 0 <= i < |parts| ==> d !in parts[i]
    ensures SplitOn(Join(parts, [d]), d) == parts
    decreases |parts|
  {
    if |parts| > 1 {
      var tail := Join(parts[1..], [d]);
      assert Join(parts, [d]) == parts[0] + [d] + tail;
      SplitOnConcat(parts[0], d, tail);
      SplitJoin(parts[1..], d);
      assert parts == [parts[0]] + parts[1..];
    }
  }

  /** `''.join(texts)`. */
  function Concat(texts: seq<string>): string {
    if texts == [] then "" else texts[0] + Concat(texts[1..])
  }

  /** `''.join` is Concat. */
  lemma {:induction false} JoinIsConcat(texts: seq<string>)
    ensures Join(texts, "") == Concat(texts)
    decreases |texts|
  {
    if |texts| > 1 {
      JoinIsConcat(texts[1..]);
      assert Concat(texts[1..]) == texts[1] + Concat(texts[2..]) by {
        assert texts[1..][1..] == texts[2..];
      }
    } else if |texts| == 1 {
      assert Concat(texts[1..]) == "";
    }
  }

  lemma {:induction false} ConcatSnoc(texts: seq<string>, t: string)
    ensures Concat(texts + [t]) == Concat(texts) + t
    decreases |texts|
  {
    if texts == [] {
      assert Concat([t]) == t + Concat([]);
    } else {
      assert (texts + [t])[1..] == texts[1..] + [t];
      ConcatSnoc(texts[1..], t);
    }
  }

  /** The piece of a concatenation that one part occupies. */
  lemma {:induction false} ConcatSlice(texts: seq<string>, k: nat)
    requires k < |texts|
    ensures |Concat(texts[..k])| + |texts[k]| <= |Concat(texts)|
    ensures Concat(texts)[|Concat(texts[..k])|..|Concat(texts[..k])| + |texts[k]|] == texts[k]
    decreases |texts|
  {
    if k == 0 {
      assert texts[..0] == [];
    } else {
      ConcatSlice(texts[1..], k - 1);
      assert texts[1..][..k - 1] == texts[..k][1..];
    }
  }

  // ---------------------------------------------------------------------------
  // Decimal numerals: '%d' % n and int(s)
  // ---------------------------------------------------------------------------

  predicate IsDigit(c: char) {
    '0' <= c <= '9'
  }

  function DigitChar(d: nat): (c: char)
    requires d < 10
    ensures IsDigit(c) && c as int - '0' as int == d
  {
    ('0' as int + d) as char
  }

  /** `'%d' % n` for a natural number. */
  function NatToString(n: nat): (r: string)
    ensures |r| >= 1 && forall i :: 0 <= i < |r| ==> IsDigit(r[i])
    decreases n
  {
    if n < 10 then [DigitChar(n)] else NatToString(n / 10) + [DigitChar(n % 10)]
  }

  /** The value of a string of decimal digits. */
  function DigitValue(c: char): nat
    requires IsDigit(c)
  {
    c as int - '0' as int
  }

  /** The value of a string of decimal digits. */
  function DigitsValue(s: string): nat
    requires forall i :: 0 <= i < |s| ==> IsDigit(s[i])
  {
    if s == [] then 0
    else DigitsValue(s[..|s| - 1]) * 10 + DigitValue(s[|s| - 1])
  }

  /** Reading back a formatted number gives the number. */
  lemma {:induction false} DigitsOfNat(n: nat)
    ensures DigitsValue(NatToString(n)) == n
    decreases n
  {
    if n >= 10 {
      var s := NatToString(n);
      assert s[..|s| - 1] == NatToString(n / 10);
      DigitsOfNat(n / 10);
    }
  }

  /** Different numbers are formatted differently. */
  lemma {:induction false} NatToStringInjective(a: nat, b: nat)
    requires NatToString(a) == NatToString(b)
    ensures a == b
  {
    DigitsOfNat(a);
    DigitsOfNat(b);
  }

  /** A non-empty run of decimal digits. */
  predicate IsDecimal(s: string) {
    |s| > 0 && forall i :: 0 <= i < |s| ==> IsDigit(s[i])
  }

  /** Python's `int(s)` on a str: surrounding whitespace, an optional sign and ASCII digits;
      anything else raises ValueError. */
  function ParseInt(s: string): (r: Result<int>)
    ensures r.Failure? ==> r.error == ValueError
  {
    var t := Strip(s);
    if |t| > 0 && (t[0] == '-' || t[0] == '+') then
      if IsDecimal(t[1..]) then
        var v: int := DigitsValue(t[1..]);
        Success(if t[0] == '-' then -v else v)
      else Failure(ValueError)
    else if IsDecimal(t) then Success(DigitsValue(t))
    else Failure(ValueError)
  }

  /** `int('%d' % n) == n`, and the same for negative numbers. */
  lemma {:induction false} ParseFormattedInt(n: nat)
    ensures ParseInt(NatToString(n)) == Success(n as int)
    ensures ParseInt("-" + NatToString(n)) == Success(0 - n)
  {
    var s := NatToString(n);
    assert IsDecimal(s);
    DigitsOfNat(n);
    var v: int := DigitsValue(s);
    assert v == n;
    ParseDigits(s);
    assert ParseInt(s) == Success(v);
    ParseNegativeDigits(s);
    assert ParseInt("-" + s) == Success(0 - v);
  }

  /** `int` of a run of digits is its value. */
  lemma {:induction false} ParseDigits(s: string)
    requires IsDecimal(s)
    ensures ParseInt(s) == Success(DigitsValue(s) as int)
  {
    assert !IsSpace(s[0]) && !IsSpace(s[|s| - 1]);
    NoSpaceAtEnds(s);
    assert s[0] != '-' && s[0] != '+';
  }

  /** `int` of a minus sign followed by a run of digits is the negated value. */
  lemma {:induction false} ParseNegativeDigits(s: string)
    requires IsDecimal(s)
    ensures ParseInt("-" + s) == Success(0 - DigitsValue(s))
  {
    var m := "-" + s;
    assert m[0] == '-' && m[|m| - 1] == s[|s| - 1];
    assert !IsSpace(s[|s| - 1]);
    NoSpaceAtEnds(m);
    assert m[1..] == s;
  }

  /** Stripping leaves a string alone whose first and last characters are not whitespace. */
  lemma {:induction false} NoSpaceAtEnds(s: string)
    requires s != [] && !IsSpace(s[0]) && !IsSpace(s[|s| - 1])
    ensures Strip(s) == s
  {
    assert StripLeft(s) == s;
    assert StripRight(s) == s;
  }
}
