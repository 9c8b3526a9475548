/**
 * Label vocabularies: `distinct = list(distinct); distinct.sort()` turns the set of
 * labels collected over all partitions into a sorted list without duplicates.
 * Python orders `str` values by code point, lexicographically; a list holding `None`
 * next to a `str` cannot be sorted and raises TypeError.
 */
module Vocabulary {
  import opened Wrappers

  /** Python's `a < b` on str. */
  predicate StrLt(a: string, b: string)
    decreases |a|
  {
    if a == [] then b != []
    else if b == [] then false
    else a[0] < b[0] || (a[0] == b[0] && StrLt(a[1..], b[1..]))
  }

  lemma {:induction false} StrLtIrreflexive(a: string)
    ensures !StrLt(a, a)
    decreases |a|
  {
    if a != [] {
      StrLtIrreflexive(a[1..]);
    }
  }

  lemma {:induction false} StrLtTransitive(a: string, b: string, c: string)
    requires StrLt(a, b) && StrLt(b, c)
    ensures StrLt(a, c)
    decreases |a|
  {
    if a != [] && b != [] && c != [] && a[0] == b[0] == c[0] {
      StrLtTransitive(a[1..], b[1..], c[1..]);
    }
  }

  lemma {:induction false} StrLtTotal(a: string, b: string)
    requires a != b
    ensures StrLt(a, b) || StrLt(b, a)
    decreases |a|
  {
    if a != [] && b != [] && a[0] == b[0] {
      assert a == [a[0]] + a[1..] && b == [b[0]] + b[1..];
      StrLtTotal(a[1..], b[1..]);
    }
  }

  /** Every two entries are in increasing order; in particular there are no duplicates. */
  predicate StrictlySorted(r: seq<string>) {
    forall i, j :: 0 <= i < j < |r| ==> StrLt(r[i], r[j])
  }

  /** `r` lists exactly the members of `v`, each once, in increasing order. */
  ghost predicate SortedListing(r: seq<string>, v: set<string>) {
    && StrictlySorted(r)
    && (forall x :: x in r <==> x in v)
    && |r| == |v|
  }

  /** A non-empty finite set of strings has a least element. */
  lemma {:induction false} Least(s: set<string>) returns (m: string)
    requires s != {}
    ensures m in s && forall x :: x in s && x != m ==> StrLt(m, x)
    decreases |s|
  {
    var y :| y in s;
    if s == {y} {
      return y;
    }
    var t := s - {y};
    var n := Least(t);
    if StrLt(y, n) {
      forall x | x in s && x != y ensures StrLt(y, x) {
        if x != n { StrLtTransitive(y, n, x); }
      }
      return y;
    } else {
      StrLtTotal(y, n);
      return n;
    }
  }

  /** `sorted(set)` for strings. */
  method SortStrings(v: set<string>) returns (r: seq<string>)
    ensures SortedListing(r, v)
  {
    r := [];
    var rest := v;
    while rest != {}
      invariant forall x :: x in v <==> x in r || x in rest
      invariant forall x :: x in r ==> x !in rest
      invariant StrictlySorted(r)
      invariant forall i, x :: 0 <= i < |r| && x in rest ==> StrLt(r[i], x)
      invariant |r| + |rest| == |v|
      decreases |rest|
    {
      ghost var least := Least(rest);
      var m :| m in rest && forall x :: x in rest && x != m ==> StrLt(m, x);
      forall i, x | 0 <= i < |r| && x in rest - {m} ensures StrLt(r[i], x) {
        StrLtTransitive(r[i], m, x);
      }
      r := r + [m];
      rest := rest - {m};
    }
  }

  /** The sorted listing of a set is unique, so label indices are deterministic. */
  lemma {:induction false} SortedListingUnique(r: seq<string>, q: seq<string>, v: set<string>)
    requires SortedListing(r, v) && SortedListing(q, v)
    ensures r == q
    decreases |v|
  {
    if r != [] {
      assert q != [];
      if r[0] != q[0] {
        assert q[0] in r;
        var i :| 0 <= i < |r| && r[i] == q[0];
        assert r[0] in q;
        var j :| 0 <= j < |q| && q[j] == r[0];
        assert StrLt(r[0], q[0]);
        assert StrLt(q[0], r[0]);
        StrLtTransitive(r[0], q[0], r[0]);
        StrLtIrreflexive(r[0]);
      }
      var w := v - {r[0]};
      forall x ensures x in r[1..] <==> x in w {
        if x in r[1..] {
          var i :| 1 <= i < |r| && r[i] == x;
          StrLtIrreflexive(x);
        }
      }
      forall x ensures x in q[1..] <==> x in w {
        if x in q[1..] {
          var i :| 1 <= i < |q| && q[i] == x;
          StrLtIrreflexive(x);
        }
      }
      SortedListingUnique(r[1..], q[1..], w);
      assert r == [r[0]] + r[1..] && q == [q[0]] + q[1..];
    }
  }

  /** An Option vocabulary can be sorted unless None shares it with another entry. */
  predicate OptionsSortable(v: set<Option<string>>) {
    !(None in v && |v| >= 2)
  }

  /** The strings present in an Option vocabulary. */
  function PresentStrings(v: set<Option<string>>): set<string> {
    set o | o in v && o.Some? :: o.value
  }

  /** `r` is what `list(v).sort()` leaves in the list: `[None]` for `{None}`, otherwise
      the sorted strings. */
  ghost predicate SortedOptionListing(r: seq<Option<string>>, v: set<Option<string>>) {
    if v == {None} then r == [None]
    else
      && None !in v
      && |r| == |v|
      && (forall i :: 0 <= i < |r| ==> r[i].Some?)
      && SortedListing(seq(|r|, i requires 0 <= i < |r| => r[i].value), PresentStrings(v))
  }

  /** `sorted(set)` for a vocabulary whose entries may be None. */
  method SortOptions(v: set<Option<string>>) returns (r: Result<seq<Option<string>>>)
    ensures r.Failure? <==> !OptionsSortable(v)
    ensures r.Failure? ==> r.error == TypeError
    ensures r.Success? ==> SortedOptionListing(r.value, v)
    ensures r.Success? ==> forall o :: o in r.value <==> o in v
  {
    if None in v {
      if |v| >= 2 {
        return Failure(TypeError);
      }
      var others := v - {None};
      assert |others| == |v| - 1;
      assert v == {None} by {
        assert others == {};
      }
      return Success([None]);
    }
    var strs := SortStrings(PresentStrings(v));
    var out := seq(|strs|, i requires 0 <= i < |strs| => Some(strs[i]));
    assert seq(|out|, i requires 0 <= i < |out| => out[i].value) == strs;
    forall o ensures o in out <==> o in v {
      if o in out {
        var i :| 0 <= i < |out| && out[i] == o;
        assert strs[i] in PresentStrings(v);
        var o' :| o' in v && o'.Some? && o'.value == strs[i];
        assert o' == o;
      }
      if o in v {
        assert o.value in PresentStrings(v);
        var i :| 0 <= i < |strs| && strs[i] == o.value;
        assert out[i] == o;
      }
    }
    assert |PresentStrings(v)| == |v| by {
      assert v == set x | x in PresentStrings(v) :: Some(x);
      OptionsBijection(v);
    }
    r := Success(out);
  }

  /** Without None, an Option vocabulary and its present strings have the same size. */
  lemma {:induction false} OptionsBijection(v: set<Option<string>>)
    requires None !in v
    ensures |PresentStrings(v)| == |v|
    decreases |v|
  {
    if v != {} {
      var o :| o in v;
      var w := v - {o};
      OptionsBijection(w);
      assert PresentStrings(v) == PresentStrings(w) + {o.value};
      assert o.value !in PresentStrings(w);
    }
  }
}
