/** Option, Result and the Python exceptions the data adapters can raise. */
module Wrappers {

  datatype Option<+T> = None | Some(value: T)

  /** The exception kinds raised by the adapters and the label derivation code. */
  datatype PyError =
    | TypeError       // iterating over None, int(None), sorting None together with a str
    | KeyError        // a missing XML attribute or dictionary key
    | IndexError      // a missing line, row or field
    | ValueError      // int() of a malformed literal, or the splitter refusing its input
    | AttributeError  // calling a str method on None

  datatype Result<+T> = Success(value: T) | Failure(error: PyError)

  /** The outcome of a statement that only has an effect or raises. */
  datatype Outcome = Pass | Fail(error: PyError)

  /** Python's `d.get(key)`: the value, or None when the key is absent. */
  function Get<K, V>(m: map<K, V>, key: K): (r: Option<V>)
    ensures r.Some? <==> key in m
    ensures r.Some? ==> r.value == m[key]
  {
    if key in m then Some(m[key]) else None
  }

  /** Python's `d.get(key, default)`. */
  function GetOr<K, V>(m: map<K, V>, key: K, default: V): (r: V)
    ensures key in m ==> r == m[key]
    ensures key !in m ==> r == default
  {
    if key in m then m[key] else default
  }

  /** Growing a prefix by one element (the step of a loop that appends). */
  lemma {:induction false} PrefixSnoc<T>(s: seq<T>, j: nat)
    requires j < |s|
    ensures s[..j + 1] == s[..j] + [s[j]]
  {
  }

  /** `acc` followed by what `r` holds, or `r`'s error: the result of a loop that has
      collected `acc` and whose remaining iterations yield `r`. */
  function Prepend<T>(acc: seq<T>, r: Result<seq<T>>): Result<seq<T>> {
    match r
    case Failure(e) => Failure(e)
    case Success(rest) => Success(acc + rest)
  }

  lemma {:induction false} PrependNothing<T>(r: Result<seq<T>>)
    ensures Prepend([], r) == r
  {
    if r.Success? {
      assert [] + r.value == r.value;
    }
  }

  /** `acc + [s]` followed by `r` is `acc` followed by `[s]` and then `r`. */
  lemma {:induction false} PrependSnoc<T>(acc: seq<T>, s: T, r: Result<seq<T>>)
    ensures Prepend(acc, Prepend([s], r)) == Prepend(acc + [s], r)
  {
    if r.Success? {
      assert acc + ([s] + r.value) == (acc + [s]) + r.value;
    }
  }

  /** `[f(x) for x in xs]` where `f` may raise: the first error, or every result in order. */
  function Collect<T, U>(xs: seq<T>, f: T -> Result<U>): Result<seq<U>>
    decreases |xs|
  {
    if xs == [] then Success([])
    else
      match Collect(xs[..|xs| - 1], f)
      case Failure(e) => Failure(e)
      case Success(acc) =>
        match f(xs[|xs| - 1])
        case Failure(e) => Failure(e)
        case Success(y) => Success(acc + [y])
  }

  /** The collection succeeds exactly when every element does, and then holds their
      results in order. */
  lemma {:induction false} CollectShape<T, U>(xs: seq<T>, f: T -> Result<U>)
    ensures Collect(xs, f).Success? <==> forall i :: 0 <= i < |xs| ==> f(xs[i]).Success?
    ensures Collect(xs, f).Success? ==>
              |Collect(xs, f).value| == |xs|
              && forall i :: 0 <= i < |xs| ==> f(xs[i]) == Success(Collect(xs, f).value[i])
    decreases |xs|
  {
    if xs != [] {
      var init := xs[..|xs| - 1];
      CollectShape(init, f);
      assert forall i :: 0 <= i < |init| ==> init[i] == xs[i];
    }
  }

  /** Once a prefix fails, the whole collection fails with the same error. */
  lemma {:induction false} CollectFailurePersists<T, U>(xs: seq<T>, j: nat, f: T -> Result<U>)
    requires j <= |xs| && Collect(xs[..j], f).Failure?
    ensures Collect(xs, f) == Collect(xs[..j], f)
    decreases |xs|
  {
    if j < |xs| {
      var init := xs[..|xs| - 1];
      assert init[..j] == xs[..j];
      CollectFailurePersists(init, j, f);
    } else {
      assert xs[..j] == xs;
    }
  }

  /** The comprehension as a loop that appends. */
  method CollectEach<T, U>(xs: seq<T>, f: T -> Result<U>) returns (r: Result<seq<U>>)
    ensures r == Collect(xs, f)
  {
    var ys: seq<U> := [];
    for i := 0 to |xs|
      invariant Collect(xs[..i], f) == Success(ys)
    {
      PrefixSnoc(xs, i);
      assert xs[..i + 1][..i] == xs[..i];
      var y := f(xs[i]);
      if y.Failure? {
        CollectFailurePersists(xs, i + 1, f);
        return Failure(y.error);
      }
      ys := ys + [y.value];
    }
    assert xs[..|xs|] == xs;
    r := Success(ys);
  }
}
