/**
 * Building a dev partition (data_adapter/data_object.py, `BaseDataset.generate_dev_data`,
 * lines 214-231, and the inline splits of lines 205-209, 706-710, 840-844, 1117-1121,
 * 1151-1155). The `result` dictionary those lines update in place is a
 * `DataTypeAndData` object whose three fields are reassigned.
 */
module Splits {
  import opened Wrappers
  import opened Records

  /** `sklearn.model_selection.train_test_split(samples, test_size=size, random_state=seed)`,
      a randomised library call, as a parameter: it yields the `(train, dev)` pair, or None
      where the library raises ValueError (no samples, a size it refuses). A `size` of None
      is `test_size=None` (the library's default share), a `seed` of None a call without
      `random_state`. */
  type Splitter<!S> = (seq<S>, Option<real>, Option<int>) -> Option<(seq<S>, seq<S>)>

  /** Carving `dev` out of `train`: TypeError without a train partition (the library cannot
      split None), ValueError where the library refuses, otherwise only train and dev change. */
  function SplitTrain<S>(p: Partitions<S>, size: Option<real>, seed: Option<int>, split: Splitter<S>): (r: Result<Partitions<S>>)
    ensures p.train.None? ==> r == Failure(TypeError)
    ensures r.Success? ==> r.value.test == p.test && r.value.train.Some? && r.value.dev.Some?
    ensures r.Success? ==> split(p.train.value, size, seed) == Some((r.value.train.value, r.value.dev.value))
    ensures r.Failure? ==> r.error == TypeError || r.error == ValueError
  {
    match p.train
    case None => Failure(TypeError)
    case Some(t) =>
      match split(t, size, seed)
      case None => Failure(ValueError)
      case Some(parts) => Success(Partitions(Some(parts.0), Some(parts.1), p.test))
  }

  /** What `generate_dev_data` leaves in `result`: the official dev partition when there is
      one; `test` as dev when the requested size is 0.0; otherwise, a size of None included
      (`None != 0.0` holds), a split of train. */
  function WithDevData<S>(p: Partitions<S>, devSize: Option<real>, randomState: int, split: Splitter<S>): (r: Result<Partitions<S>>)
    ensures p.dev.Some? ==> r == Success(p)
    ensures p.dev.None? && devSize == Some(0.0) ==> r == Success(Partitions(p.train, p.test, p.test))
    ensures p.dev.None? && devSize != Some(0.0) ==> r == SplitTrain(p, devSize, Some(randomState), split)
  {
    if p.dev.Some? then Success(p)
    else if devSize == Some(0.0) then Success(Partitions(p.train, p.test, p.test))
    else SplitTrain(p, devSize, Some(randomState), split)
  }

  /** The `result` dictionary of the generate methods. */
  class DataTypeAndData<S> {
    var train: Option<seq<S>>
    var dev: Option<seq<S>>
    var test: Option<seq<S>>

    function Value(): Partitions<S>
      reads this
    {
      Partitions(train, dev, test)
    }

    constructor (p: Partitions<S>)
      ensures Value() == p
    {
      train, dev, test := p.train, p.dev, p.test;
    }

    /** `result[data_type] = samples`. */
    method Put(k: PartitionKind, v: Option<seq<S>>)
      modifies this
      ensures Value() == WithPart(old(Value()), k, v)
    {
      match k
      case Train => train := v;
      case Dev => dev := v;
      case Test => test := v;
    }

    /** `generate_dev_data(result, dev_size, random_state)`. On an exception the dictionary
        is left as it was. */
    method GenerateDevData(devSize: Option<real>, randomState: int, split: Splitter<S>) returns (outcome: Outcome)
      modifies this
      ensures old(dev).Some? ==> outcome == Pass && Value() == old(Value())
      ensures old(dev).None? && devSize == Some(0.0) ==>
                outcome == Pass && dev == old(test) && train == old(train) && test == old(test)
      ensures old(dev).None? && devSize != Some(0.0) ==> test == old(test)
      ensures WithDevData(old(Value()), devSize, randomState, split).Success? ==>
                outcome == Pass && Value() == WithDevData(old(Value()), devSize, randomState, split).value
      ensures WithDevData(old(Value()), devSize, randomState, split).Failure? ==>
                outcome == Fail(WithDevData(old(Value()), devSize, randomState, split).error)
                && Value() == old(Value())
    {
      if dev.None? {
        if devSize != Some(0.0) {
          outcome := SplitTrainForDev(devSize, Some(randomState), split);
        } else {
          dev := test;
          outcome := Pass;
        }
      } else {
        outcome := Pass;
      }
    }

    /** `train, dev = train_test_split(result['train'], ...)` followed by the two
        assignments; nothing else changes. */
    method SplitTrainForDev(size: Option<real>, seed: Option<int>, split: Splitter<S>) returns (outcome: Outcome)
      modifies this
      ensures test == old(test)
      ensures SplitTrain(old(Value()), size, seed, split).Success? ==>
                outcome == Pass && Value() == SplitTrain(old(Value()), size, seed, split).value
      ensures SplitTrain(old(Value()), size, seed, split).Failure? ==>
                outcome == Fail(SplitTrain(old(Value()), size, seed, split).error)
                && Value() == old(Value())
    {
      if train.None? {
        return Fail(TypeError);
      }
      var parts := split(train.value, size, seed);
      if parts.None? {
        return Fail(ValueError);
      }
      train := Some(parts.value.0);
      dev := Some(parts.value.1);
      outcome := Pass;
    }
  }

  /** Seen through the dictionary object: the result of `generate_dev_data` is
      `WithDevData` of the partitions it started from. */
  method DevDataOf<S>(p: Partitions<S>, devSize: Option<real>, randomState: int, split: Splitter<S>)
    returns (r: Result<Partitions<S>>)
    ensures r == WithDevData(p, devSize, randomState, split)
  {
    var result := new DataTypeAndData(p);
    var outcome := result.GenerateDevData(devSize, randomState, split);
    if outcome.Fail? {
      return Failure(outcome.error);
    }
    r := Success(result.Value());
  }

  /** The same for the inline split of train into train and dev. */
  method SplitTrainOf<S>(p: Partitions<S>, size: Option<real>, seed: Option<int>, split: Splitter<S>)
    returns (r: Result<Partitions<S>>)
    ensures r == SplitTrain(p, size, seed, split)
  {
    var result := new DataTypeAndData(p);
    var outcome := result.SplitTrainForDev(size, seed, split);
    if outcome.Fail? {
      return Failure(outcome.error);
    }
    r := Success(result.Value());
  }
}
