/**
 * The hand-written iterator of an object holding `data`, and the generator
 * that yields 1, delegates to `[2, 3, 4]` with `yield*`, then yields 5.
 * Both are state machines driven by repeated `next()` calls.
 */
module Iterators {
  import opened JsRuntime

  /** The `{ value, done }` record that every `next()` returns. */
  datatype IteratorResult<T> = IteratorResult(value: JsValue<T>, done: bool)

  function Yield<T>(v: T): IteratorResult<T> {
    IteratorResult(Defined(v), false)
  }

  function Finished<T>(): IteratorResult<T> {
    IteratorResult(Undefined, true)
  }

  /**
   * One `next()` call on the cursor `index` over `data` as it is at the time of
   * the call: the record it returns and the cursor afterwards.
   */
  function Step<T>(data: seq<T>, index: nat): (r: (IteratorResult<T>, nat))
    ensures r.0.done <==> index >= |data|
    ensures !r.0.done ==> r.0 == Yield(data[index]) && r.1 == index + 1
    ensures r.0.done ==> r.0 == Finished() && r.1 == index
  {
    if index < |data| then (Yield(data[index]), index + 1)
    else (Finished(), index)
  }

  /** The records returned by `k` successive `next()` calls from cursor `index`. */
  function Run<T>(data: seq<T>, index: nat, k: nat): seq<IteratorResult<T>>
    decreases k
  {
    if k == 0 then []
    else
      var (r, index') := Step(data, index);
      [r] + Run(data, index', k - 1)
  }

  function Yields<T>(data: seq<T>): (r: seq<IteratorResult<T>>)
    ensures |r| == |data|
    ensures forall i :: 0 <= i < |data| ==> r[i] == Yield(data[i])
  {
    if data == [] then [] else [Yield(data[0])] + Yields(data[1..])
  }

  function Dones<T>(m: nat): (r: seq<IteratorResult<T>>)
    ensures |r| == m
    ensures forall i :: 0 <= i < m ==> r[i] == Finished()
  {
    if m == 0 then [] else [Finished()] + Dones(m - 1)
  }

  /** Once exhausted, every further call reports `done: true` again, as long as `data` does not grow. */
  lemma {:induction false} ExhaustionIsPermanent<T>(data: seq<T>, index: nat, m: nat)
    requires index >= |data|
    ensures Run(data, index, m) == Dones(m)
  {
    if m > 0 {
      ExhaustionIsPermanent(data, index, m - 1);
    }
  }

  /**
   * `next()` reads `self.data` afresh at every call: an exhausted iterator
   * yields again once an element is appended to `data`.
   */
  lemma ResumesAfterGrowth<T>(data: seq<T>, x: T)
    ensures Step(data, |data|) == (Finished(), |data|)
    ensures Step(data + [x], |data|) == (Yield(x), |data| + 1)
  {
  }

  /**
   * From cursor `index`, the calls return the remaining elements in order,
   * each with `done: false`, and `done: true` ever after.
   */
  lemma {:induction false} RunFrom<T>(data: seq<T>, index: nat, m: nat)
    requires index <= |data|
    ensures Run(data, index, |data| - index + m) == Yields(data[index..]) + Dones(m)
    decreases |data| - index
  {
    if index == |data| {
      assert data[index..] == [];
      ExhaustionIsPermanent(data, index, m);
    } else {
      RunFrom(data, index + 1, m);
      assert data[index..] == [data[index]] + data[index + 1..];
    }
  }

  /** A fresh iterator visits all of `data` in order and then stays exhausted. */
  lemma IterationYieldsData<T>(data: seq<T>, m: nat)
    ensures Run(data, 0, |data| + m) == Yields(data) + Dones(m)
  {
    RunFrom(data, 0, m);
  }

  lemma HelloWorld()
    ensures Run(["hello", "world"], 0, 3)
         == [Yield("hello"), Yield("world"), IteratorResult(Undefined, true)]
  {
    IterationYieldsData(["hello", "world"], 1);
  }

  /** The object literal with a writable `data` array and a `[Symbol.iterator]` method. */
  class IterableData<T> {
    var data: seq<T>

    constructor(data: seq<T>)
      ensures this.data == data
    {
      this.data := data;
    }

    /** `obj[Symbol.iterator]()`: a fresh iterator whose cursor starts at 0. */
    method Iterator() returns (it: ArrayIterator<T>)
      ensures fresh(it) && it.source == this && it.index == 0
    {
      it := new ArrayIterator(this);
    }
  }

  /** The object returned by `[Symbol.iterator]()`: `self` plus the captured `index`. */
  class ArrayIterator<T> {
    const source: IterableData<T>
    var index: nat

    constructor(source: IterableData<T>)
      ensures this.source == source && index == 0
    {
      this.source := source;
      index := 0;
    }

    /**
     * `next()`: returns `data[index++]` while elements remain, then `done: true`;
     * `data` is read through `source` at the time of the call.
     */
    method Next() returns (r: IteratorResult<T>)
      modifies this
      ensures (r, index) == Step(source.data, old(index))
    {
      if index < |source.data| {
        r := IteratorResult(Defined(source.data[index]), false);
        index := index + 1;
      } else {
        r := IteratorResult(Undefined, true);
      }
    }
  }

  // ---------------------------------------------------------------------------
  // function* () { yield 1; yield* [2, 3, 4]; yield 5; }

  /** Where the generator body is suspended between two `next()` calls. */
  datatype GenState =
    | SuspendedStart
    | SuspendedAfterYield1
    | SuspendedInDelegate(cursor: nat)
    | SuspendedAfterYield5
    | Completed

  const Delegated: seq<int> := [2, 3, 4]

  /**
   * The delegate cursor has passed at least one element of `[2, 3, 4]` and not
   * gone beyond its end; `GenValidIsReachable` shows these are exactly the
   * states the body reaches.
   */
  predicate GenValid(s: GenState) {
    s.SuspendedInDelegate? ==> 1 <= s.cursor <= |Delegated|
  }

  /**
   * Resuming `yield* [2, 3, 4]` at `cursor`: the inner array iterator's record
   * is passed through while it is not done; once it is, the body continues to
   * `yield 5` within the same `next()` call.
   */
  function Delegate(cursor: nat): (r: (IteratorResult<int>, GenState))
    requires cursor <= |Delegated|
    ensures GenValid(r.1)
  {
    var (inner, cursor') := Step(Delegated, cursor);
    if !inner.done then (inner, SuspendedInDelegate(cursor'))
    else (Yield(5), SuspendedAfterYield5)
  }

  /** One `next()` call on the generator object. */
  function GenStep(s: GenState): (r: (IteratorResult<int>, GenState))
    requires GenValid(s)
    ensures GenValid(r.1)
    ensures s.Completed? ==> r == (Finished(), Completed)
  {
    match s
    case SuspendedStart => (Yield(1), SuspendedAfterYield1)
    case SuspendedAfterYield1 => Delegate(0)
    case SuspendedInDelegate(c) => Delegate(c)
    case SuspendedAfterYield5 => (Finished(), Completed)
    case Completed => (Finished(), Completed)
  }

  function GenRun(s: GenState, k: nat): seq<IteratorResult<int>>
    requires GenValid(s)
    decreases k
  {
    if k == 0 then []
    else
      var (r, s') := GenStep(s);
      [r] + GenRun(s', k - 1)
  }

  /** The state after `k` calls of `next()` from `s`. */
  function GenAfter(s: GenState, k: nat): (t: GenState)
    requires GenValid(s)
    ensures GenValid(t)
    decreases k
  {
    if k == 0 then s else GenAfter(GenStep(s).1, k - 1)
  }

  /**
   * Every state `GenValid` admits is reached from the start by some number of
   * `next()` calls (and, by `GenAfter`'s contract, only such states are reached).
   */
  lemma GenValidIsReachable(s: GenState)
    requires GenValid(s)
    ensures exists k: nat :: GenAfter(SuspendedStart, k) == s
  {
    match s
    case SuspendedStart =>
      assert GenAfter(SuspendedStart, 0) == s;
    case SuspendedAfterYield1 =>
      assert GenAfter(SuspendedStart, 1) == s;
    case SuspendedInDelegate(c) =>
      assert GenAfter(SuspendedStart, 1 + c) == s;
    case SuspendedAfterYield5 =>
      assert GenAfter(SuspendedStart, 5) == s;
    case Completed =>
      assert GenAfter(SuspendedStart, 6) == s;
  }

  lemma {:induction false} GeneratorStaysDone(m: nat)
    ensures GenRun(Completed, m) == Dones(m)
  {
    if m > 0 {
      GeneratorStaysDone(m - 1);
    }
  }

  /**
   * Resumed inside `yield* [2, 3, 4]` at `cursor`, the generator passes on the
   * rest of the array, then yields 5, then is done for good.
   */
  lemma {:induction false} DelegationOutput(cursor: nat, m: nat)
    requires 1 <= cursor <= |Delegated|
    ensures GenRun(SuspendedInDelegate(cursor), |Delegated| - cursor + 1 + m)
         == Yields(Delegated[cursor..]) + [Yield(5)] + Dones(m)
    decreases |Delegated| - cursor
  {
    if cursor == |Delegated| {
      assert GenRun(SuspendedAfterYield5, m) == Dones(m) by {
        if m > 0 {
          GeneratorStaysDone(m - 1);
        }
      }
      assert Delegated[cursor..] == [];
    } else {
      DelegationOutput(cursor + 1, m);
      assert Delegated[cursor..] == [Delegated[cursor]] + Delegated[cursor + 1..];
    }
  }

  /** The generator yields 1, 2, 3, 4, 5 and then reports `done: true` forever. */
  lemma GeneratorOutput(m: nat)
    ensures GenRun(SuspendedStart, 5 + m)
         == [Yield(1), Yield(2), Yield(3), Yield(4), Yield(5)] + Dones(m)
  {
    DelegationOutput(1, m);
    assert GenRun(SuspendedAfterYield1, 4 + m) == [Yield(2)] + GenRun(SuspendedInDelegate(1), 3 + m);
    assert Yields(Delegated[1..]) == [Yield(3), Yield(4)];
  }

  /** The generator object returned by calling the generator function. */
  class Generator {
    var state: GenState

    ghost predicate Valid()
      reads this
    {
      GenValid(state)
    }

    constructor()
      ensures state == SuspendedStart && Valid()
    {
      state := SuspendedStart;
    }

    method Next() returns (r: IteratorResult<int>)
      requires Valid()
      modifies this
      ensures Valid()
      ensures (r, state) == GenStep(old(state))
    {
      match state
      case SuspendedStart =>
        r, state := IteratorResult(Defined(1), false), SuspendedAfterYield1;
      case SuspendedAfterYield1 =>
        r, state := Delegate(0).0, Delegate(0).1;
      case SuspendedInDelegate(c) =>
        r, state := Delegate(c).0, Delegate(c).1;
      case SuspendedAfterYield5 =>
        r, state := IteratorResult(Undefined, true), Completed;
      case Completed =>
        r := IteratorResult(Undefined, true);
    }
  }
}
