/**
 * Two routines from the function chapter: the accumulator-passing factorial,
 * and the curried `insert(value).into(array).after(afterValue)`, which splices
 * `value` into the caller's array just after the first `afterValue`.
 */
module Func {
  import opened JsRuntime

  /** n!, the reference definition the accumulator version is measured against. */
  function Fact(n: nat): (r: nat)
    ensures r >= 1
  {
    if n == 0 then 1 else n * Fact(n - 1)
  }

  /**
   * `tailFactorial(n, total)`: each step passes `(n - 1, n * total)` until
   * `n === 1`. The accumulator invariant is that the result is `total * n!`.
   */
  function TailFactorial(n: int, total: int): (r: int)
    requires n >= 1
    ensures r == total * Fact(n)
    decreases n
  {
    if n == 1 then total
    else
      var r := TailFactorial(n - 1, n * total);
      assert n * total * Fact(n - 1) == total * (n * Fact(n - 1));
      r
  }

  /** `factorial(n)` starts the accumulator at 1, so it is n!. */
  function Factorial(n: int): (r: int)
    requires n >= 1
    ensures r == Fact(n)
  {
    TailFactorial(n, 1)
  }

  lemma FactorialOfFive()
    ensures Factorial(5) == 120 && Factorial(2) == 2
  {
  }

  /** A base call hands its accumulator back untouched. */
  lemma TailFactorialBase(total: int)
    ensures TailFactorial(1, total) == total
  {
  }

  // ---------------------------------------------------------------------------
  // insert(value).into(array).after(afterValue)

  /**
   * The start index that `splice` really uses: a negative start counts from the
   * end, and either way the index is clamped into `0..length`.
   */
  function SpliceStart(start: int, length: nat): (k: nat)
    ensures k <= length
    ensures 0 <= start <= length ==> k == start
  {
    if start < 0 then (if length + start < 0 then 0 else length + start)
    else if start > length then length
    else start
  }

  /**
   * The elements after `insert(value).into(s).after(afterValue)`: `value` lands
   * at `s.indexOf(afterValue) + 1`, which is 0 when `afterValue` is absent.
   */
  function InsertedAfter<T(==)>(s: seq<T>, value: T, afterValue: T): (r: seq<T>)
    ensures |r| == |s| + 1
    ensures afterValue !in s ==> r == [value] + s
  {
    var k := IndexOf(s, afterValue) + 1;
    s[..k] + [value] + s[k..]
  }

  /**
   * The independent description of the insertion: with `k` the first position
   * of `afterValue`, everything up to and including it stays in place, `value`
   * comes next, and the rest follows in its old order.
   */
  lemma InsertedAfterFirstOccurrence<T>(s: seq<T>, value: T, afterValue: T, k: nat)
    requires k < |s| && s[k] == afterValue && afterValue !in s[..k]
    ensures InsertedAfter(s, value, afterValue) == s[..k + 1] + [value] + s[k + 1..]
    ensures InsertedAfter(s, value, afterValue)[k] == afterValue
    ensures InsertedAfter(s, value, afterValue)[k + 1] == value
  {
    IndexOfFirst(s, afterValue, k);
  }

  /** Removing the inserted element gives back the original elements. */
  lemma InsertedAfterRemoves<T>(s: seq<T>, value: T, afterValue: T)
    ensures var k := IndexOf(s, afterValue) + 1;
            var r := InsertedAfter(s, value, afterValue);
            r[k] == value && r[..k] + r[k + 1..] == s
  {
    var k := IndexOf(s, afterValue) + 1;
    var r := InsertedAfter(s, value, afterValue);
    assert r[..k] == s[..k];
    assert r[k + 1..] == s[k..];
    assert s[..k] + s[k..] == s;
  }

  lemma InsertTwoIntoOneThree()
    ensures InsertedAfter([1, 3], 2, 1) == [1, 2, 3]
    ensures InsertedAfter([1, 3], 2, 7) == [2, 1, 3]
  {
    InsertedAfterFirstOccurrence([1, 3], 2, 1, 0);
  }

  /** A JavaScript array: an object whose element list grows and shrinks in place. */
  class JsArray<T(==)> {
    var elements: seq<T>

    constructor(elements: seq<T>)
      ensures this.elements == elements
    {
      this.elements := elements;
    }

    /** `array.splice(start, 0, item)`: inserts `item` at the clamped start. */
    method SpliceInsert(start: int, item: T)
      modifies this
      ensures var k := SpliceStart(start, |old(elements)|);
              elements == old(elements)[..k] + [item] + old(elements)[k..]
    {
      var k := SpliceStart(start, |elements|);
      elements := elements[..k] + [item] + elements[k..];
    }
  }

  /**
   * `insert(value).into(array).after(afterValue)`: splices `value` in just after
   * the first `afterValue` and returns the very array it changed.
   */
  method Insert<T(==)>(value: T, arr: JsArray<T>, afterValue: T) returns (r: JsArray<T>)
    modifies arr
    ensures r == arr
    ensures arr.elements == InsertedAfter(old(arr.elements), value, afterValue)
  {
    arr.SpliceInsert(IndexOf(arr.elements, afterValue) + 1, value);
    r := arr;
  }

  /** `insertNews`, the arrow-function spelling of `insert`, with the same body. */
  method InsertNews<T(==)>(value: T, arr: JsArray<T>, afterValue: T) returns (r: JsArray<T>)
    modifies arr
    ensures r == arr
    ensures arr.elements == InsertedAfter(old(arr.elements), value, afterValue)
  {
    arr.SpliceInsert(IndexOf(arr.elements, afterValue) + 1, value);
    r := arr;
  }
}
