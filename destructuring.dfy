/**
 * Array-pattern destructuring with defaults, and the functions of the
 * destructuring chapter that take their parameters apart: `add([x, y])`, the
 * pair-summing `map` callback, and `move({x = 0, y = 0} = {})`.
 */
module Destructuring {
  import opened JsRuntime

  /**
   * One pattern element `v = default` (or plain `v` when `default` is None):
   * the default is used only when the value is `undefined`, never for `null`.
   */
  function BindWithDefault<T>(v: JsValue<T>, default: Option<T>): (r: JsValue<T>)
    ensures !v.Undefined? ==> r == v
    ensures v.Undefined? && default.Some? ==> r == Defined(default.value)
    ensures v.Undefined? && default.None? ==> r == Undefined
  {
    if v.Undefined? && default.Some? then Defined(default.value) else v
  }

  /** What a pattern reads at a position of a given array: `undefined` past its end. */
  function ValueAt<T>(arr: seq<JsValue<T>>, i: nat): JsValue<T> {
    if i < |arr| then arr[i] else Undefined
  }

  /**
   * `const [p0 = d0, p1 = d1, ...] = arr`: the values bound to the pattern
   * elements, one per element, taken from `arr` in order; elements of `arr`
   * beyond the pattern are ignored.
   */
  function Destructure<T>(defaults: seq<Option<T>>, arr: seq<JsValue<T>>): (bound: seq<JsValue<T>>)
    ensures |bound| == |defaults|
    ensures forall i :: 0 <= i < |defaults| && i < |arr| && !arr[i].Undefined? ==> bound[i] == arr[i]
    ensures forall i :: 0 <= i < |defaults| && (i >= |arr| || arr[i].Undefined?) ==>
              bound[i] == (if defaults[i].Some? then Defined(defaults[i].value) else Undefined)
  {
    if defaults == [] then []
    else
      var rest := if arr == [] then [] else arr[1..];
      [BindWithDefault(ValueAt(arr, 0), defaults[0])] + Destructure(defaults[1..], rest)
  }

  /** The plain values of an array literal without holes. */
  function Literal<T>(s: seq<T>): (arr: seq<JsValue<T>>)
    ensures |arr| == |s|
    ensures forall i :: 0 <= i < |s| ==> arr[i] == Defined(s[i])
  {
    if s == [] then [] else [Defined(s[0])] + Literal(s[1..])
  }

  function NoDefaults<T>(n: nat): (d: seq<Option<T>>)
    ensures |d| == n
    ensures forall i :: 0 <= i < n ==> d[i] == None
  {
    if n == 0 then [] else [None] + NoDefaults(n - 1)
  }

  /** `const [a, b, c] = [1, 2, 3, 4, 5, 6]` binds 1, 2 and 3 and ignores the rest. */
  lemma PositionalExample()
    ensures Destructure(NoDefaults(3), Literal([1, 2, 3, 4, 5, 6]))
         == [Defined(1), Defined(2), Defined(3)]
  {
  }

  /** The chapter's examples of when a default applies. */
  lemma DefaultExamples()
    // let [foo = true] = []
    ensures Destructure([Some(true)], []) == [Defined(true)]
    // let [x, y = 'b'] = ['a']
    ensures Destructure([None, Some('b')], Literal(['a'])) == [Defined('a'), Defined('b')]
    // let [s, e = 'b'] = ['a', undefined]
    ensures Destructure([None, Some('b')], [Defined('a'), Undefined]) == [Defined('a'), Defined('b')]
    // a null element is kept: the default does not apply
    ensures Destructure([Some(1)], [Null]) == [Null]
  {
  }

  /**
   * `const [a, b, c, d, e] = "hello"` binds the characters in order; the string
   * has exactly five characters, so every pattern element gets one.
   */
  lemma StringDestructuring()
    ensures Destructure(NoDefaults(5), Literal("hello"))
         == [Defined('h'), Defined('e'), Defined('l'), Defined('l'), Defined('o')]
    ensures |"hello"| == 5
  {
  }

  // ---------------------------------------------------------------------------
  // add([x, y]) and the pair-summing map

  /**
   * `function add([x, y]) { return x + y }`: the parameter pattern reads the
   * first two positions of the argument (see `AddDestructures`). It sums the
   * first two elements and ignores the rest; a missing or `undefined` element
   * makes the sum NaN, and `null` counts as 0.
   */
  function Add(arr: seq<JsValue<int>>): (r: Number)
    ensures |arr| >= 2 && arr[0].Defined? && arr[1].Defined? ==> r == Int(arr[0].value + arr[1].value)
    ensures r.NaN? <==> |arr| < 2 || arr[0].Undefined? || arr[1].Undefined?
    ensures |arr| >= 2 && !arr[0].Undefined? && !arr[1].Undefined? ==>
              r == Int((if arr[0].Null? then 0 else arr[0].value) + (if arr[1].Null? then 0 else arr[1].value))
  {
    Plus(ToNumber(ValueAt(arr, 0)), ToNumber(ValueAt(arr, 1)))
  }

  /** `add`'s parameter is the array pattern `[x, y]` without defaults. */
  lemma AddDestructures(arr: seq<JsValue<int>>)
    ensures var xy := Destructure([None, None], arr);
            Add(arr) == Plus(ToNumber(xy[0]), ToNumber(xy[1]))
  {
  }

  /** `pairs.map(([a, b]) => a + b)`: one sum per pair, in order. */
  function PairSums(pairs: seq<seq<JsValue<int>>>): (r: seq<Number>)
    ensures |r| == |pairs|
    ensures forall i :: 0 <= i < |pairs| ==> r[i] == Add(pairs[i])
  {
    if pairs == [] then []
    else
      [Add(pairs[0])] + PairSums(pairs[1..])
  }

  lemma AddAndMapExamples()
    ensures Add(Literal([1, 2])) == Int(3)
    ensures PairSums([Literal([1, 2]), Literal([3, 4])]) == [Int(3), Int(7)]
  {
  }

  // ---------------------------------------------------------------------------
  // move({x = 0, y = 0} = {})

  /** An argument object; a property it lacks reads as `undefined`. */
  datatype Coords = Coords(x: JsValue<int>, y: JsValue<int>)

  /** The TypeError of destructuring `null`. */
  datatype TypeError = CannotDestructureNull

  /**
   * `move({x = 0, y = 0} = {})` returns `[x, y]`. A missing argument becomes
   * `{}`; each coordinate that is `undefined` becomes 0; an argument of `null`
   * cannot be destructured and throws.
   */
  function Move(arg: JsValue<Coords>): (r: Result<seq<JsValue<int>>, TypeError>)
    ensures r.Failure? <==> arg.Null?
    ensures arg.Undefined? ==> r == Success([Defined(0), Defined(0)])
    ensures arg.Defined? ==> r.Success? && |r.value| == 2
    ensures arg.Defined? ==> r.value[0] == (if arg.value.x.Undefined? then Defined(0) else arg.value.x)
    ensures arg.Defined? ==> r.value[1] == (if arg.value.y.Undefined? then Defined(0) else arg.value.y)
  {
    if arg.Null? then Failure(CannotDestructureNull)
    else
      var c := match arg case Defined(c) => c case _ => Coords(Undefined, Undefined);
      Success([BindWithDefault(c.x, Some(0)), BindWithDefault(c.y, Some(0))])
  }

  lemma MoveExamples()
    ensures Move(Defined(Coords(Defined(3), Defined(8)))) == Success([Defined(3), Defined(8)])
    ensures Move(Defined(Coords(Defined(3), Undefined))) == Success([Defined(3), Defined(0)])
    ensures Move(Defined(Coords(Undefined, Undefined))) == Success([Defined(0), Defined(0)])
    ensures Move(Undefined) == Success([Defined(0), Defined(0)])
  {
  }
}
