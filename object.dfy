/**
 * The object chapter's pieces with behaviour: the shorthand literal `{ x, y }`,
 * the `cart` object whose `wheels` setter refuses to go down, and the
 * optional-chaining lookup with a `??` default.
 */
module Objects {
  import opened JsRuntime

  // ---------------------------------------------------------------------------
  // f(x, y) { return { x, y } }

  /** `{ x, y }` is `{ x: x, y: y }`: exactly the two properties named after the variables. */
  function F<T>(x: T, y: T): (r: map<string, T>)
    ensures r.Keys == {"x", "y"}
    ensures r["x"] == x && r["y"] == y
  {
    map["x" := x, "y" := y]
  }

  // ---------------------------------------------------------------------------
  // cart: get wheels / set wheels

  /** `new Error('数值太小了！')`, the only failure of the setter. */
  datatype SetOutcome = Pass | Fail(message: string)

  const TooSmall: string := "数值太小了！"

  /**
   * `cart.wheels = value` on a cart holding `current`: the outcome and the
   * `_wheels` afterwards. A value below the current one throws and leaves
   * `_wheels` alone; any other value is stored.
   */
  function SetWheels(current: int, value: int): (r: (SetOutcome, int))
    ensures r.0.Fail? <==> value < current
    ensures r.0.Fail? ==> r.0.message == TooSmall && r.1 == current
    ensures r.0.Pass? ==> r.1 == value
    ensures r.1 >= current
    ensures value == current ==> r == (Pass, current)
  {
    if value < current then (Fail(TooSmall), current) else (Pass, value)
  }

  /** `_wheels` after a series of assignments, each one that throws being caught. */
  function SetAll(current: int, values: seq<int>): int
    decreases |values|
  {
    if values == [] then current
    else SetAll(SetWheels(current, values[0]).1, values[1..])
  }

  function Max(a: int, b: int): int {
    if a < b then b else a
  }

  /** The largest of `start` and the `values`. */
  function MaxOf(start: int, values: seq<int>): (m: int)
    ensures m >= start
    ensures forall i :: 0 <= i < |values| ==> m >= values[i]
    ensures m == start || m in values
    decreases |values|
  {
    if values == [] then start else MaxOf(Max(start, values[0]), values[1..])
  }

  /**
   * Whatever is assigned, and in whatever order, `_wheels` ends up as the
   * largest of its start value and everything assigned: it never decreases.
   */
  lemma {:induction false} SetAllIsRunningMax(current: int, values: seq<int>)
    ensures SetAll(current, values) == MaxOf(current, values)
    decreases |values|
  {
    if values != [] {
      SetAllIsRunningMax(SetWheels(current, values[0]).1, values[1..]);
    }
  }

  /** The `cart` object literal. */
  class Cart {
    var wheels: int

    constructor()
      ensures wheels == 4 && Wheels() == 4
    {
      wheels := 4;
    }

    /** `get wheels()` */
    function Wheels(): int
      reads this
    {
      wheels
    }

    /** `set wheels(value)` */
    method SetWheelsTo(value: int) returns (outcome: SetOutcome)
      modifies this
      ensures (outcome, wheels) == SetWheels(old(wheels), value)
      ensures wheels >= old(wheels)
    {
      if value < wheels {
        outcome := Fail(TooSmall);
        return;
      }
      wheels := value;
      outcome := Pass;
    }
  }

  // ---------------------------------------------------------------------------
  // obj?.user?.weight ?? 160

  datatype User = User(name: string, age: int, weight: JsValue<int>)

  datatype Profile = Profile(user: JsValue<User>)

  /** `obj?.user?.weight`: `undefined` as soon as a link in the chain is `null` or `undefined`. */
  function OptionalWeight(obj: JsValue<Profile>): (w: JsValue<int>)
    ensures w.Defined? <==> obj.Defined? && obj.value.user.Defined? && obj.value.user.value.weight.Defined?
    ensures w.Defined? ==> w.value == obj.value.user.value.weight.value
    ensures !(obj.Defined? && obj.value.user.Defined?) ==> w.Undefined?
  {
    match obj
    case Defined(o) =>
      (match o.user
       case Defined(u) => u.weight
       case _ => Undefined)
    case _ => Undefined
  }

  /** `a ?? d`: `d` only for `null` and `undefined`; a 0 stays 0. */
  function Coalesce<T>(a: JsValue<T>, d: T): (r: T)
    ensures a.Defined? ==> r == a.value
    ensures !a.Defined? ==> r == d
  {
    if a.Defined? then a.value else d
  }

  /** `obj?.user?.weight ?? 160` */
  function WeightOrDefault(obj: JsValue<Profile>): (w: int)
    ensures OptionalWeight(obj).Defined? ==> w == OptionalWeight(obj).value
    ensures !OptionalWeight(obj).Defined? ==> w == 160
  {
    Coalesce(OptionalWeight(obj), 160)
  }

  /** The sample object stores a weight of 150, so the expression gives 150. */
  lemma SampleWeight()
    ensures WeightOrDefault(Defined(Profile(Defined(User("Forest", 22, Defined(150)))))) == 150
    ensures WeightOrDefault(Defined(Profile(Defined(User("Forest", 22, Undefined))))) == 160
    ensures WeightOrDefault(Defined(Profile(Null))) == 160
  {
  }
}
