# ES6 tutorial snippets, modelled in Dafny

This project models the ES6 study notes in the `es6/` folder. It covers only
the snippets that compute or change something:

- **Functions** (`func.dfy`, module `Func`): the accumulator-passing
  `tailFactorial`/`factorial`, and the curried
  `insert(value).into(array).after(afterValue)` with its arrow-function twin
  `insertNews`. Both splice `value` into the caller's array right after the
  first `afterValue`.
- **Iterators** (`iterator.dfy`, module `Iterators`): the hand-written
  `[Symbol.iterator]()` of an object holding `data`, and the generator
  `function* () { yield 1; yield* [2, 3, 4]; yield 5; }`. Each is a state
  machine driven by `next()`.
- **Classes** (`class.dfy`, module `Classes`):
  - `Point` and its `toString`;
  - the public and the private `IncreasingCounter`;
  - `Foo` with its private `#sum`;
  - `Counter` with a private accessor pair;
  - `FakeMath.random`;
  - the `copyProperties(target, source)` helper used by the mixin example.
- **Objects** (`object.dfy`, module `Objects`):
  - the shorthand literal `{ x, y }`;
  - the `cart` object, whose `wheels` setter throws on a smaller value;
  - `obj?.user?.weight ?? 160`.
- **Destructuring** (`destructuring.dfy`, module `Destructuring`):
  - array patterns with defaults (a default applies to `undefined` and never
    to `null`);
  - string destructuring;
  - `add([x, y])` and the pair-summing `map`;
  - `move({x = 0, y = 0} = {})`, which throws when given `null`.
- **Runtime pieces** (`js_runtime.dfy`, module `JsRuntime`): the parts of
  JavaScript's semantics the snippets depend on:
  - `undefined`/`null` (`JsValue`);
  - numbers with NaN, and `+` on numbers;
  - `Array.prototype.indexOf`;
  - the decimal text of an integer.

Numbers are mathematical integers. Objects whose fields the snippets update
become classes: `JsArray`, `IterableData`, `ArrayIterator`, `Generator`, the
counters, `Counter`, `Cart` and `JsObject`. Some state-changing members are
proved against a pure function, and the lemmas about the snippets' behaviour
are stated on those functions:
- `JsArray.SpliceInsert` against `SpliceStart`;
- the methods `Insert` and `InsertNews`, which change a `JsArray`, against
  `InsertedAfter`;
- `ArrayIterator.Next` against `Step`;
- `Generator.Next` against `GenStep`;
- `Cart.SetWheelsTo` against `SetWheels`.

The counters, `Counter` and `JsObject.DefineProperty` state their new field
values directly.
`CopyProperties` is proved against the reference function `CopyResult`.

## Model

| member | source | states |
|---|---|---|
| `Func.TailFactorial` | es6/func.js:129-132 | for every `n >= 1`, the result is `total * n!`: the accumulator invariant of the tail recursion |
| `Func.Factorial` | es6/func.js:134-136 | `factorial(n)` is exactly `n!` for every `n >= 1` |
| `Func.FactorialOfFive` | es6/func.js:138-139 | `factorial(5)` is 120 and `factorial(2)` is 2 |
| `Func.TailFactorialBase` | es6/func.js:130 | when `n` is 1 the accumulator is returned untouched |
| `JsRuntime.IndexOf` | es6/func.js:70 | `indexOf` is -1 exactly when the value is absent; otherwise it is a position holding the value with no earlier occurrence |
| `JsRuntime.IndexOfFirst` | es6/func.js:70 | the first position holding a value is the one `indexOf` finds |
| `Func.SpliceStart` | es6/func.js:70 | the start `splice` uses is always within `0..length`, and an in-range start is used as given |
| `Func.InsertedAfter` | es6/func.js:70 | the array grows by exactly one element; when `afterValue` is absent, `value` goes to the front |
| `Func.InsertedAfterFirstOccurrence` | es6/func.js:69-72 | with `k` the first position of `afterValue`: elements up to `k` stay, `value` sits at `k + 1`, the rest follows in its old order |
| `Func.InsertedAfterRemoves` | es6/func.js:70 | deleting the inserted element restores the original array |
| `Func.InsertTwoIntoOneThree` | es6/func.js:78 | `insert(2).into([1, 3]).after(1)` gives `[1, 2, 3]`; with an absent `afterValue` the 2 goes first |
| `Func.JsArray.constructor` | es6/func.js:78 | the array literal `[1, 3]` is an array object holding exactly the given elements, in order |
| `Func.JsArray.SpliceInsert` | es6/func.js:70 | `splice(start, 0, item)` puts `item` at the clamped start and keeps every other element in order |
| `Func.Insert` | es6/func.js:65-76 | changes the array in place to the insertion result and returns that same array object |
| `Func.InsertNews` | es6/func.js:82-89 | the arrow-function version has the same effect and returns the same array object |
| `Iterators.Step` | es6/iterator.js:30-38 | `next()` reports `done` exactly when the cursor is at or past the end of `data`; otherwise it yields `data[index]` and advances by one; a done call leaves the cursor alone |
| `Iterators.IterableData.constructor` | es6/iterator.js:24-25 | the object literal `obj` holds exactly the given `data` |
| `Iterators.ArrayIterator.constructor` | es6/iterator.js:27-29 | the returned iterator reads the `data` of the object it was made from, with its cursor `index` at 0 |
| `Iterators.ArrayIterator.Next` | es6/iterator.js:30-38 | one `next()` call on the live iterator object agrees with `Step` over the `data` its source holds at that moment |
| `Iterators.IterableData.Iterator` | es6/iterator.js:26-28 | each `[Symbol.iterator]()` call makes a fresh iterator over this object's `data`, with its cursor at 0 |
| `Iterators.ExhaustionIsPermanent` | es6/iterator.js:31-37 | once exhausted, every further call returns `{ value: undefined, done: true }` while `data` does not grow |
| `Iterators.ResumesAfterGrowth` | es6/iterator.js:31-33 | `next()` reads `self.data` at each call: an exhausted iterator yields an element appended to `data` afterwards |
| `Iterators.RunFrom` | es6/iterator.js:28-38 | from any cursor, the calls return the remaining elements in order, then `done` forever |
| `Iterators.IterationYieldsData` | es6/iterator.js:24-41 | a fresh iterator yields all of `data` in order and then stays done |
| `Iterators.HelloWorld` | es6/iterator.js:24-41 | the sample object yields `'hello'`, `'world'`, then done |
| `Iterators.Delegate` | es6/iterator.js:86-87 | resuming inside `yield*` keeps the delegate cursor within `1..3`, the positions of `[2, 3, 4]` that have been passed |
| `Iterators.GenStep` | es6/iterator.js:84-88 | a `next()` call keeps the delegate cursor within `1..3`; a completed generator stays completed and reports done |
| `Iterators.GenAfter` | es6/iterator.js:84-97 | every state reached by `next()` calls keeps the delegate cursor within `1..3` |
| `Iterators.GenValidIsReachable` | es6/iterator.js:84-88 | conversely, every state with a cursor in `1..3` is reached from the start by some number of `next()` calls |
| `Iterators.GeneratorStaysDone` | es6/iterator.js:97 | after completion every call returns done |
| `Iterators.DelegationOutput` | es6/iterator.js:86-87 | inside `yield* [2, 3, 4]`, the generator passes on the rest of the array, then yields 5, then is done |
| `Iterators.GeneratorOutput` | es6/iterator.js:84-97 | the generator yields 1, 2, 3, 4, 5 and then `{ value: undefined, done: true }` for any number of further calls |
| `Iterators.Generator.constructor` | es6/iterator.js:90 | calling the generator function gives a generator suspended before `yield 1`, in a valid state |
| `Iterators.Generator.Next` | es6/iterator.js:84-97 | one `next()` call on the generator object agrees with `GenStep` |
| `JsRuntime.ToNumber` | es6/destructring.js:143 | the coercion `+` applies to its operands: `undefined` becomes NaN and `null` becomes 0; `Destructuring.Add`'s contract states the effect on `add` |
| `JsRuntime.Plus` | es6/destructring.js:143 | `+` on numbers is NaN exactly when an operand is NaN, and the sum otherwise |
| `JsRuntime.NatToString` | es6/class.js:15 | the decimal text of a number is non-empty and all digits; it starts with `0` exactly for 0, which is written `0` |
| `JsRuntime.NatToStringRoundTrip` | es6/class.js:15 | reading the digits back gives the number |
| `JsRuntime.IntToString` | es6/class.js:15 | the text starts with `-` exactly for a negative number, and contains no comma and no closing parenthesis |
| `JsRuntime.IntToStringRoundTrip` | es6/class.js:15 | parsing the text of an integer gives the integer back |
| `JsRuntime.DigitsRoundTrip` | es6/class.js:15 | a digit string without a leading zero is exactly the decimal text of its value |
| `JsRuntime.ParseIntCanonical` | es6/class.js:15 | the only text that parses as `n` is the decimal text of `n`, so the text of an integer is unique |
| `Classes.Point.ToString` | es6/class.js:14-16 | `toString` loses nothing: `ParsePoint` reads both coordinates back from the text |
| `Classes.ParsePointBody` | es6/class.js:15 | in the text between the parentheses, the first comma comes right after the x text |
| `Classes.ParsePointOf` | es6/class.js:15 | text written in the `toString` format parses back into its two numbers |
| `Classes.ParsePointCanonical` | es6/class.js:14-16 | any text that parses as a point is that point's `toString`, so `toString` writes exactly `(x, y)` in canonical decimal |
| `Classes.ToStringInjective` | es6/class.js:28-30 | two points print the same exactly when they are equal |
| `Classes.PointOneTwo` | es6/class.js:18 | `new Point(1, 2)` prints as `(1, 2)` |
| `Classes.IncreasingCounter.constructor` | es6/class.js:193-195 | a new counter starts at 0 |
| `Classes.IncreasingCounter.Value` | es6/class.js:196-199 | the `value` getter returns the count and leaves it unchanged |
| `Classes.IncreasingCounter.Increment` | es6/class.js:200-202 | `increment()` adds exactly one |
| `Classes.PrivateIncreasingCounter.constructor` | es6/class.js:233 | the private count starts at 0 |
| `Classes.PrivateIncreasingCounter.Value` | es6/class.js:234-237 | the getter returns the count, which is never negative |
| `Classes.PrivateIncreasingCounter.Increment` | es6/class.js:238-240 | `increment()` adds one and keeps the count non-negative |
| `Classes.Foo.constructor` | es6/class.js:251-254 | the private fields hold the arguments, so `#sum()` is their sum |
| `Classes.Foo.Sum` | es6/class.js:257-259 | the private method `#sum()`; what it returns is stated by the constructor's contract: the sum of the two constructor arguments |
| `Classes.Foo.PrintSum` | es6/class.js:257-262 | `printSum()` produces `a + b` |
| `Classes.Counter.constructor` | es6/class.js:266-271 | `#x` reads 0 on a new counter |
| `Classes.Counter.X` | es6/class.js:274-276 | the private getter `#x`; its value is stated by the constructor (0) and by `SetX` (the last value set) |
| `Classes.Counter.SetX` | es6/class.js:274-279 | after `#x = value`, reading `#x` gives `value` |
| `Classes.Random` | es6/class.js:286-296 | `FakeMath.random()`, through `#computeRandomNumber()` and the static `#totallyRandomNumber`, always returns 4 |
| `Classes.JsObject.constructor` | es6/class.js:433 | a new object has no own properties |
| `Classes.JsObject.DefineProperty` | es6/class.js:440 | the key gets the descriptor; a new key is appended to the creation-order key list, and the keys stay distinct and in step with the properties |
| `Classes.CopyResult` | es6/class.js:433-443 | after copying, `target` has every non-excluded key of `source` with its descriptor, and every other key of its own unchanged |
| `Classes.CopyKeysIsCopyResult` | es6/class.js:434-441 | handling a list of keys one at a time copies exactly the listed, non-excluded keys of `source` |
| `Classes.CopyAllKeys` | es6/class.js:434-441 | a loop that visits every own key of `source` ends with `CopyResult` |
| `Classes.CopyOntoItself` | es6/class.js:433-443 | copying an object's properties onto itself changes nothing |
| `Classes.CopyKeysDomain` | es6/class.js:434-441 | after the loop has handled some keys, `target` has a key exactly when it had it before or the key was handled, is in `source` and is not excluded |
| `Classes.NewKeys` | es6/class.js:434-441 | the keys `copyProperties` adds to `target` are exactly the non-excluded keys of `source` that `target` lacked, and there are no more of them than there are keys |
| `Classes.NewKeysStep` | es6/class.js:434-441 | handling the next of a list of distinct keys adds it exactly when it is not excluded and `target` lacked it; such a key is in the copy so far only if `target` had it |
| `Classes.CopyOneKey` | es6/class.js:434-441 | one turn of the loop, defining the key or skipping it, moves both the properties and the key list of `target` on by one key |
| `Classes.CopyProperties` | es6/class.js:433-443 | `copyProperties` leaves `target` with `CopyResult`, even when `target` and `source` are the same object; in creation order, `target`'s old keys keep their order and are followed by `NewKeys`, the new keys in `source`'s order |
| `Objects.F` | es6/object.js:11-13 | `{ x, y }` has exactly the keys `x` and `y`, holding the two arguments |
| `Objects.SetWheels` | es6/object.js:37-42 | the setter throws exactly when the new value is smaller, and then keeps `_wheels`; otherwise it stores the value; `_wheels` never decreases |
| `Objects.MaxOf` | es6/object.js:37-42 | the reference maximum: at least the start and every value, and one of them |
| `Objects.SetAllIsRunningMax` | es6/object.js:37-42 | after any series of assignments, each failing one caught, `_wheels` is the largest of its start value and all assigned values |
| `Objects.Cart.constructor` | es6/object.js:30-35 | a cart starts with 4 wheels, as the getter reports |
| `Objects.Cart.Wheels` | es6/object.js:33-35 | `get wheels()`; the constructor states it reads 4 on a new cart |
| `Objects.Cart.SetWheelsTo` | es6/object.js:37-42 | assigning `cart.wheels` agrees with `SetWheels` |
| `Objects.OptionalWeight` | es6/object.js:89 | `obj?.user?.weight` is defined exactly when every link is; it is `undefined` as soon as a link is `null` or `undefined` |
| `Objects.Coalesce` | es6/object.js:89 | `a ?? d` keeps every defined value, 0 included, and gives `d` for `null` and `undefined` |
| `Objects.WeightOrDefault` | es6/object.js:89 | the stored weight when there is one, and 160 otherwise |
| `Objects.SampleWeight` | es6/object.js:78-90 | the sample object gives 150; a missing weight or a `null` user gives 160 |
| `Destructuring.BindWithDefault` | es6/destructring.js:46-50 | a default replaces `undefined` only; `null` and every other value are kept |
| `Destructuring.Destructure` | es6/destructring.js:4 | one binding per pattern element, taken from the array in order; positions past the end read `undefined` and take the default; extra elements are ignored |
| `Destructuring.Literal` | es6/destructring.js:4 | an array literal holds its values in order |
| `Destructuring.NoDefaults` | es6/destructring.js:4 | a pattern without defaults has `None` at every position |
| `Destructuring.PositionalExample` | es6/destructring.js:4-6 | `[a, b, c] = [1, 2, 3, 4, 5, 6]` binds 1, 2, 3 |
| `Destructuring.DefaultExamples` | es6/destructring.js:46-53 | `[foo = true] = []` binds true; `y = 'b'` and `e = 'b'` take the default; a `null` element is kept |
| `Destructuring.StringDestructuring` | es6/destructring.js:115-116 | `"hello"` destructures into its five characters in order, and has five characters |
| `Destructuring.AddDestructures` | es6/destructring.js:142-144 | `add` is `+` applied to what the pattern `[x, y]` binds |
| `Destructuring.Add` | es6/destructring.js:142-144 | `add` sums the first two elements and ignores the rest; it is NaN exactly when one of them is missing or `undefined`; `null` counts as 0 |
| `Destructuring.PairSums` | es6/destructring.js:151 | `map` gives one result per pair, in order, each equal to `add` of that pair |
| `Destructuring.AddAndMapExamples` | es6/destructring.js:146-152 | `add([1, 2])` is 3, and the pair map gives `[3, 7]` |
| `Destructuring.Move` | es6/destructring.js:155-157 | throws exactly for `null`; a missing argument gives `[0, 0]`; each `undefined` coordinate becomes 0 and any other is kept |
| `Destructuring.MoveExamples` | es6/destructring.js:159-164 | `[3, 8]`, `[3, 0]`, `[0, 0]` for `{}` and `[0, 0]` for no argument |

## Left out

- `Func.TailFactorial`: the model covers only `n >= 1`. For `n < 1` or a non-integer `n`, the code never reaches `n === 1` and would end in a stack-overflow `RangeError`. The model does not include that path.
- `Func.Factorial`: the result is the exact mathematical `n!`. JavaScript numbers are doubles, so large factorials lose precision or become `Infinity`.
- All numbers are mathematical integers: no floating point and no `Infinity`. `NaN` arises only where `undefined` is added (`add`). `FakeMath.PI` (`22 / 7`) is therefore left out.
- `JsRuntime.IntToString`: it writes plain decimal digits for every integer. JavaScript switches to exponent form once the magnitude reaches 1e21 (`String(1e21)` is `"1e+21"`). So `Point.toString` differs for such coordinates, which in JavaScript are no longer exact integers anyway.
- `+` is modelled on numbers only. String concatenation through `+` is modelled only as the `toString` text of integer coordinates.
- `Objects.SetWheels`: the setter compares integers only. JavaScript's `<` on strings and other values, and its coercions, are not modelled.
- Every `console.log` is left out, including the log lines in both `value` getters and in `FakeMath.random`. `printSum` returns the sum instead of logging it.
- `Classes.IncreasingCounter`: `_count` is a public field that any code may overwrite, so no invariant is claimed for it.
- `Objects.SetWheels`: `_wheels` (es6/object.js:31) is just as writable from outside. "never decreases" (`SetWheels`, `Cart.SetWheelsTo`, `SetAllIsRunningMax`) holds across setter calls only, not across direct writes to `cart._wheels`.
- `JsRuntime.IndexOf`: it compares with Dafny's `==`, not JavaScript's `===`. The two differ on NaN: `[NaN].indexOf(NaN)` is -1 in JavaScript, but `IndexOf([NaN], NaN)` is 0. So `insert(v).into([NaN]).after(NaN)` gives `[v, NaN]` in JavaScript but `[NaN, v]` in `Func.InsertedAfter`. The snippets only insert integers.
- `Iterators.IterableData`: `data` is a writable field that `next()` reads at each call, as es6/iterator.js:31-33 does through `self`. `ExhaustionIsPermanent`, `RunFrom` and `IterationYieldsData` describe calls during which `data` is not changed; `ResumesAfterGrowth` shows that an exhausted iterator yields again once `data` grows.
- `Classes.JsObject.DefineProperty`: descriptors are opaque values. Writability, configurability, getters/setters, and the failures of `defineProperty` are not modelled. `ownKeys` is creation order. JavaScript's `Reflect.ownKeys` lists integer-like keys first in ascending order, then the other string keys in creation order, then all symbol keys in creation order. So when an object already has a symbol key, a string key defined later is listed before it, not last. "New keys go last" (`DefineProperty`, `CopyProperties`) is a statement about creation order only.
- The `mix(...mixins)` function, which calls `copyProperties` (es6/class.js:416-431): classes and prototypes are not modelled.
- Inheritance (`ColorPoint extends Point`, es6/class.js:352-361), `super` and the private-field `in` check (es6/class.js:309-340) are left out. They demonstrate syntax and carry no state to verify.
- The `Timer` example (es6/func.js:41-56) depends on `setInterval` timers and `this` binding, so it is left out. The tail-call shapes at lines 99-117 call an unknown function `x`. The logging-only arrow functions at lines 1-25 are left out too.
- Besides the hand-written iterator and the generator, es6/iterator.js has `Set`/`Map` iteration, `for...of`/`for...in` loops and spread examples. These are left out because they exercise built-ins.
- Array patterns and string destructuring are modelled. So is the one object pattern with defaults, `move`'s parameter `{x = 0, y = 0} = {}` (`Destructuring.Move`). These are left out:
  - general object destructuring (es6/destructring.js:17);
  - `Set` destructuring (36);
  - nested destructuring (87-97);
  - `let { length } = 'hello'` (119), where JavaScript's `length` counts UTF-16 code units and Dafny counts characters;
  - number/boolean destructuring (128-132).
- The parenthesis examples at es6/destructring.js:167-207 are left out. Most are commented out. Lines 204-205 (`({ p: a }) = { p: 42 }` and `([a]) = [5]`) are live code and early SyntaxErrors, so es6/destructring.js as written does not run at all. The model describes what each snippet would do on its own.
- `Destructuring.Destructure`: default expressions are values, not lazily evaluated expressions. The snippets' defaults have no side effects.
- `Objects.OptionalWeight`: the chain works on a fixed profile shape (`obj.user.weight`), not on arbitrary objects.
- `Objects.SampleWeight`: the code yields 150, the stored weight. The comment at es6/object.js:90 says 172; the model follows the code.
- es6/promise.js, es6/async.js, es6/array.js, es6/module.js, es6/symbol.js, es6/variable.js, es6/set&map.js, the `Object.is`/`Object.assign` notes, and algorithm/link list.js are not part of this model.
- The sample call after `insertNews` (es6/func.js:91) calls `insert` again. `Func.InsertNews` is modelled from its definition at lines 82-89.
