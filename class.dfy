/**
 * The classes of the class chapter that carry behaviour: `Point` and its
 * `toString`, the two `IncreasingCounter`s, `Foo` with its private `#sum`,
 * `Counter` with a private accessor pair, `FakeMath.random`, and the
 * `copyProperties` helper of the mixin example.
 */
module Classes {
  import opened JsRuntime

  // ---------------------------------------------------------------------------
  // Point (both the constructor-function and the `class` spelling)

  /** A point; its coordinates are set once, by the constructor. */
  datatype Point = Point(x: int, y: int) {
    /**
     * `'(' + this.x + ', ' + this.y + ')'`. It loses nothing: both coordinates
     * can be read back from the text.
     */
    function ToString(): (s: string)
      ensures ParsePoint(s) == Some((x, y))
    {
      IntToStringRoundTrip(x);
      IntToStringRoundTrip(y);
      ParsePointOf(IntToString(x), IntToString(y));
      "(" + IntToString(x) + ", " + IntToString(y) + ")"
    }
  }

  /** Reads a string of the form `(x, y)` back into its two coordinates. */
  function ParsePoint(s: string): Option<(int, int)> {
    if |s| < 2 || s[0] != '(' || s[|s| - 1] != ')' then None
    else
      var body := s[1..|s| - 1];
      var k := IndexOf(body, ',');
      if k < 0 || k + 2 > |body| || body[k + 1] != ' ' then None
      else
        match (ParseInt(body[..k]), ParseInt(body[k + 2..]))
        case (Some(x), Some(y)) => Some((x, y))
        case _ => None
  }

  /** The text between the parentheses splits at its first comma. */
  lemma ParsePointBody(a: string, b: string)
    requires ',' !in a
    ensures var body := a + ", " + b;
            IndexOf(body, ',') == |a| && body[..|a|] == a && body[|a| + 1] == ' ' && body[|a| + 2..] == b
  {
    var body := a + ", " + b;
    assert body[|a|] == ',';
    assert body[..|a|] == a;
    IndexOfFirst(body, ',', |a|);
    assert body[|a| + 2..] == b;
  }

  lemma ParsePointOf(a: string, b: string)
    requires ',' !in a && ParseInt(a).Some? && ParseInt(b).Some?
    ensures ParsePoint("(" + a + ", " + b + ")") == Some((ParseInt(a).value, ParseInt(b).value))
  {
    var s := "(" + a + ", " + b + ")";
    assert s[1..|s| - 1] == a + ", " + b;
    ParsePointBody(a, b);
  }

  /** Text of the shape `ParsePoint` accepts is put back together from its pieces. */
  lemma Reassemble(s: string, k: nat)
    requires |s| >= 2 && s[0] == '(' && s[|s| - 1] == ')'
    requires var body := s[1..|s| - 1];
             k + 2 <= |body| && body[k] == ',' && body[k + 1] == ' '
    ensures var body := s[1..|s| - 1];
            s == "(" + body[..k] + ", " + body[k + 2..] + ")"
  {
    var body := s[1..|s| - 1];
    assert body == body[..k] + ", " + body[k + 2..];
    assert s == "(" + body + ")";
  }

  /**
   * `toString` writes the only text `ParsePoint` reads as the point: no other
   * spelling of the coordinates (leading zeros, `-0`, other spacing) is accepted.
   */
  lemma ParsePointCanonical(s: string, x: int, y: int)
    requires ParsePoint(s) == Some((x, y))
    ensures s == Point(x, y).ToString()
  {
    assert |s| >= 2 && s[0] == '(' && s[|s| - 1] == ')';
    var body := s[1..|s| - 1];
    var k := IndexOf(body, ',');
    assert 0 <= k && k + 2 <= |body| && body[k] == ',' && body[k + 1] == ' ';
    assert ParseInt(body[..k]) == Some(x) && ParseInt(body[k + 2..]) == Some(y);
    ParseIntCanonical(body[..k], x);
    ParseIntCanonical(body[k + 2..], y);
    Reassemble(s, k);
  }

  /** Two points print alike only when they are equal. */
  lemma ToStringInjective(p: Point, q: Point)
    ensures p.ToString() == q.ToString() <==> p == q
  {
    assert ParsePoint(p.ToString()) == Some((p.x, p.y));
    assert ParsePoint(q.ToString()) == Some((q.x, q.y));
  }

  lemma PointOneTwo()
    ensures Point(1, 2).ToString() == "(1, 2)"
  {
  }

  // ---------------------------------------------------------------------------
  // IncreasingCounter

  /** The counter whose count is the public field `_count`. */
  class IncreasingCounter {
    var count: int

    constructor()
      ensures count == 0
    {
      count := 0;
    }

    /** The `value` getter: the current count, leaving it as it is. */
    method Value() returns (v: int)
      ensures v == count
    {
      v := count;
    }

    method Increment()
      modifies this
      ensures count == old(count) + 1
    {
      count := count + 1;
    }
  }

  /**
   * The counter whose count is the private field `#count`: nothing outside the
   * class can write it, so the count only ever comes from the initial 0 and
   * increments, and is never negative.
   */
  class PrivateIncreasingCounter {
    var count: int

    ghost predicate Valid()
      reads this
    {
      count >= 0
    }

    constructor()
      ensures Valid() && count == 0
    {
      count := 0;
    }

    method Value() returns (v: int)
      requires Valid()
      ensures v == count && v >= 0
    {
      v := count;
    }

    method Increment()
      requires Valid()
      modifies this
      ensures Valid() && count == old(count) + 1
    {
      count := count + 1;
    }
  }

  // ---------------------------------------------------------------------------
  // Foo, Counter, FakeMath

  /** `Foo` with private fields `#a`, `#b` set by the constructor. */
  class Foo {
    const a: int
    const b: int

    constructor(a: int, b: int)
      ensures this.a == a && this.b == b
      ensures Sum() == a + b
    {
      this.a := a;
      this.b := b;
    }

    /** The private method `#sum()`. */
    function Sum(): int {
      a + b
    }

    /** `printSum()`: the sum it would log, returned instead of logged. */
    method PrintSum() returns (s: int)
      ensures s == a + b
    {
      s := Sum();
    }
  }

  /** `Counter` with the private accessor pair `#x` over `#xValue`. */
  class Counter {
    var xValue: int

    constructor()
      ensures xValue == 0 && X() == 0
    {
      xValue := 0;
    }

    /** `get #x()` */
    function X(): int
      reads this
    {
      xValue
    }

    /** `set #x(value)`: a later `#x` read gives back `value`. */
    method SetX(value: int)
      modifies this
      ensures xValue == value && X() == value
    {
      xValue := value;
    }
  }

  /** `static #totallyRandomNumber = 4` */
  const TotallyRandomNumber: int := 4

  /** `static #computeRandomNumber()` */
  function ComputeRandomNumber(): int {
    TotallyRandomNumber
  }

  /** `FakeMath.random()`, through `#computeRandomNumber()`, is not random at all: it is always 4. */
  function Random(): (r: int)
    ensures r == 4
  {
    ComputeRandomNumber()
  }

  // ---------------------------------------------------------------------------
  // copyProperties(target, source)

  /** An own-property key: a string or a symbol. */
  datatype PropertyKey = StringKey(name: string) | SymbolKey(id: nat)

  /** The keys `copyProperties` never copies. */
  predicate IsExcluded(k: PropertyKey) {
    k == StringKey("constructor") || k == StringKey("prototype") || k == StringKey("name")
  }

  /**
   * An object's own properties: each key with its property descriptor `D`, and
   * the order in which the keys were created. `Reflect.ownKeys` visits every key
   * of this list; it lists symbol keys after string keys, which this order
   * does not.
   */
  class JsObject<D> {
    var ownKeys: seq<PropertyKey>
    var props: map<PropertyKey, D>

    ghost predicate Valid()
      reads this
    {
      && (forall i, j :: 0 <= i < j < |ownKeys| ==> ownKeys[i] != ownKeys[j])
      && (forall k :: k in props <==> k in ownKeys)
    }

    constructor()
      ensures Valid() && ownKeys == [] && props == map[]
    {
      ownKeys := [];
      props := map[];
    }

    /** `Object.defineProperty(this, key, desc)`: a new key goes last in creation order. */
    method DefineProperty(key: PropertyKey, desc: D)
      requires Valid()
      modifies this
      ensures Valid()
      ensures props == old(props)[key := desc]
      ensures ownKeys == if key in old(props) then old(ownKeys) else old(ownKeys) + [key]
    {
      if key !in props {
        ownKeys := ownKeys + [key];
      }
      props := props[key := desc];
    }
  }

  /**
   * `target` after the loop has handled `keys` in order: each non-excluded key
   * of `source` is defined with its descriptor, the others are skipped.
   */
  function CopyKeys<D>(target: map<PropertyKey, D>, source: map<PropertyKey, D>,
                       keys: seq<PropertyKey>): map<PropertyKey, D>
    decreases |keys|
  {
    if keys == [] then target
    else
      var key := keys[|keys| - 1];
      var before := CopyKeys(target, source, keys[..|keys| - 1]);
      if key in source && !IsExcluded(key) then before[key := source[key]] else before
  }

  /** Handling one more key extends the fold by that key alone. */
  lemma CopyKeysStep<D>(target: map<PropertyKey, D>, source: map<PropertyKey, D>,
                        keys: seq<PropertyKey>, i: nat)
    requires i < |keys|
    ensures CopyKeys(target, source, keys[..i + 1])
         == (var before := CopyKeys(target, source, keys[..i]);
             if keys[i] in source && !IsExcluded(keys[i]) then before[keys[i] := source[keys[i]]] else before)
  {
    assert keys[..i + 1][..i] == keys[..i];
  }

  /** A key is in the fold's result exactly when `target` had it or it was copied. */
  lemma {:induction false} CopyKeysDomain<D>(target: map<PropertyKey, D>, source: map<PropertyKey, D>,
                                             keys: seq<PropertyKey>, k: PropertyKey)
    ensures k in CopyKeys(target, source, keys) <==> k in target || (k in keys && k in source && !IsExcluded(k))
    decreases |keys|
  {
    if keys != [] {
      var prefix := keys[..|keys| - 1];
      CopyKeysDomain(target, source, prefix, k);
      assert keys == prefix + [keys[|keys| - 1]];
    }
  }

  /**
   * The keys `copyProperties` adds to an object holding `target`, in the order
   * it adds them: the non-excluded ones among `keys` that `target` lacked.
   */
  function NewKeys<D>(target: map<PropertyKey, D>, keys: seq<PropertyKey>): (r: seq<PropertyKey>)
    ensures forall k :: k in r <==> k in keys && !IsExcluded(k) && k !in target
    ensures |r| <= |keys|
    decreases |keys|
  {
    if keys == [] then []
    else
      var key := keys[|keys| - 1];
      var prefix := keys[..|keys| - 1];
      assert keys == prefix + [key];
      NewKeys(target, prefix) + if !IsExcluded(key) && key !in target then [key] else []
  }

  /**
   * Handling key `i` of distinct `keys` appends it to the object's key list
   * exactly when it is new to the object and not excluded.
   */
  lemma NewKeysStep<D>(target: map<PropertyKey, D>, source: map<PropertyKey, D>,
                       keys: seq<PropertyKey>, i: nat)
    requires i < |keys| && keys[i] in source
    requires forall a, b :: 0 <= a < b < |keys| ==> keys[a] != keys[b]
    ensures NewKeys(target, keys[..i + 1])
         == NewKeys(target, keys[..i]) + if !IsExcluded(keys[i]) && keys[i] !in target then [keys[i]] else []
    ensures !IsExcluded(keys[i]) ==> (keys[i] in CopyKeys(target, source, keys[..i]) <==> keys[i] in target)
  {
    assert keys[..i + 1][..i] == keys[..i];
    CopyKeysDomain(target, source, keys[..i], keys[i]);
  }

  /**
   * The properties of `target` after `copyProperties(target, source)`: every
   * non-excluded key of `source` with its descriptor, every other key of
   * `target` as it was.
   */
  function CopyResult<D>(target: map<PropertyKey, D>, source: map<PropertyKey, D>): (r: map<PropertyKey, D>)
    ensures r.Keys == target.Keys + (set k | k in source && !IsExcluded(k))
    ensures forall k :: k in source && !IsExcluded(k) ==> r[k] == source[k]
    ensures forall k :: k in target && (k !in source || IsExcluded(k)) ==> r[k] == target[k]
  {
    target + map k | k in source && !IsExcluded(k) :: source[k]
  }

  /** Handling every key of `source`, in any order, gives `CopyResult`. */
  lemma {:induction false} CopyKeysIsCopyResult<D>(target: map<PropertyKey, D>, source: map<PropertyKey, D>,
                                                   keys: seq<PropertyKey>)
    ensures CopyKeys(target, source, keys)
         == target + map k | k in source && k in keys && !IsExcluded(k) :: source[k]
    decreases |keys|
  {
    if keys != [] {
      var prefix := keys[..|keys| - 1];
      CopyKeysIsCopyResult(target, source, prefix);
      assert keys == prefix + [keys[|keys| - 1]];
    }
  }

  /** A loop that visits every own key of `source` produces `CopyResult`. */
  lemma CopyAllKeys<D>(target: map<PropertyKey, D>, source: map<PropertyKey, D>, keys: seq<PropertyKey>)
    requires forall k :: k in source ==> k in keys
    ensures CopyKeys(target, source, keys) == CopyResult(target, source)
  {
    CopyKeysIsCopyResult(target, source, keys);
    assert (map k | k in source && k in keys && !IsExcluded(k) :: source[k])
        == (map k | k in source && !IsExcluded(k) :: source[k]);
  }

  /** Copying an object's properties onto itself changes nothing. */
  lemma {:induction false} CopyOntoItself<D>(props: map<PropertyKey, D>, keys: seq<PropertyKey>)
    ensures CopyKeys(props, props, keys) == props
    decreases |keys|
  {
    if keys != [] {
      CopyOntoItself(props, keys[..|keys| - 1]);
    }
  }

  /**
   * One turn of `copyProperties`'s loop on an object holding `props` with key
   * list `ownKeys`: defining key `i` (unless excluded) moves both on to the
   * fold over one more key.
   */
  lemma CopyOneKey<D>(initial: map<PropertyKey, D>, src: map<PropertyKey, D>, keys: seq<PropertyKey>, i: nat,
                      initialKeys: seq<PropertyKey>, props: map<PropertyKey, D>, ownKeys: seq<PropertyKey>)
    requires i < |keys| && keys[i] in src
    requires forall a, b :: 0 <= a < b < |keys| ==> keys[a] != keys[b]
    requires props == CopyKeys(initial, src, keys[..i])
    requires ownKeys == initialKeys + NewKeys(initial, keys[..i])
    ensures (if IsExcluded(keys[i]) then props else props[keys[i] := src[keys[i]]])
         == CopyKeys(initial, src, keys[..i + 1])
    ensures (if IsExcluded(keys[i]) || keys[i] in props then ownKeys else ownKeys + [keys[i]])
         == initialKeys + NewKeys(initial, keys[..i + 1])
  {
    CopyKeysStep(initial, src, keys, i);
    NewKeysStep(initial, src, keys, i);
  }

  /**
   * `copyProperties(target, source)`: every own key of `source` except
   * `constructor`, `prototype` and `name` is defined on `target` with the same
   * descriptor, overwriting a property of that name; in creation order, the keys
   * `target` had keep their order and the new ones follow in the order of
   * `source`.
   */
  method CopyProperties<D>(target: JsObject<D>, source: JsObject<D>)
    requires target.Valid() && source.Valid()
    modifies target
    ensures target.Valid()
    ensures target.props == CopyResult(old(target.props), old(source.props))
    ensures target.ownKeys == old(target.ownKeys) + NewKeys(old(target.props), old(source.ownKeys))
  {
    var keys := source.ownKeys;
    ghost var src := source.props;
    ghost var initial := target.props;
    ghost var initialKeys := target.ownKeys;
    assert target == source ==> initial == src;
    assert forall a, b :: 0 <= a < b < |keys| ==> keys[a] != keys[b];
    assert forall k :: k in src <==> k in keys;
    var i := 0;
    while i < |keys|
      invariant 0 <= i <= |keys|
      invariant target.Valid()
      invariant source.props == src
      invariant target.props == CopyKeys(initial, src, keys[..i])
      invariant target.ownKeys == initialKeys + NewKeys(initial, keys[..i])
    {
      var key := keys[i];
      CopyOneKey(initial, src, keys, i, initialKeys, target.props, target.ownKeys);
      if !IsExcluded(key) {
        var desc := source.props[key];
        target.DefineProperty(key, desc);
        if target == source {
          CopyOntoItself(src, keys[..i + 1]);
        }
      }
      i := i + 1;
    }
    assert keys[..i] == keys;
    CopyAllKeys(initial, src, keys);
  }
}
