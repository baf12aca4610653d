/**
 The slice of JavaScript's value semantics that the CI engine relies on:
 configuration objects (with their property order), truthiness, strict
 equality, string conversion, and `Error` objects that carry extra
 properties such as `exitCode` or `projectStepError`.

 Numbers are integers here: no configuration value in this model is a
 fraction, NaN or infinity.
 */
module Js {
  import opened Text

  datatype Option<T> = None | Some(value: T)

  /** A JavaScript value as configuration files and API bodies produce it.
      Objects keep their properties in enumeration order, as the reader
      supplies it (integer-like keys first, ascending, then the others in
      insertion order). */
  datatype Value =
    | Undefined
    | Null
    | Bool(b: bool)
    | Num(n: int)
    | Str(s: string)
    | Arr(items: seq<Value>)
    | Obj(fields: seq<(string, Value)>)
    | RegExp(source: string)

  /** The own enumerable properties of an object, in enumeration order. */
  type Fields = seq<(string, Value)>

  /** An `Error` object: its message and any properties added to it. */
  datatype Error = Error(message: string, props: Fields)

  datatype Result<T> = Ok(value: T) | Err(error: Error) {
    predicate IsFailure() {
      Err?
    }

    function PropagateFailure<U>(): Result<U>
      requires Err?
    {
      Err(error)
    }

    function Extract(): T
      requires Ok?
    {
      value
    }
  }

  /** `new Error(message)`. */
  function Fail(message: string): Error {
    Error(message, [])
  }

  /** `obj[key]` on an object's own properties: the first property named `key`, else `undefined`. */
  function Lookup(f: Fields, key: string): (v: Value)
    ensures v != Undefined ==> exists i :: 0 <= i < |f| && f[i] == (key, v)
    ensures v != Undefined ==> Has(f, key)
    decreases |f|
  {
    if |f| == 0 then Undefined
    else if f[0].0 == key then f[0].1
    else Lookup(f[1..], key)
  }

  /** `_.has(obj, key)`. */
  predicate Has(f: Fields, key: string)
    decreases |f|
  {
    |f| > 0 && (f[0].0 == key || Has(f[1..], key))
  }

  /** `obj[key] = v`: overwrite the property in place, or append it. */
  function Put(f: Fields, key: string, v: Value): (g: Fields)
    ensures Lookup(g, key) == v
    ensures forall k :: k != key ==> Lookup(g, k) == Lookup(f, k)
    ensures Has(g, key)
    ensures forall k :: k != key ==> (Has(g, k) <==> Has(f, k))
    ensures Has(f, key) ==> |g| == |f|
    decreases |f|
  {
    if |f| == 0 then [(key, v)]
    else if f[0].0 == key then
      assert ([(key, v)] + f[1..])[1..] == f[1..];
      [(key, v)] + f[1..]
    else
      var rest := Put(f[1..], key, v);
      assert ([f[0]] + rest)[1..] == rest;
      [f[0]] + rest
  }

  /** The keys of a JavaScript object are distinct. */
  predicate UniqueKeys(f: Fields) {
    forall i, j :: 0 <= i < j < |f| ==> f[i].0 != f[j].0
  }

  lemma {:induction false} HasIndex(f: Fields, key: string)
    ensures Has(f, key) <==> exists i :: 0 <= i < |f| && f[i].0 == key
    decreases |f|
  {
    if |f| > 0 {
      HasIndex(f[1..], key);
      if Has(f[1..], key) {
        var i :| 0 <= i < |f[1..]| && f[1..][i].0 == key;
        assert f[i + 1].0 == key;
      }
      if exists i :: 0 <= i < |f| && f[i].0 == key {
        var i :| 0 <= i < |f| && f[i].0 == key;
        if i > 0 {
          assert f[1..][i - 1].0 == key;
        }
      }
    }
  }

  /** Property access on any non-nullish value: only objects have the properties used here. */
  function Get(v: Value, key: string): Value {
    if v.Obj? then Lookup(v.fields, key) else Undefined
  }

  /** The `TypeError` of reading property `key` of `undefined` or `null` (V8's wording). */
  function NoProperty(v: Value, key: string): Error {
    Fail("Cannot read property '" + key + "' of " + ToJsString(v))
  }

  /** `typeof v` for a primitive that is not nullish. */
  function PrimitiveType(v: Value): string {
    match v
    case Bool(_) => "boolean"
    case Num(_) => "number"
    case Str(_) => "string"
    case _ => "object"
  }

  /** The `TypeError` strict-mode code raises when it sets property `key` on
      a primitive that is not nullish (V8's wording). */
  function CannotCreateProperty(v: Value, key: string): Error {
    Fail("Cannot create property '" + key + "' on " + PrimitiveType(v) + " '" + ToJsString(v) + "'")
  }

  /** `v[key]` on a value that may be nullish: the read fails on `undefined` and `null`. */
  function ReadProperty(v: Value, key: string): (r: Result<Value>)
    ensures r.Err? <==> v.Undefined? || v.Null?
    ensures r.Ok? ==> r.value == Get(v, key)
  {
    if v.Undefined? || v.Null? then Err(NoProperty(v, key)) else Ok(Get(v, key))
  }

  /** `Number(s)` for a string: the empty string is 0, an optionally signed
      run of decimal digits is its value, anything else is `NaN` (`None`). */
  function StringToNumber(s: string): Option<int> {
    if s == "" then Some(0)
    else if (s[0] == '-' || s[0] == '+') && |s| > 1 && AllDigits(s[1..]) then
      var v: int := DigitsValue(s[1..]);
      Some(if s[0] == '-' then -v else v)
    else if AllDigits(s) then Some(DigitsValue(s))
    else None
  }

  /** `Number(v)`. */
  function ToNumber(v: Value): Option<int> {
    match v
    case Undefined => None
    case Null => Some(0)
    case Bool(b) => Some(if b then 1 else 0)
    case Num(n) => Some(n)
    case Str(s) => StringToNumber(s)
    case Arr(_) => StringToNumber(ToJsString(v))
    case Obj(_) => None
    case RegExp(_) => None
  }

  /** `Number(String(n)) === n`. */
  lemma StringToNumberOfIntToString(n: int)
    ensures StringToNumber(IntToString(n)) == Some(n)
  {
    var s := IntToString(n);
    if n < 0 {
      var digits := NatToString(-n);
      assert s == "-" + digits && s[1..] == digits;
      assert AllDigits(digits);
      DigitsValueOfNatToString(-n);
    } else {
      var digits := NatToString(n);
      assert s == digits && AllDigits(digits);
      assert s != "";
      DigitsValueOfNatToString(n);
    }
  }

  /** JavaScript truthiness (`!!v`). */
  predicate Truthy(v: Value) {
    match v
    case Undefined => false
    case Null => false
    case Bool(b) => b
    case Num(n) => n != 0
    case Str(s) => s != ""
    case Arr(_) => true
    case Obj(_) => true
    case RegExp(_) => true
  }

  /** `_.isObject(v)`: arrays and regular expressions are objects too. */
  predicate IsObjectLike(v: Value) {
    v.Arr? || v.Obj? || v.RegExp?
  }

  /** `a === b`. Two compound values are taken to be distinct objects:
      no configuration value here is compared with itself by reference. */
  predicate StrictEquals(a: Value, b: Value) {
    match (a, b)
    case (Undefined, Undefined) => true
    case (Null, Null) => true
    case (Bool(x), Bool(y)) => x == y
    case (Num(x), Num(y)) => x == y
    case (Str(x), Str(y)) => x == y
    case _ => false
  }

  /** Strict equality with a string is equality with that string. */
  lemma StrictEqualsString(a: Value, s: string)
    ensures StrictEquals(a, Str(s)) <==> a == Str(s)
  {
  }

  /** `String(v)`. */
  function ToJsString(v: Value): string
    decreases v
  {
    match v
    case Undefined => "undefined"
    case Null => "null"
    case Bool(b) => if b then "true" else "false"
    case Num(n) => IntToString(n)
    case Str(s) => s
    case Arr(items) =>
      Join(seq(|items|, i requires 0 <= i < |items| =>
        if items[i].Undefined? || items[i].Null? then "" else ToJsString(items[i])), ",")
    case Obj(_) => "[object Object]"
    case RegExp(source) => "/" + source + "/"
  }

  /** `err.message = prefix + err.message`, keeping every other property. */
  function PrefixMessage(e: Error, prefix: string): (r: Error)
    ensures r.props == e.props
    ensures StartsWith(r.message, prefix) && r.message[|prefix|..] == e.message
  {
    Error(prefix + e.message, e.props)
  }

  /** `err[key] = v`. */
  function SetProp(e: Error, key: string, v: Value): (r: Error)
    ensures r.message == e.message
    ensures Lookup(r.props, key) == v
    ensures forall k :: k != key ==> Lookup(r.props, k) == Lookup(e.props, k)
  {
    Error(e.message, Put(e.props, key, v))
  }
}
