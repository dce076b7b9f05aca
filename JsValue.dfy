/**
 * The JavaScript values the core inspects: what `JSON.parse` returns, plus
 * `undefined`. Numbers are exact reals (a JSON number read as a double is not
 * rounded here). Objects are maps from property name to value.
 */
module JsValue {
  import opened Wrappers

  datatype Value =
    | Undefined
    | Null
    | Bool(b: bool)
    | Number(n: real)
    | Str(s: string)
    | Array(items: seq<Value>)
    | Object(fields: map<string, Value>)

  /** A TypeError thrown by reading a property of `null` or `undefined`. */
  datatype TypeError = CannotReadProperty(name: string)

  /**
   * `v.name`. Reading through `null` or `undefined` throws; an object yields its own
   * property, or `undefined`; every other value yields `undefined` (none of the
   * property names the core reads is an inherited property of a primitive or an array).
   */
  function Get(v: Value, name: string): (r: Result<Value, TypeError>)
    ensures r.Err? <==> (v.Undefined? || v.Null?)
    ensures r.Ok? && r.value != Undefined ==> v.Object? && name in v.fields && r.value == v.fields[name]
  {
    match v
    case Undefined => Err(CannotReadProperty(name))
    case Null => Err(CannotReadProperty(name))
    case Object(fields) => Ok(if name in fields then fields[name] else Undefined)
    case _ => Ok(Undefined)
  }

  /**
   * Whether `String(v)` (a template literal's `${v}`) throws a TypeError. A parsed
   * object converts through `Object.prototype.toString` unless it has an own
   * `toString` property: that value is never callable, `valueOf` then yields the
   * object itself, and the conversion throws. An array joins its elements, so it
   * throws when one of them does; every other value converts.
   */
  predicate ToStringThrows(v: Value)
    decreases v
  {
    match v
    case Object(fields) => "toString" in fields
    case Array(items) => exists i :: 0 <= i < |items| && ToStringThrows(items[i])
    case _ => false
  }

  /** JavaScript truthiness (`!!v`). NaN is not representable here. */
  predicate Truthy(v: Value) {
    match v
    case Undefined => false
    case Null => false
    case Bool(b) => b
    case Number(n) => n != 0.0
    case Str(s) => s != []
    case Array(_) => true
    case Object(_) => true
  }

  /** The type name zod reports in "Expected string, received <type>". */
  function TypeName(v: Value): string {
    match v
    case Undefined => "undefined"
    case Null => "null"
    case Bool(_) => "boolean"
    case Number(_) => "number"
    case Str(_) => "string"
    case Array(_) => "array"
    case Object(_) => "object"
  }
}
