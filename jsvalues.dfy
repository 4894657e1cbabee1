/** JavaScript values as the adapter sees them: parsed JSON from the auction
    server and the host framework's plain objects. A property that is not
    there reads as `undefined`, which the model writes as `None` of an
    `Option<Value>`. */
module JsValues {

  datatype Option<+T> = None | Some(value: T)

  /** A JSON value. Numbers are integers in this model: the adapter copies
      numbers through unchanged, and the only arithmetic it does is adding a
      time-to-live to the clock. */
  datatype Value =
    | JNull
    | JBool(b: bool)
    | JNum(n: int)
    | JStr(s: string)
    | JArr(items: seq<Value>)
    | JObj(fields: map<string, Value>)

  /** `v.key` for a fixed, non-inherited key: an object yields its own
      property, every other value yields `undefined`. */
  function Get(v: Value, key: string): Option<Value>
  {
    if v.JObj? && key in v.fields then Some(v.fields[key]) else None
  }

  /** `v?.key`: `undefined` when `v` is `undefined` or `null`. */
  function GetOpt(v: Option<Value>, key: string): Option<Value>
  {
    if v.None? || v.value.JNull? then None else Get(v.value, key)
  }

  /** JavaScript truthiness (no NaN in this model). */
  predicate Truthy(v: Option<Value>)
  {
    match v
    case None => false
    case Some(JNull) => false
    case Some(JBool(b)) => b
    case Some(JNum(n)) => n != 0
    case Some(JStr(s)) => s != ""
    case Some(JArr(_)) => true
    case Some(JObj(_)) => true
  }

  /** The host utility `isPlainObject`. */
  predicate IsPlainObject(v: Option<Value>)
  {
    v.Some? && v.value.JObj?
  }

  /** The host utility `isArray`. */
  predicate IsArray(v: Option<Value>)
  {
    v.Some? && v.value.JArr?
  }

  /** Object destructuring `const {a} = v` throws exactly when `v` is
      `undefined` or `null`. */
  predicate Destructurable(v: Option<Value>)
  {
    v.Some? && !v.value.JNull?
  }

  /** `a ?? b` */
  function Coalesce(a: Option<Value>, b: Value): Value
  {
    if a.None? || a.value.JNull? then b else a.value
  }
}
