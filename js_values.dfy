/**
 * JavaScript values as the zod schemas see them, and the field checks those
 * schemas are built from. Numbers are finite doubles, kept as reals, so the
 * `Infinity` that an out-of-range JSON literal such as `1e400` parses to is not
 * represented; key order and prototypes play no part.
 */
module JsValues {
  import opened Wrappers
  import opened JsText

  datatype JsValue =
    | JsNull
    | JsBool(b: bool)
    | JsNumber(n: real)
    | JsString(s: string)
    | JsArray(items: seq<JsValue>)
    | JsObject(fields: map<string, JsValue>)

  /** `obj[key]` on something zod has found to be an object; `None` is `undefined`. */
  function Field(v: Option<JsValue>, key: string): (f: Option<JsValue>)
    requires IsObject(v)
    ensures f.Some? <==> key in v.value.fields
  {
    if key in v.value.fields then Some(v.value.fields[key]) else None
  }

  /** `z.object(...)` first asks for a plain object: not `undefined`, `null` or an array. */
  predicate IsObject(v: Option<JsValue>) {
    v.Some? && v.value.JsObject?
  }

  /** `z.string()`. */
  predicate IsString(v: Option<JsValue>) {
    v.Some? && v.value.JsString?
  }

  /** `z.string().length(n)`: a string of exactly `n` UTF-16 code units. */
  predicate IsStringOfLength(v: Option<JsValue>, n: nat) {
    IsString(v) && JsLength(v.value.s) == n
  }

  /** `z.number()`. */
  predicate IsNumber(v: Option<JsValue>) {
    v.Some? && v.value.JsNumber?
  }

  /** `z.boolean()`. */
  predicate IsBoolean(v: Option<JsValue>) {
    v.Some? && v.value.JsBool?
  }

  /** `z.string().uuid()`, with the UUID pattern left abstract as `isUuid`. */
  predicate IsUuidString(v: Option<JsValue>, isUuid: string -> bool) {
    IsString(v) && isUuid(v.value.s)
  }

  /** `=== null`. */
  predicate IsStrictNull(v: Option<JsValue>) {
    v == Some(JsNull)
  }

  /** `== null`: `null` or `undefined`. */
  predicate IsLooseNull(v: Option<JsValue>) {
    v == None || v == Some(JsNull)
  }
}
