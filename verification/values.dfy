/**
 * Decoded JSON as the watchdog inspects it: inbound messages, the container
 * inventory and the update-info document are all flat objects whose fields
 * are read with a type assertion (`data["key"].(string)` and friends). A
 * field of the wrong type reads exactly like a missing one.
 */
module Values {
  import opened Wrappers

  /** A decoded JSON value. Numbers are JSON numbers (float64 in the source),
      kept as exact reals; arrays and objects are never looked into. */
  datatype Value = Null | Bool(b: bool) | Num(n: real) | Str(s: string) | Compound

  /** A decoded JSON object. A JSON `null` object decodes to a nil map, which
      every lookup treats like the empty map. */
  type Document = map<string, Value>

  /** An external JSON file: it may be missing or unopenable, it may fail to
      decode, or it decodes to a value. */
  datatype Fetched<T> = Unavailable | Undecodable | Decoded(value: T)

  /** `doc[key].(string)` with the comma-ok form. */
  function StringField(doc: Document, key: string): (r: Option<string>)
    ensures r.Some? <==> key in doc && doc[key].Str?
    ensures r.Some? ==> doc[key] == Str(r.value)
  {
    if key in doc && doc[key].Str? then Some(doc[key].s) else None
  }

  /** `doc[key].(bool)` with the comma-ok form. */
  function BoolField(doc: Document, key: string): (r: Option<bool>)
    ensures r.Some? <==> key in doc && doc[key].Bool?
    ensures r.Some? ==> doc[key] == Bool(r.value)
  {
    if key in doc && doc[key].Bool? then Some(doc[key].b) else None
  }

  /** `doc[key].(float64)` with the comma-ok form. */
  function NumberField(doc: Document, key: string): (r: Option<real>)
    ensures r.Some? <==> key in doc && doc[key].Num?
    ensures r.Some? ==> doc[key] == Num(r.value)
  {
    if key in doc && doc[key].Num? then Some(doc[key].n) else None
  }

  /** Go's `int64(x)` on a float64: the fractional part is dropped, rounding
      toward zero on both sides of it. */
  function TruncateToInt(x: real): (n: int)
    ensures 0.0 <= x ==> 0 <= n && n as real <= x < n as real + 1.0
    ensures x < 0.0 ==> n <= 0 && n as real - 1.0 < x <= n as real
  {
    if x >= 0.0 then x.Floor else -((-x).Floor)
  }
}
