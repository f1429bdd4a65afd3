/**
 * The JSON values a request body can parse to, and the one JavaScript
 * operation the handlers apply to them: reading a named property.
 * Numbers are integers here; fractional numbers are not modelled.
 */
module Json {

  datatype Json =
    | JNull
    | JBool(b: bool)
    | JNum(n: int)
    | JStr(s: string)
    | JArr(items: seq<Json>)
    | JObj(fields: map<string, Json>)

  /** The value of a JavaScript property read: `undefined` when the property is absent. */
  datatype Prop = Undefined | Defined(value: Json)

  /**
   * `body[key]` for a body that is not `null`. Only an object has own
   * properties named `name`, `nameKo`, `category` or `sortOrder`; on a
   * boolean, number, string or array every one of them reads as
   * `undefined`. (Reading a property of `null` throws, which callers
   * handle before calling this.)
   */
  function Property(body: Json, key: string): Prop
    requires body != JNull
  {
    if body.JObj? && key in body.fields then Defined(body.fields[key]) else Undefined
  }
}
