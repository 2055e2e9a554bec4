/**
 * The JavaScript values the pipeline handles without knowing their shape:
 * parsed JSON documents, thrown exceptions, and truthiness.
 */
module Js {
  import opened Wrappers

  /** A parsed JSON document. Numbers are modelled as integers. */
  datatype Json =
    | JNull
    | JBool(b: bool)
    | JNum(n: int)
    | JStr(s: string)
    | JArr(items: seq<Json>)
    | JObj(fields: map<string, Json>)

  /** A thrown value: an `Error` with its message, or anything else. */
  datatype Exception = Error(message: string) | NonError

  /** `error instanceof Error ? error.message : 'Unknown error'`. */
  function MessageOf(e: Exception): string {
    match e
    case Error(m) => m
    case NonError => "Unknown error"
  }

  /** `JSON.parse`, left uninterpreted: it either yields a value or throws. */
  type JsonParser = string -> Result<Json, Exception>

  /** `JSON.stringify`, left uninterpreted. */
  type JsonSerializer = Json -> string

  /** JavaScript truthiness of a JSON value. */
  predicate Truthy(v: Json) {
    match v
    case JNull => false
    case JBool(b) => b
    case JNum(n) => n != 0
    case JStr(s) => s != ""
    case _ => true
  }

  /**
   * Property access `v.key`: reading from `null` throws a `TypeError`; a value
   * without that own property gives `undefined` (`None`).
   */
  function Get(v: Json, key: string): (r: Result<Option<Json>, Exception>)
    ensures r.Err? <==> v == JNull
    ensures r.Ok? && r.value.Some? ==> v.JObj? && key in v.fields && r.value.value == v.fields[key]
  {
    match v
    case JNull => Err(Error("Cannot read properties of null (reading '" + key + "')"))
    case JObj(fields) => Ok(if key in fields then Some(fields[key]) else None)
    case _ => Ok(None)
  }
}
