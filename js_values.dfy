/** The JavaScript values the session hooks inspect: field values of
    documents, request ids and query parameters. */
module JsValues {

  datatype Option<+T> = None | Some(value: T)

  /** A field value. Objects, arrays and ObjectIDs are opaque references,
      which JavaScript always treats as truthy. */
  datatype JsValue =
    | Undefined
    | Null
    | Bool(b: bool)
    | Num(n: int)
    | Str(s: string)
    | Ref(handle: nat)

  /** JavaScript truthiness (`if (v)`); NaN and -0 are not modelled. */
  predicate Truthy(v: JsValue) {
    match v
    case Undefined => false
    case Null => false
    case Bool(b) => b
    case Num(n) => n != 0
    case Str(s) => s != ""
    case Ref(_) => true
  }

  /** A plain object: a document, a query or a filter. */
  type Doc = map<string, JsValue>

  /** Property access `d[key]`: a missing key reads as undefined. */
  function Get(d: Doc, key: string): JsValue {
    if key in d then d[key] else Undefined
  }
}
