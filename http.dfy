/** What the services send to and receive from the OpenSky REST API, and the Python values
    they handle. The network itself is not modelled: a call is an oracle `Request -> Outcome`. */
module Http {
  import opened Wrappers

  /** A query-string value as the services pass it to `requests`. */
  datatype Param = PStr(s: string) | PInt(i: int) | PNum(x: real)

  /** The `auth=` argument: none, or HTTP basic credentials (either part may be `None`). */
  datatype Auth = NoAuth | Basic(user: Option<string>, password: Option<string>)

  /** One `session.get(url, params=..., auth=..., timeout=...)`. */
  datatype Request = Request(url: string, params: map<string, Param>, auth: Auth, timeout: nat)

  /** What a call yields: a `requests` exception, or a response with status and parsed body. */
  datatype Outcome<B> = Raised | Response(status: int, body: B)

  /** A parsed JSON document (`response.json()`), numbers taken as reals. */
  datatype Json =
    | JNull
    | JBool(b: bool)
    | JNum(x: real)
    | JStr(s: string)
    | JArray(items: seq<Json>)
    | JObject(fields: map<string, Json>)

  /** Python truthiness of the value `response.json()` returns: `None`, `False`, zero and
      empty strings, lists and dicts are false. */
  predicate Truthy(j: Json) {
    match j
    case JNull => false
    case JBool(b) => b
    case JNum(x) => x != 0.0
    case JStr(s) => s != ""
    case JArray(items) => items != []
    case JObject(fields) => fields != map[]
  }

  /** Python truthiness of an optional string. */
  predicate TruthyStr(s: Option<string>) {
    s.Some? && s.value != ""
  }
}
