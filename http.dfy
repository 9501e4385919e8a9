/**
 * The shape of what an Express handler sends back: a status code and a JSON
 * body, as produced by `res.status(code).json(body)`.
 */
module Http {
  import opened Wrappers

  /**
   * A JSON value. Object members whose value is `undefined` are dropped by
   * JSON serialisation, so an absent member is simply not a key of the map.
   */
  datatype Json =
    | JNum(n: int)
    | JStr(s: string)
    | JTime(instant: int)   // a JavaScript Date; serialised as an ISO-8601 string
    | JObj(members: map<string, Json>)

  datatype Response = Response(status: int, body: Json)

  /** The `error` member of an error body, when there is one. */
  function ErrorOf(r: Response): Option<string>
  {
    if r.body.JObj? && "error" in r.body.members && r.body.members["error"].JStr? then
      Some(r.body.members["error"].s)
    else
      None
  }

  /** Adds `key: value` when the value is defined, as JSON.stringify does. */
  function WithOptional(m: map<string, Json>, key: string, value: Option<Json>): map<string, Json>
  {
    if value.Some? then m[key := value.value] else m
  }
}
