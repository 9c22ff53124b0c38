/**
 * `verify_api_key`: the API key check run before every NetSuite endpoint.
 * The configured key is a parameter (it comes from the environment); a
 * rejection is the `HTTPException` the dependency raises.
 */
module Security {
  import opened Results

  /** An HTTP error response: status, the "error" title and the "message" detail. */
  datatype Rejection = Rejection(status: int, error: string, message: string)

  const MissingKey := "Missing API key. Provide via X-API-Key header or api_key query parameter."
  const InvalidKey := "Invalid API key"

  /** `x_api_key or api_key`: a non-empty header wins, else whatever the query holds. */
  function Provided(header: Option<string>, query: Option<string>): (p: Option<string>)
    ensures header.Some? && header.value != "" ==> p == header
    ensures !(header.Some? && header.value != "") ==> p == query
  {
    if header.Some? && header.value != "" then header else query
  }

  /**
   * `verify_api_key(x_api_key, api_key)` against the configured key. An
   * empty configured key disables the check and yields "".
   */
  function VerifyApiKey(configured: string, header: Option<string>, query: Option<string>): (r: Result<string, Rejection>)
    ensures configured == "" ==> r == Ok("")
    ensures configured != "" && r.Ok? ==> r.value == configured
    ensures configured != "" ==>
              (r.Ok? <==> Provided(header, query) == Some(configured))
    ensures r.Err? ==> r.error.status == 401 && r.error.error == "Unauthorized"
    ensures r.Err? ==>
              (r.error.message == MissingKey <==> Provided(header, query) in {Nothing, Some("")})
  {
    if configured == "" then Ok("")
    else
      var p := Provided(header, query);
      if p.Nothing? || p.value == "" then Err(Rejection(401, "Unauthorized", MissingKey))
      else if p.value != configured then Err(Rejection(401, "Unauthorized", InvalidKey))
      else Ok(p.value)
  }

  /** A non-empty header key decides alone: the query key is not looked at. */
  lemma HeaderTakesPrecedence(configured: string, h: string, q1: Option<string>, q2: Option<string>)
    requires h != ""
    ensures VerifyApiKey(configured, Some(h), q1) == VerifyApiKey(configured, Some(h), q2)
  {
  }

  /** A wrong header key is refused even when the query carries the right one. */
  lemma WrongHeaderNotRescuedByQuery(configured: string, h: string)
    requires configured != "" && h != "" && h != configured
    ensures VerifyApiKey(configured, Some(h), Some(configured)) == Err(Rejection(401, "Unauthorized", InvalidKey))
  {
  }

  /** An empty header counts as absent: the query key is used. */
  lemma EmptyHeaderFallsBack(configured: string, q: Option<string>)
    ensures VerifyApiKey(configured, Some(""), q) == VerifyApiKey(configured, Nothing, q)
  {
  }
}
