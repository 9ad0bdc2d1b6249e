/** The shared HTTP client's configuration: the format of the Authorization
    default header, the status the response interceptor reacts to, and the
    header seeded at boot from a token already in storage. */
module Http {
  import opened Common

  /** The status that makes the response interceptor end the session. */
  const UnauthorizedStatus := 401

  /** The interceptor's test: only an error response carrying
      `UnauthorizedStatus` ends the session; a success or a missing response
      never does. */
  predicate TerminatesSession<T>(resp: Response<T>) {
    resp.HttpError? && resp.status == UnauthorizedStatus
  }

  /** A template-literal interpolation of a token that may be `null`. */
  function Interpolated(v: Option<string>): string {
    match v
    case None => "null"
    case Some(s) => s
  }

  /** The Authorization header built from a token, as the string template does. */
  function BearerHeader(v: Option<string>): (h: string)
    ensures v.Some? ==> h == "Bearer " + v.value
    ensures v.None? ==> h == "Bearer null"
  {
    "Bearer " + Interpolated(v)
  }

  /** The Authorization default header after boot, given what storage holds
      under the token key: set only when that value is truthy. */
  function SeededHeader(stored: Option<string>): (h: Option<string>)
    ensures h.Some? <==> Truthy(stored)
    ensures h.Some? ==> h.value == "Bearer " + stored.value
  {
    if Truthy(stored) then Some(BearerHeader(stored)) else None
  }
}
