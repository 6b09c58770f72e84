/** The parts of an Express request and response the middlewares touch. */
module Http {
  import opened Wrappers

  /** `req.headers`: Node lower-cases every header name. */
  type Headers = map<string, string>

  const AuthorizationHeader: string := "authorization"

  /** `req.headers[name]`, `undefined` when the header was not sent. */
  function Header(headers: Headers, name: string): Option<string>
  {
    if name in headers then Some(headers[name]) else None
  }

  /** JavaScript truthiness of a string that may be `undefined`. */
  predicate Truthy(v: Option<string>)
  {
    v.Some? && v.value != ""
  }

  /** What a middleware does: call `next()`, or end with `res.status(s).json({ error })`. */
  datatype MiddlewareResult = Next | Respond(status: nat, error: string)

  const MissingToken: MiddlewareResult := Respond(401, "Missing token")
  const InvalidToken: MiddlewareResult := Respond(403, "Invalid token")
}
