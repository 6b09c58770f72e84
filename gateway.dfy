/**
 * The API gateway: the `verifyJWT` middleware (auth bypass, header parse,
 * 401/403, identity injection) followed by the prefix router that picks
 * the backend a request is proxied to.
 */
module Gateway {
  import opened Wrappers
  import opened JsString
  import opened Jwt
  import opened Http

  /** The routing table, in declaration order: path prefix and backend base URL. */
  const Routes: seq<(string, string)> := [
    ("/auth", "http://localhost:3000"),
    ("/texts", "http://localhost:3001"),
    ("/images/upload", "http://localhost:4000")
  ]

  /** URLs starting with this string skip token checks. */
  const AuthPrefix: string := "/auth"

  /** The header through which the gateway tells backends who the caller is. */
  const IdentityHeader: string := "x-user"

  /** The one outcome the gateway produces for a request. */
  datatype Response =
    | Reject(status: nat, error: string)
    | Forward(target: string, headers: Headers)

  /** What `verifyJWT` concludes about a request. */
  datatype AuthOutcome =
    | Bypass
    | Authenticated(subject: Subject)
    | Unauthenticated
    | Forbidden

  /** The decision `verifyJWT` takes, before any side effect. */
  function Authorize(url: string, headers: Headers, verifier: Verifier): AuthOutcome
  {
    if StartsWith(url, AuthPrefix) then Bypass
    else
      var authHeader := Header(headers, AuthorizationHeader);
      if !Truthy(authHeader) then Unauthenticated
      else
        match Verify(verifier, SecondPiece(authHeader.value))
        case None => Forbidden
        case Some(sub) => Authenticated(sub)
  }

  /** Whether `verifyJWT` calls `next()` or answers the request itself. */
  function Decision(outcome: AuthOutcome): MiddlewareResult
  {
    match outcome
    case Unauthenticated => MissingToken
    case Forbidden => InvalidToken
    case _ => Next
  }

  /**
   * The headers after `req.headers["x-user"] = sub`: the identity header
   * holds the subject, whatever the client sent, and nothing else changes.
   */
  function WithIdentity(headers: Headers, subject: Subject): (updated: Headers)
    ensures IdentityHeader in updated && updated[IdentityHeader] == subject
    ensures forall k :: k != IdentityHeader ==> (k in updated <==> k in headers)
    ensures forall k :: k != IdentityHeader && k in headers ==> updated[k] == headers[k]
  {
    headers[IdentityHeader := subject]
  }

  /** The request headers once `verifyJWT` has run. */
  function HeadersAfter(headers: Headers, outcome: AuthOutcome): Headers
  {
    if outcome.Authenticated? then WithIdentity(headers, outcome.subject) else headers
  }

  /**
   * `Object.entries(routes).find(([prefix]) => url.startsWith(prefix))`:
   * the index of the first entry whose prefix starts the URL.
   */
  function FindRoute(routes: seq<(string, string)>, url: string): (found: Option<nat>)
    ensures found.Some? ==>
      found.value < |routes| && StartsWith(url, routes[found.value].0) &&
      forall j :: 0 <= j < found.value ==> !StartsWith(url, routes[j].0)
    ensures found.None? ==> forall j :: 0 <= j < |routes| ==> !StartsWith(url, routes[j].0)
  {
    if |routes| == 0 then None
    else if StartsWith(url, routes[0].0) then Some(0)
    else
      match FindRoute(routes[1..], url)
      case None => None
      case Some(i) => Some(i + 1)
  }

  /** The router middleware: 404 when no prefix matches, else proxy to its target. */
  function RouteHandler(url: string, headers: Headers): Response
  {
    match FindRoute(Routes, url)
    case None => Reject(404, "Route not allowed")
    case Some(i) => Forward(Routes[i].1, headers)
  }

  /** The whole gateway: `verifyJWT`, then, if it called `next()`, the router. */
  function Gateway(url: string, headers: Headers, verifier: Verifier): Response
  {
    var outcome := Authorize(url, headers, verifier);
    match Decision(outcome)
    case Respond(status, error) => Reject(status, error)
    case Next => RouteHandler(url, HeadersAfter(headers, outcome))
  }

  /** An incoming request: its URL and its live, mutable header map. */
  class Request {
    const url: string
    var headers: Headers

    constructor (url: string, headers: Headers)
      ensures this.url == url && this.headers == headers
    {
      this.url := url;
      this.headers := headers;
    }
  }

  /**
   * `verifyJWT(req, res, next)`: decides, and on success writes the
   * subject into the request's own header map.
   */
  method VerifyJwt(req: Request, verifier: Verifier) returns (result: MiddlewareResult)
    modifies req
    ensures result == Decision(Authorize(req.url, old(req.headers), verifier))
    ensures req.headers == HeadersAfter(old(req.headers), Authorize(req.url, old(req.headers), verifier))
  {
    if StartsWith(req.url, AuthPrefix) {
      return Next;
    }
    var authHeader := Header(req.headers, AuthorizationHeader);
    if !Truthy(authHeader) {
      return MissingToken;
    }
    var token := SecondPiece(authHeader.value);
    var decoded := Verify(verifier, token);
    if decoded.None? {
      return InvalidToken;
    }
    req.headers := req.headers[IdentityHeader := decoded.value];
    return Next;
  }

  /**
   * One request through the gateway: the middleware runs first and the
   * router sees the request as the middleware left it.
   */
  method HandleRequest(req: Request, verifier: Verifier) returns (response: Response)
    modifies req
    ensures response == Gateway(req.url, old(req.headers), verifier)
    ensures req.headers == HeadersAfter(old(req.headers), Authorize(req.url, old(req.headers), verifier))
  {
    var result := VerifyJwt(req, verifier);
    match result
    case Respond(status, error) =>
      response := Reject(status, error);
    case Next =>
      response := RouteHandler(req.url, req.headers);
  }

  // ---------------------------------------------------------------------
  // Properties of the gateway

  /** No two entries of the table match the same URL, so first match is the only match. */
  lemma RoutesDisjoint(url: string, i: nat, j: nat)
    requires i < |Routes| && j < |Routes|
    requires StartsWith(url, Routes[i].0) && StartsWith(url, Routes[j].0)
    ensures i == j
  {
    assert url[1] == Routes[i].0[1];
    assert url[1] == Routes[j].0[1];
  }

  /** An entry is found exactly when its prefix starts the URL. */
  lemma FindRouteExact(url: string, i: nat)
    requires i < |Routes|
    ensures FindRoute(Routes, url) == Some(i) <==> StartsWith(url, Routes[i].0)
  {
    var found := FindRoute(Routes, url);
    if StartsWith(url, Routes[i].0) && found.Some? {
      RoutesDisjoint(url, i, found.value);
    }
  }

  /**
   * Declaring the same entries in any other order picks the same entry
   * for every URL.
   */
  lemma FindRouteOrderIrrelevant(other: seq<(string, string)>, url: string)
    requires multiset(other) == multiset(Routes)
    ensures FindRoute(other, url).None? <==> FindRoute(Routes, url).None?
    ensures FindRoute(other, url).Some? ==>
      other[FindRoute(other, url).value] == Routes[FindRoute(Routes, url).value]
  {
    var mine := FindRoute(Routes, url);
    var theirs := FindRoute(other, url);
    if theirs.Some? {
      var e := other[theirs.value];
      assert e in multiset(other);
      var m :| 0 <= m < |Routes| && Routes[m] == e;
      assert mine.Some?;
      RoutesDisjoint(url, m, mine.value);
    }
    if mine.Some? {
      var e := Routes[mine.value];
      assert e in multiset(Routes);
      var j :| 0 <= j < |other| && other[j] == e;
      assert theirs.Some?;
    }
  }

  /**
   * Every URL starting with "/auth" (also "/authxyz") skips token checks
   * and goes to the auth backend with its headers untouched: never 401,
   * 403 or 404, whatever the verifier says.
   */
  lemma AuthBypass(url: string, headers: Headers, verifier: Verifier)
    requires StartsWith(url, AuthPrefix)
    ensures Authorize(url, headers, verifier) == Bypass
    ensures Gateway(url, headers, verifier) == Forward("http://localhost:3000", headers)
  {
    assert FindRoute(Routes, url) == Some(0);
  }

  /** "/authxyz" is not an auth route, yet it bypasses the token check. */
  lemma AuthxyzBypasses(headers: Headers, verifier: Verifier)
    ensures Gateway("/authxyz", headers, verifier) == Forward("http://localhost:3000", headers)
  {
    AuthBypass("/authxyz", headers, verifier);
  }

  /**
   * Outside "/auth", a missing or empty Authorization header is a 401
   * "Missing token", with no routing and no use of the verifier.
   */
  lemma MissingHeaderUnauthenticated(url: string, headers: Headers)
    requires !StartsWith(url, AuthPrefix)
    requires !Truthy(Header(headers, AuthorizationHeader))
    ensures forall verifier :: Gateway(url, headers, verifier) == Reject(401, "Missing token")
  {
  }

  /**
   * Authorization comes before routing: an unknown URL outside "/auth"
   * without a token is 401, not 404.
   */
  lemma AuthBeforeRouting(url: string, headers: Headers, verifier: Verifier)
    requires !StartsWith(url, AuthPrefix)
    requires FindRoute(Routes, url).None?
    requires !Truthy(Header(headers, AuthorizationHeader))
    ensures Gateway(url, headers, verifier) == Reject(401, "Missing token")
    ensures RouteHandler(url, headers) == Reject(404, "Route not allowed")
  {
    MissingHeaderUnauthenticated(url, headers);
  }

  /**
   * Outside "/auth", a present header whose second piece the verifier
   * rejects is a 403 "Invalid token".
   */
  lemma RejectedTokenForbidden(url: string, headers: Headers, verifier: Verifier)
    requires !StartsWith(url, AuthPrefix)
    requires Truthy(Header(headers, AuthorizationHeader))
    requires Verify(verifier, SecondPiece(headers[AuthorizationHeader])).None?
    ensures Authorize(url, headers, verifier) == Forbidden
    ensures Gateway(url, headers, verifier) == Reject(403, "Invalid token")
  {
  }

  /**
   * A header whose token piece is undefined (no space) or empty (a double
   * space after the first word, or a trailing space) still reaches
   * verification, which throws, so it is a 403 for every verifier.
   */
  lemma MalformedHeaderForbidden(url: string, headers: Headers)
    requires !StartsWith(url, AuthPrefix)
    requires Truthy(Header(headers, AuthorizationHeader))
    requires LacksToken(headers[AuthorizationHeader])
    ensures forall verifier :: Gateway(url, headers, verifier) == Reject(403, "Invalid token")
  {
    NoTokenPiece(headers[AuthorizationHeader]);
  }

  /**
   * A verified token leads to the matching backend, or to 404 when no
   * prefix matches, with "x-user" set to the token's subject.
   */
  lemma AuthenticatedRouting(url: string, headers: Headers, verifier: Verifier, subject: Subject)
    requires !StartsWith(url, AuthPrefix)
    requires Truthy(Header(headers, AuthorizationHeader))
    requires Verify(verifier, SecondPiece(headers[AuthorizationHeader])) == Some(subject)
    ensures Authorize(url, headers, verifier) == Authenticated(subject)
    ensures Gateway(url, headers, verifier) ==
      match FindRoute(Routes, url)
      case None => Reject(404, "Route not allowed")
      case Some(i) => Forward(Routes[i].1, WithIdentity(headers, subject))
  {
  }

  /**
   * The identity a backend sees is authoritative: outside "/auth", a
   * forwarded request carries in "x-user" the subject of its verified
   * token, never a value the client supplied, and every other header as sent.
   */
  lemma IdentityIsAuthoritative(url: string, headers: Headers, verifier: Verifier)
    requires !StartsWith(url, AuthPrefix)
    requires Gateway(url, headers, verifier).Forward?
    ensures var forwarded := Gateway(url, headers, verifier).headers;
      AuthorizationHeader in headers &&
      IdentityHeader in forwarded &&
      Verify(verifier, SecondPiece(headers[AuthorizationHeader])) == Some(forwarded[IdentityHeader]) &&
      forall k :: k != IdentityHeader ==> (k in forwarded <==> k in headers)
  {
    var outcome := Authorize(url, headers, verifier);
    assert outcome.Authenticated?;
  }

  /**
   * A 404 is produced exactly for authenticated requests whose URL no
   * prefix matches.
   */
  lemma NotFoundExactly(url: string, headers: Headers, verifier: Verifier)
    ensures Gateway(url, headers, verifier) == Reject(404, "Route not allowed") <==>
      Authorize(url, headers, verifier).Authenticated? && FindRoute(Routes, url).None?
  {
    if StartsWith(url, AuthPrefix) {
      AuthBypass(url, headers, verifier);
    }
  }

  /**
   * A request is forwarded exactly when the middleware lets it through and
   * a prefix matches; the target is then that first matching entry's URL.
   */
  lemma ForwardTarget(url: string, headers: Headers, verifier: Verifier)
    ensures var response := Gateway(url, headers, verifier);
      var outcome := Authorize(url, headers, verifier);
      var found := FindRoute(Routes, url);
      (response.Forward? <==> (outcome.Bypass? || outcome.Authenticated?) && found.Some?) &&
      (response.Forward? ==> response.target == Routes[found.value].1 &&
                             response.headers == HeadersAfter(headers, outcome))
  {
  }
}
