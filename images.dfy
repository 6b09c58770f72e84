/**
 * The image service: its own `verifyJWT` middleware, which records the
 * caller in `req.userId`, and the public URL it answers an upload with.
 */
module Images {
  import opened Wrappers
  import opened JsString
  import opened Jwt
  import opened Http

  /** What this service's `verifyJWT` concludes about a request. */
  datatype TokenCheck =
    | Authenticated(subject: Subject)
    | TokenMissing
    | TokenInvalid

  /**
   * The decision of `verifyJWT`: 401 for a missing or empty header and for
   * a missing or empty token piece, 403 when verification throws.
   */
  function Authorize(headers: Headers, verifier: Verifier): TokenCheck
  {
    var authHeader := Header(headers, AuthorizationHeader);
    if !Truthy(authHeader) then TokenMissing
    else
      var token := SecondPiece(authHeader.value);
      if !Truthy(token) then TokenMissing
      else
        match Verify(verifier, token)
        case None => TokenInvalid
        case Some(sub) => Authenticated(sub)
  }

  /** Whether `verifyJWT` calls `next()` or answers the request itself. */
  function Decision(check: TokenCheck): MiddlewareResult
  {
    match check
    case TokenMissing => MissingToken
    case TokenInvalid => InvalidToken
    case Authenticated(_) => Next
  }

  /** A request as this service sees it: headers, and `req.userId` once set. */
  class ImageRequest {
    const headers: Headers
    var userId: Option<Subject>

    constructor (headers: Headers)
      ensures this.headers == headers && userId.None?
    {
      this.headers := headers;
      userId := None;
    }
  }

  /**
   * `verifyJWT(req, res, next)`: on success assigns `req.userId` and calls
   * `next()` once; otherwise answers and leaves `userId` as it was.
   */
  method VerifyJwt(req: ImageRequest, verifier: Verifier) returns (result: MiddlewareResult)
    modifies req`userId
    ensures result == Decision(Authorize(req.headers, verifier))
    ensures req.userId == match Authorize(req.headers, verifier)
      case Authenticated(sub) => Some(sub)
      case _ => old(req.userId)
  {
    var authHeader := Header(req.headers, AuthorizationHeader);
    if !Truthy(authHeader) {
      return MissingToken;
    }
    var token := SecondPiece(authHeader.value);
    if !Truthy(token) {
      return MissingToken;
    }
    var decoded := Verify(verifier, token);
    if decoded.None? {
      return InvalidToken;
    }
    req.userId := decoded;
    return Next;
  }

  /** `${PUBLIC_BASE_URL}` in a template literal: an unset variable reads "undefined". */
  function EnvText(value: Option<string>): string
  {
    match value
    case None => "undefined"
    case Some(s) => s
  }

  /** The URL an upload is answered with: the public base, "/", the stored name. */
  function UploadUrl(publicBase: string, filename: string): (url: string)
    ensures |url| == |publicBase| + 1 + |filename|
    ensures StartsWith(url, publicBase + "/")
    ensures url[|publicBase| + 1..] == filename
  {
    publicBase + "/" + filename
  }

  /** The answer of `POST /upload` once the middleware has let it through. */
  datatype UploadReply = Uploaded(url: string) | ServerError(status: nat, error: string)

  /**
   * The upload handler: reading `req.file.filename` without a file throws,
   * as does a failed insert; both end in 500. Whether the insert succeeds
   * is a parameter.
   */
  function UploadHandler(storedName: Option<string>, publicBase: Option<string>, insertSucceeds: bool): UploadReply
  {
    if storedName.None? || !insertSucceeds then ServerError(500, "Database or upload error")
    else Uploaded(UploadUrl(EnvText(publicBase), storedName.value))
  }

  // ---------------------------------------------------------------------
  // Properties of the image service

  /** A missing or empty Authorization header is 401, without verification. */
  lemma MissingHeaderUnauthenticated(headers: Headers)
    requires !Truthy(Header(headers, AuthorizationHeader))
    ensures forall verifier :: Authorize(headers, verifier) == TokenMissing
    ensures forall verifier :: Decision(Authorize(headers, verifier)) == Respond(401, "Missing token")
  {
  }

  /**
   * A header whose token piece is undefined or empty (no space, a double
   * space after the first word, or a space at the very end, as in
   * "Bearer ") is 401 for every verifier: it never reaches verification.
   */
  lemma MalformedHeaderUnauthenticated(headers: Headers)
    requires Truthy(Header(headers, AuthorizationHeader))
    requires LacksToken(headers[AuthorizationHeader])
    ensures forall verifier :: Authorize(headers, verifier) == TokenMissing
  {
    NoTokenPiece(headers[AuthorizationHeader]);
  }

  /**
   * The 401 "Missing token" answer is given exactly to a missing or empty
   * header and to a header whose token piece is undefined or empty.
   */
  lemma TokenMissingExactly(headers: Headers, verifier: Verifier)
    ensures Authorize(headers, verifier) == TokenMissing <==>
      !Truthy(Header(headers, AuthorizationHeader)) || LacksToken(headers[AuthorizationHeader])
  {
    if Truthy(Header(headers, AuthorizationHeader)) {
      NoTokenPiece(headers[AuthorizationHeader]);
    }
  }

  /** A present token the verifier rejects is 403 "Invalid token". */
  lemma RejectedTokenForbidden(headers: Headers, verifier: Verifier)
    requires Truthy(Header(headers, AuthorizationHeader))
    requires Truthy(SecondPiece(headers[AuthorizationHeader]))
    requires verifier(SecondPiece(headers[AuthorizationHeader]).value).None?
    ensures Authorize(headers, verifier) == TokenInvalid
    ensures Decision(Authorize(headers, verifier)) == Respond(403, "Invalid token")
  {
  }

  /**
   * The middleware calls `next()` exactly when the header holds a
   * non-empty token piece that verifies, and the user is its subject.
   */
  lemma AuthenticatedExactly(headers: Headers, verifier: Verifier, subject: Subject)
    ensures Authorize(headers, verifier) == Authenticated(subject) <==>
      AuthorizationHeader in headers &&
      Truthy(SecondPiece(headers[AuthorizationHeader])) &&
      verifier(SecondPiece(headers[AuthorizationHeader]).value) == Some(subject)
  {
  }

  /**
   * The scheme word is not checked: any first word, "Bearer" or not,
   * followed by one space and a token the verifier accepts authenticates.
   */
  lemma SchemeNotChecked(headers: Headers, verifier: Verifier, scheme: string, token: string)
    requires ' ' !in scheme && ' ' !in token && token != ""
    requires AuthorizationHeader in headers
    requires headers[AuthorizationHeader] == scheme + [' '] + token
    ensures Authorize(headers, verifier) ==
      match verifier(token)
      case None => TokenInvalid
      case Some(sub) => Authenticated(sub)
  {
    assert scheme + [' '] + token == scheme + [' '] + token + "";
    SecondPieceOf(scheme, token, "");
  }

  /** The upload URL is the public base, a slash, and the stored name. */
  lemma UploadUrlShape(storedName: string, publicBase: Option<string>)
    ensures UploadHandler(Some(storedName), publicBase, true) ==
      Uploaded(EnvText(publicBase) + "/" + storedName)
  {
  }

  /** A stored name without "/" is recovered as the URL's last path segment. */
  lemma UploadUrlLastSegment(publicBase: string, filename: string)
    requires '/' !in filename
    ensures var segments := Split(UploadUrl(publicBase, filename), '/');
      |segments| >= 2 && segments[|segments| - 1] == filename
  {
    assert UploadUrl(publicBase, filename) == publicBase + ['/'] + filename;
    SplitLastPiece(publicBase, '/', filename);
  }

  /** Distinct stored names under one base give distinct URLs. */
  lemma UploadUrlInjective(publicBase: string, a: string, b: string)
    requires UploadUrl(publicBase, a) == UploadUrl(publicBase, b)
    ensures a == b
  {
  }
}
