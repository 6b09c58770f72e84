/**
 * Where the gateway's and the image service's token checks part ways.
 * One verifier stands for both services: this presumes they share the
 * signing secret and check expiry at the same moment.
 */
module Contrast {
  import opened JsString
  import opened Jwt
  import opened Http
  import Gateway
  import Images

  /**
   * A non-empty Authorization header whose token piece is undefined or
   * empty is a 403 at the gateway (the token reaches verification) but a
   * 401 at the image service (rejected as missing before verification).
   */
  lemma MalformedHeaderDiffers(url: string, headers: Headers, verifier: Verifier)
    requires !StartsWith(url, Gateway.AuthPrefix)
    requires Truthy(Header(headers, AuthorizationHeader))
    requires LacksToken(headers[AuthorizationHeader])
    ensures Gateway.Gateway(url, headers, verifier) == Gateway.Reject(403, "Invalid token")
    ensures Images.Authorize(headers, verifier) == Images.TokenMissing
  {
    Gateway.MalformedHeaderForbidden(url, headers);
    Images.MalformedHeaderUnauthenticated(headers);
  }

  /**
   * On a well-formed header the two checks agree: both accept exactly the
   * tokens the verifier accepts, with the same subject.
   */
  lemma WellFormedHeaderAgrees(url: string, headers: Headers, verifier: Verifier, scheme: string, token: string)
    requires !StartsWith(url, Gateway.AuthPrefix)
    requires ' ' !in scheme && ' ' !in token && token != ""
    requires AuthorizationHeader in headers
    requires headers[AuthorizationHeader] == scheme + [' '] + token
    ensures Gateway.Authorize(url, headers, verifier) ==
      match Images.Authorize(headers, verifier)
      case Authenticated(sub) => Gateway.Authenticated(sub)
      case TokenInvalid => Gateway.Forbidden
      case TokenMissing => Gateway.Unauthenticated
  {
    Images.SchemeNotChecked(headers, verifier, scheme, token);
    assert scheme + [' '] + token == scheme + [' '] + token + "";
    SecondPieceOf(scheme, token, "");
  }
}
