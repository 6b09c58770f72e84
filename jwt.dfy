/**
 * Token verification, `jwt.verify(token, secret)` from jsonwebtoken, seen
 * only from the outside: signature and expiry checks are an oracle.
 */
module Jwt {
  import opened Wrappers

  /** The `sub` claim of a decoded token, carried as text. */
  type Subject = string

  /**
   * Verification of a present, non-empty token under the shared secret:
   * the decoded subject, or `None` where the library throws.
   */
  type Verifier = string -> Option<Subject>

  /**
   * `jwt.verify` on a token that may be `undefined`: the library throws
   * ("jwt must be provided") for a missing or empty token before it looks
   * at signature or expiry, and otherwise defers to the oracle.
   */
  function Verify(verifier: Verifier, token: Option<string>): (subject: Option<Subject>)
    ensures (token.None? || token == Some("")) ==> subject.None?
    ensures subject.Some? ==> token.Some? && verifier(token.value) == subject
    ensures token.Some? && token.value != "" ==> subject == verifier(token.value)
  {
    match token
    case None => None
    case Some(t) => if t == "" then None else verifier(t)
  }
}
