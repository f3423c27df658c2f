/**
 * Tokens as claim records. Signing and verification (RS256 through a library, with fixed issuer,
 * audience and key id) are not modelled: a signed token carries its claims, and verification of a
 * presented token is a parameter that either yields claims or fails.
 */
module Jwt {
  import opened Common
  import opened AppErrors

  datatype Claims = Claims(sub: Option<string>, sid: Option<string>, jti: Option<string>,
                           typ: Option<string>, exp: Option<int>)

  datatype SignedToken = SignedToken(claims: Claims)

  function RefreshPayload(jti: Id, sub: Id, sid: Id): Claims
  {
    Claims(Some(sub), Some(sid), Some(jti), Some("refresh"), None)
  }

  function AccessPayload(sub: Id, sid: Id): Claims
  {
    Claims(Some(sub), Some(sid), None, Some("access"), None)
  }

  /** `signToken(payload, date)`: the payload plus `exp`, the date in whole seconds (rounded down). */
  function SignToken(payload: Claims, expirationMs: int): (t: SignedToken)
    ensures t.claims.(exp := payload.exp) == payload
    ensures t.claims.exp.Some?
    ensures t.claims.exp.value * 1000 <= expirationMs < t.claims.exp.value * 1000 + 1000
  {
    SignedToken(payload.(exp := Some(expirationMs / 1000)))
  }

  /** What verifying a presented token gives: its claims, one of the four library errors mapped to 401, or any other error. */
  datatype VerifyResult = Verified(claims: Claims) | Invalid(message: string) | Unexpected

  /** `verifyToken(token)` as the services see it. */
  function VerifyToken(verify: string -> VerifyResult, token: string): (r: Outcome<Claims>)
    ensures verify(token).Verified? <==> r.Ok?
    ensures r.Ok? ==> r.value == verify(token).claims
    ensures verify(token).Invalid? <==> r.Thrown?
    ensures r.Thrown? ==> r.error.statusCode == 401 && r.error.message == verify(token).message
  {
    match verify(token)
    case Verified(c) => Ok(c)
    case Invalid(m) => Thrown(NewAppError(401, m, None))
    case Unexpected => Crashed(TokenLibraryError)
  }
}
