/** `authMiddleware` (apps/api/src/middlewares/auth.middleware.ts). */
module AuthMiddleware {
  import opened Common
  import opened AppErrors
  import opened JsStrings
  import opened Stores
  import opened Jwt

  const MissingAuthHeader: AppError := NewAppError(401, "Missing authorization header",
    Some("Request doesn't contain any authorization header."))
  const InvalidAuthHeader: AppError := NewAppError(401, "Invalid authorization header",
    Some("Expected format: Bearer <access_token>"))
  const InvalidAccessClaims: AppError := NewAppError(401, "Invalid access token claims",
    Some("Required claims are invalid or missing in the access token payload."))
  const SessionNotFound: AppError := NewAppError(401, "Session not found",
    Some("No active session found in the database matches the access token claims."))

  /**
   * The access token in an `Authorization` header: the header must be non-empty; split on single
   * spaces, its first piece must be exactly "Bearer" and its second non-empty. Pieces after the
   * second are ignored.
   */
  function ParseBearerHeader(header: Option<string>): (r: Outcome<string>)
    ensures !Truthy(header) ==> r == Thrown(MissingAuthHeader)
    ensures r.Ok? <==>
      && Truthy(header)
      && var parts := Split(header.value, ' ');
         |parts| >= 2 && parts[0] == "Bearer" && parts[1] != ""
    ensures r.Ok? ==> r.value == Split(header.value, ' ')[1] && r.value != "" && ' ' !in r.value
    ensures !r.Ok? ==> r == Thrown(MissingAuthHeader) || r == Thrown(InvalidAuthHeader)
  {
    if !Truthy(header) then Thrown(MissingAuthHeader)
    else
      var parts := Split(header.value, ' ');
      if parts[0] != "Bearer" || |parts| < 2 || parts[1] == "" then Thrown(InvalidAuthHeader)
      else Ok(parts[1])
  }

  /** `Bearer <token>` gives back the token, for any non-empty token without a space. */
  lemma ParseBearerRoundTrip(token: string)
    requires token != "" && ' ' !in token
    ensures ParseBearerHeader(Some("Bearer " + token)) == Ok(token)
  {
    SplitLeadingPieces("Bearer", token, "", ' ');
    assert "Bearer" + [' '] + token + "" == "Bearer " + token;
    assert Split("", ' ') == [""];
    var parts := Split("Bearer " + token, ' ');
    assert parts[0] == "Bearer" && parts[1] == token;
  }

  /** Two spaces after the scheme leave an empty second piece: the header is refused. */
  lemma DoubleSpaceRefused(token: string)
    ensures ParseBearerHeader(Some("Bearer  " + token)) == Thrown(InvalidAuthHeader)
  {
    SplitLeadingPieces("Bearer", "", " " + token, ' ');
    assert "Bearer" + [' '] + "" + (" " + token) == "Bearer  " + token;
    assert (" " + token)[1..] == token;
    assert Split(" " + token, ' ') == [""] + Split(token, ' ');
  }

  /** The claims an access token must carry: non-empty `sub` and `sid`, and type "access". */
  predicate AccessClaimsValid(c: Claims)
  {
    Truthy(c.sub) && Truthy(c.sid) && c.typ == Some("access")
  }

  /** Every access token the verification flow signs passes the claims check; no refresh token does. */
  lemma IssuedTokensAgainstAccessCheck(jti: Id, sub: Id, sid: Id, expirationMs: int)
    requires sub != "" && sid != ""
    ensures AccessClaimsValid(SignToken(AccessPayload(sub, sid), expirationMs).claims)
    ensures !AccessClaimsValid(SignToken(RefreshPayload(jti, sub, sid), expirationMs).claims)
  {
  }

  datatype AuthData = AuthData(userId: Id, sessionId: Id)

  /** The parts of an incoming request the middleware reads and writes. */
  class Request {
    const authorization: Option<string>
    var authData: Option<AuthData>

    constructor (authorization: Option<string>)
      ensures this.authorization == authorization && authData.None?
    {
      this.authorization := authorization;
      authData := None;
    }
  }

  /**
   * Authenticates `req`: the bearer token must verify, carry access claims, and name a session of
   * its subject. On success the request's `authData` holds the user and session ids.
   */
  method Authenticate(req: Request, db: Database, verify: string -> VerifyResult) returns (r: Outcome<()>)
    modifies req
    ensures var h := ParseBearerHeader(req.authorization);
      !h.Ok? ==> r == h.Propagate() && unchanged(req)
    ensures var h := ParseBearerHeader(req.authorization);
      h.Ok? && !VerifyToken(verify, h.value).Ok? ==> r == VerifyToken(verify, h.value).Propagate() && unchanged(req)
    ensures var h := ParseBearerHeader(req.authorization);
      h.Ok? && VerifyToken(verify, h.value).Ok? ==>
        var c := VerifyToken(verify, h.value).value;
        && (!AccessClaimsValid(c) ==> r == Thrown(InvalidAccessClaims) && unchanged(req))
        // Any session row of the subject will do: revocation and expiry are not looked at.
        && (AccessClaimsValid(c) && !SessionOfUser(db.sessions, c.sub.value, c.sid.value) ==>
              r == Thrown(SessionNotFound) && unchanged(req))
        && (AccessClaimsValid(c) && SessionOfUser(db.sessions, c.sub.value, c.sid.value) ==>
              r == Ok(()) && req.authData == Some(AuthData(c.sub.value, c.sid.value)))
    ensures r.Ok? ==> req.authData.Some? && SessionOfUser(db.sessions, req.authData.value.userId, req.authData.value.sessionId)
  {
    var header := ParseBearerHeader(req.authorization);
    if !header.Ok? {
      return header.Propagate();
    }
    var verified := VerifyToken(verify, header.value);
    if !verified.Ok? {
      return verified.Propagate();
    }
    var claims := verified.value;
    if !AccessClaimsValid(claims) {
      return Thrown(InvalidAccessClaims);
    }
    var found := db.FindSessionOfUser(claims.sub.value, claims.sid.value);
    if !found {
      return Thrown(SessionNotFound);
    }
    req.authData := Some(AuthData(claims.sub.value, claims.sid.value));
    r := Ok(());
  }

  /** A valid access token for a session that has been revoked (by logout or eviction) is still accepted. */
  method RevokedSessionAuthenticates(db: Database, verify: string -> VerifyResult, token: string,
                                     userId: Id, sessionId: Id, expirationMs: int)
    returns (r: Outcome<()>)
    requires token != "" && ' ' !in token && userId != "" && sessionId != ""
    requires verify(token) == Verified(SignToken(AccessPayload(userId, sessionId), expirationMs).claims)
    requires sessionId in db.sessions && db.sessions[sessionId].userId == userId
    requires db.sessions[sessionId].isRevoked
    ensures r == Ok(())
  {
    var req := new Request(Some("Bearer " + token));
    ParseBearerRoundTrip(token);
    IssuedTokensAgainstAccessCheck("", userId, sessionId, expirationMs);
    r := Authenticate(req, db, verify);
  }
}
