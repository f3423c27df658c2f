/** `verifyEmailController` (apps/api/src/modules/verify-email/verify-email.controller.ts). */
module VerifyEmailController {
  import opened Common
  import opened AppErrors
  import opened JsStrings
  import opened Stores
  import opened Jwt
  import opened LoginService
  import opened VerifyEmailService

  const MissingToken: AppError := NewAppError(400, "Invalid or missing token",
    Some("Provided token is either missing or not a string."))
  const InvalidTokenFormat: AppError := NewAppError(400, "Invalid token format",
    Some("Provided token is not in the correct format"))
  const InvalidTokenId: AppError := NewAppError(400, "Invalid token ID",
    Some("ID from the provided token is not a valid UUID"))

  const VerifiedMessage := "Email verified successfully."

  /** The `token` query parameter: absent, one string, or something else (an array, an object). */
  datatype QueryValue = Absent | Str(s: string) | NonString

  /** The two pieces of a verification token: the token row's id and the raw secret. */
  datatype TokenParts = TokenParts(tokenId: Id, secret: string)

  /**
   * The controller's parsing of `token`: it must be a non-empty string; it is URI-decoded
   * (`decode` is `decodeURIComponent`, `None` when it throws) and split on '.'; the first piece is
   * the id, the second the secret, and both must be non-empty; `validUuid` is the UUID check on the id.
   * Pieces after the second are ignored.
   */
  function ParseVerificationToken(token: QueryValue, decode: string -> Option<string>,
                                  validUuid: string -> bool): (r: Outcome<TokenParts>)
    ensures !(token.Str? && token.s != "") ==> r == Thrown(MissingToken)
    ensures token.Str? && token.s != "" && decode(token.s).None? ==> r == Crashed(UriMalformed)
    ensures r.Ok? <==>
      && token.Str? && token.s != "" && decode(token.s).Some?
      && var parts := Split(decode(token.s).value, '.');
         |parts| >= 2 && parts[0] != "" && parts[1] != "" && validUuid(parts[0])
    ensures r.Ok? ==>
      && var parts := Split(decode(token.s).value, '.');
         r.value.tokenId == parts[0] && r.value.secret == parts[1]
    ensures r.Ok? ==> '.' !in r.value.tokenId && '.' !in r.value.secret
    // A decoded token that is not two non-empty pieces is a format error; a bad id is an id error.
    ensures token.Str? && token.s != "" && decode(token.s).Some? ==>
      var parts := Split(decode(token.s).value, '.');
      && (parts[0] == "" || |parts| < 2 || parts[1] == "" ==> r == Thrown(InvalidTokenFormat))
      && (|parts| >= 2 && parts[0] != "" && parts[1] != "" && !validUuid(parts[0]) ==> r == Thrown(InvalidTokenId))
  {
    if !(token.Str? && token.s != "") then Thrown(MissingToken)
    else
      match decode(token.s)
      case None => Crashed(UriMalformed)
      case Some(decoded) =>
        var parts := Split(decoded, '.');
        if parts[0] == "" || |parts| < 2 || parts[1] == "" then Thrown(InvalidTokenFormat)
        else if !validUuid(parts[0]) then Thrown(InvalidTokenId)
        else Ok(TokenParts(parts[0], parts[1]))
  }

  /** The link built by the resend (`CompoundToken`) parses back into its id and secret. */
  lemma ParseCompoundToken(tokenId: Id, secret: string, decode: string -> Option<string>,
                           validUuid: string -> bool)
    requires tokenId != "" && secret != "" && '.' !in tokenId && '.' !in secret
    requires validUuid(tokenId)
    requires '%' !in tokenId && '%' !in secret
    requires forall x :: '%' !in x ==> decode(x) == Some(x)
    ensures ParseVerificationToken(Str(CompoundToken(tokenId, secret)), decode, validUuid)
            == Ok(TokenParts(tokenId, secret))
  {
    var link := CompoundToken(tokenId, secret);
    assert '%' !in link;
    SplitLeadingPieces(tokenId, secret, "", '.');
    assert tokenId + "." + secret + "" == link;
    assert Split("", '.') == [""];
    var parts := Split(link, '.');
    assert parts[0] == tokenId && parts[1] == secret;
  }

  /** Anything after the second '.' does not change what is parsed. */
  lemma ExtraPiecesIgnored(tokenId: Id, secret: string, extra: string,
                           decode: string -> Option<string>, validUuid: string -> bool)
    requires tokenId != "" && secret != "" && '.' !in tokenId && '.' !in secret
    requires validUuid(tokenId)
    requires '%' !in tokenId && '%' !in secret && '%' !in extra
    requires forall x :: '%' !in x ==> decode(x) == Some(x)
    ensures ParseVerificationToken(Str(CompoundToken(tokenId, secret) + "." + extra), decode, validUuid)
            == Ok(TokenParts(tokenId, secret))
  {
    var link := CompoundToken(tokenId, secret) + "." + extra;
    assert '%' !in link by {
      assert link == tokenId + "." + secret + "." + extra;
    }
    assert decode(link) == Some(link);
    ExtraPiecesSplit(tokenId, secret, extra);
  }

  /** Splitting the link with an extra piece gives the id and the secret first. */
  lemma ExtraPiecesSplit(tokenId: Id, secret: string, extra: string)
    requires '.' !in tokenId && '.' !in secret
    ensures var parts := Split(CompoundToken(tokenId, secret) + "." + extra, '.');
      |parts| >= 2 && parts[0] == tokenId && parts[1] == secret
  {
    var link := CompoundToken(tokenId, secret) + "." + extra;
    SplitLeadingPieces(tokenId, secret, "." + extra, '.');
    assert tokenId + "." + secret + ("." + extra) == link;
    assert ("." + extra)[1..] == extra;
    assert Split("." + extra, '.') == [""] + Split(extra, '.');
  }

  /** The 200 response: the refresh-token cookie (with its lifetime) and the JSON body. */
  datatype VerifyEmailResponse = VerifyEmailResponse(refreshCookie: SignedToken, cookieMaxAgeMs: int,
                                                     accessToken: SignedToken, message: string)

  /**
   * Handles `GET /verify-email?token=…`: parses the token, runs the service, and answers with the
   * refresh token as a cookie and a fresh access token for the new session. `ipAddress` is the
   * caller's normalized address.
   */
  method HandleVerifyEmail(db: Database, crypto: Crypto, config: Config, nowMs: int,
                           token: QueryValue, decode: string -> Option<string>, validUuid: string -> bool,
                           ipAddress: string, userAgent: Option<string>, refreshTokenId: Id, sessionId: Id)
    returns (r: Outcome<VerifyEmailResponse>)
    requires db.Valid()
    requires sessionId !in db.sessions
    modifies db
    ensures db.Valid()
    // A malformed token is refused before the database is consulted.
    ensures var p := ParseVerificationToken(token, decode, validUuid);
      !p.Ok? ==> r == p.Propagate() && unchanged(db)
    // A well-formed token whose check fails: the service's error, nothing written.
    ensures var p := ParseVerificationToken(token, decode, validUuid);
      p.Ok? ==>
        var f := VerificationFailure(old(db.tokens), old(db.emails), crypto, nowMs, p.value.tokenId, p.value.secret);
        (f.Some? <==> !r.Ok?) && (f.Some? ==> r == Thrown(f.value) && unchanged(db))
    // Success: the token is consumed, and both tokens name the new session of the token's user.
    ensures r.Ok? ==>
      var p := ParseVerificationToken(token, decode, validUuid);
      var userId := old(db.tokens)[p.value.tokenId].userId;
      && p.Ok? && p.value.tokenId !in db.tokens
      && sessionId in db.sessions && db.sessions[sessionId].userId == userId
      && r.value.message == VerifiedMessage
      && r.value.cookieMaxAgeMs == config.refreshTokenExpiry * 1000
      && r.value.refreshCookie.claims.sub == Some(userId) && r.value.refreshCookie.claims.sid == Some(sessionId)
      && r.value.refreshCookie.claims.typ == Some("refresh")
      && r.value.accessToken.claims.(exp := None) == AccessPayload(userId, sessionId)
      && r.value.accessToken.claims.exp == Some((nowMs + config.accessTokenExpiry * 1000) / 1000)
  {
    var parsed := ParseVerificationToken(token, decode, validUuid);
    if !parsed.Ok? {
      return parsed.Propagate();
    }
    var result := VerifyEmail(db, crypto, config, nowMs, parsed.value.secret, parsed.value.tokenId,
                              Some(ipAddress), userAgent, refreshTokenId, sessionId);
    if !result.Ok? {
      return result.Propagate();
    }
    var accessToken := SignToken(AccessPayload(result.value.userId, result.value.sessionId),
                                 AddDurationToNow(nowMs, config.accessTokenExpiry * 1000));
    r := Ok(VerifyEmailResponse(result.value.refreshToken, config.refreshTokenExpiry * 1000,
                                accessToken, VerifiedMessage));
  }
}
