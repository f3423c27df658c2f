/** `verifyEmailService` (apps/api/src/modules/verify-email/verify-email.service.ts). */
module VerifyEmailService {
  import opened Common
  import opened AppErrors
  import opened Stores
  import opened SessionPolicy
  import opened Jwt

  const TokenNotFound: AppError := NewAppError(404, "Token not found",
    Some("No token exists with the ID from the provided token in the database."))
  const TokenExpired: AppError := NewAppError(401, "Token expired",
    Some("Provided token is already expired and no longer valid."))
  const InvalidSecret: AppError := NewAppError(401, "Invalid secret",
    Some("Secret from the provided token doesn't match the stored one."))
  const NoLinkedEmail: AppError := NewAppError(422, "Data inconsistency",
    Some("No email address found linked with the token."))
  const LinkedEmailNotFound: AppError := NewAppError(404, "Email not found",
    Some("No email address exists associated with the token in the database."))
  const AlreadyVerified: AppError := NewAppError(409, "Email is already verified",
    Some("Provided email address has already been verified."))

  datatype VerifyEmailResult = VerifyEmailResult(sessionId: Id, userId: Id, refreshToken: SignedToken)

  /**
   * The first of the service's checks that fails, in the order it runs them, or `None` when the
   * token can be consumed: present with type EMAIL_VERIFICATION, strictly before its expiry, the
   * HMAC of `secret` equal to the stored digest, linked to an email address that exists and is
   * not yet verified.
   */
  function VerificationFailure(tokens: map<Id, VerificationToken>, emails: map<Id, EmailAddress>,
                               crypto: Crypto, nowMs: int, tokenId: Id, secret: string): (f: Option<AppError>)
    ensures f.None? <==>
      && tokenId in tokens && tokens[tokenId].tokenType == EmailVerification
      && nowMs < tokens[tokenId].expiresAt
      && crypto.hmacSha256(secret) == tokens[tokenId].hashedSecret
      && Truthy(tokens[tokenId].emailAddressId)
      && tokens[tokenId].emailAddressId.value in emails
      && !emails[tokens[tokenId].emailAddressId.value].isVerified
    // Each check, when it is the first to fail, decides the error.
    ensures !(tokenId in tokens && tokens[tokenId].tokenType == EmailVerification) ==> f == Some(TokenNotFound)
    ensures tokenId in tokens && tokens[tokenId].tokenType == EmailVerification ==>
      var t := tokens[tokenId];
      && (t.expiresAt <= nowMs ==> f == Some(TokenExpired))
      && (nowMs < t.expiresAt && crypto.hmacSha256(secret) != t.hashedSecret ==> f == Some(InvalidSecret))
    ensures tokenId in tokens && tokens[tokenId].tokenType == EmailVerification ==>
      var t := tokens[tokenId];
      var passed := nowMs < t.expiresAt && crypto.hmacSha256(secret) == t.hashedSecret;
      && (passed && !Truthy(t.emailAddressId) ==> f == Some(NoLinkedEmail))
      && (passed && Truthy(t.emailAddressId) && t.emailAddressId.value !in emails ==> f == Some(LinkedEmailNotFound))
      && (passed && Truthy(t.emailAddressId) && t.emailAddressId.value in emails ==>
            (emails[t.emailAddressId.value].isVerified <==> f == Some(AlreadyVerified)))
  {
    if !(tokenId in tokens && tokens[tokenId].tokenType == EmailVerification) then Some(TokenNotFound)
    else
      var t := tokens[tokenId];
      if t.expiresAt <= nowMs then Some(TokenExpired)
      else if crypto.hmacSha256(secret) != t.hashedSecret then Some(InvalidSecret)
      else if !Truthy(t.emailAddressId) then Some(NoLinkedEmail)
      else if t.emailAddressId.value !in emails then Some(LinkedEmailNotFound)
      else if emails[t.emailAddressId.value].isVerified then Some(AlreadyVerified)
      else None
  }

  /**
   * A token is usable only strictly before its expiry, and an expired token is reported as expired
   * whatever secret is presented: expiry is checked before the secret.
   */
  lemma ExpiryCheckedBeforeSecret(tokens: map<Id, VerificationToken>, emails: map<Id, EmailAddress>,
                                  crypto: Crypto, nowMs: int, tokenId: Id, secret: string)
    requires tokenId in tokens && tokens[tokenId].tokenType == EmailVerification
    ensures tokens[tokenId].expiresAt <= nowMs <==>
      VerificationFailure(tokens, emails, crypto, nowMs, tokenId, secret) == Some(TokenExpired)
  {
  }

  /**
   * Verifies the email address linked to token `tokenId` given its `secret`; `refreshTokenId`
   * and `sessionId` are the fresh ids the call draws. Every failure comes before any write.
   */
  method VerifyEmail(db: Database, crypto: Crypto, config: Config, nowMs: int,
                     secret: string, tokenId: Id, ipAddress: Option<string>, userAgent: Option<string>,
                     refreshTokenId: Id, sessionId: Id)
    returns (r: Outcome<VerifyEmailResult>)
    requires db.Valid()
    requires sessionId !in db.sessions
    modifies db
    ensures db.Valid()
    ensures var f := VerificationFailure(old(db.tokens), old(db.emails), crypto, nowMs, tokenId, secret);
      f.Some? ==> r == Thrown(f.value) && unchanged(db)
    ensures var f := VerificationFailure(old(db.tokens), old(db.emails), crypto, nowMs, tokenId, secret);
      f.None? ==>
        var t := old(db.tokens)[tokenId];
        var e := t.emailAddressId.value;
        && r == Ok(VerifyEmailResult(sessionId, t.userId,
                     SignToken(RefreshPayload(refreshTokenId, t.userId, sessionId),
                               AddDurationToNow(nowMs, config.refreshTokenExpiry * 1000))))
        && db.tokens == old(db.tokens) - {tokenId}
        && db.emails == old(db.emails)[e := old(db.emails)[e].(isVerified := true)]
        && VerifySessionStep(old(db.sessions), db.sessions, t.userId, sessionId,
                             NewSession(config, nowMs, t.userId, e, refreshTokenId, ipAddress, userAgent))
        && db.auditLog == old(db.auditLog) + [AuditEntry(EmailVerified, ipAddress, userAgent, t.userId, nowMs)]
        && db.users == old(db.users) && db.accounts == old(db.accounts)
    // The token is single-use, and the returned ids are those of the new session and its refresh token.
    ensures r.Ok? ==>
      && tokenId !in db.tokens
      && r.value.sessionId == sessionId && sessionId in db.sessions
      && db.sessions[sessionId].userId == r.value.userId
      && r.value.refreshToken.claims.sid == Some(r.value.sessionId)
      && r.value.refreshToken.claims.sub == Some(r.value.userId)
      && r.value.refreshToken.claims.jti == Some(db.sessions[sessionId].refreshTokenId)
  {
    var tokenRecord := db.FindVerificationToken(tokenId);
    if tokenRecord.None? {
      return Thrown(TokenNotFound);
    }
    var token := tokenRecord.value;
    if token.expiresAt <= nowMs {
      return Thrown(TokenExpired);
    }
    if crypto.hmacSha256(secret) != token.hashedSecret {
      return Thrown(InvalidSecret);
    }
    if !Truthy(token.emailAddressId) {
      return Thrown(NoLinkedEmail);
    }
    var emailRecord := db.FindEmailById(token.emailAddressId.value);
    if emailRecord.None? {
      return Thrown(LinkedEmailNotFound);
    }
    if emailRecord.value.isVerified {
      return Thrown(AlreadyVerified);
    }
    var userId := token.userId;
    var refreshToken := SignToken(RefreshPayload(refreshTokenId, userId, sessionId),
                                  AddDurationToNow(nowMs, config.refreshTokenExpiry * 1000));
    CommitVerification(db, config, nowMs, tokenId, token.emailAddressId.value, userId, ipAddress, userAgent,
                       refreshTokenId, sessionId);
    r := Ok(VerifyEmailResult(sessionId, userId, refreshToken));
  }

  /**
   * The transaction of a successful verification: consume the token, mark the address verified,
   * create the session and append the audit row.
   */
  method CommitVerification(db: Database, config: Config, nowMs: int, tokenId: Id, emailAddressId: Id,
                            userId: Id, ipAddress: Option<string>, userAgent: Option<string>,
                            refreshTokenId: Id, sessionId: Id)
    requires db.Valid() && emailAddressId in db.emails && sessionId !in db.sessions
    modifies db
    ensures db.Valid()
    ensures db.tokens == old(db.tokens) - {tokenId}
    ensures db.emails == old(db.emails)[emailAddressId := old(db.emails)[emailAddressId].(isVerified := true)]
    ensures VerifySessionStep(old(db.sessions), db.sessions, userId, sessionId,
                              NewSession(config, nowMs, userId, emailAddressId, refreshTokenId, ipAddress, userAgent))
    ensures db.auditLog == old(db.auditLog) + [AuditEntry(EmailVerified, ipAddress, userAgent, userId, nowMs)]
    ensures db.users == old(db.users) && db.accounts == old(db.accounts)
  {
    UpdateEmailKeepsUnique(db.emails, emailAddressId, db.emails[emailAddressId].(isVerified := true));
    db.tokens := db.tokens - {tokenId};
    db.emails := db.emails[emailAddressId := db.emails[emailAddressId].(isVerified := true)];
    db.sessions := db.sessions[sessionId := NewSession(config, nowMs, userId, emailAddressId, refreshTokenId,
                                                       ipAddress, userAgent)];
    db.auditLog := db.auditLog + [AuditEntry(EmailVerified, ipAddress, userAgent, userId, nowMs)];
  }

  /** Consuming the same token twice: the second call finds no token. */
  method VerifyTwice(db: Database, crypto: Crypto, config: Config, nowMs: int,
                     secret: string, tokenId: Id, ipAddress: Option<string>, userAgent: Option<string>,
                     refreshTokenId: Id, sessionId: Id, refreshTokenId2: Id, sessionId2: Id)
    returns (first: Outcome<VerifyEmailResult>, second: Outcome<VerifyEmailResult>)
    requires db.Valid()
    requires sessionId !in db.sessions && sessionId2 !in db.sessions && sessionId2 != sessionId
    modifies db
    ensures first.Ok? ==> second == Thrown(TokenNotFound)
  {
    first := VerifyEmail(db, crypto, config, nowMs, secret, tokenId, ipAddress, userAgent, refreshTokenId, sessionId);
    second := VerifyEmail(db, crypto, config, nowMs, secret, tokenId, ipAddress, userAgent, refreshTokenId2, sessionId2);
  }
}
