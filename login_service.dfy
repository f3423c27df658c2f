/** `loginService` (apps/api/src/modules/login/login.service.ts). */
module LoginService {
  import opened Common
  import opened AppErrors
  import opened Stores
  import opened RedisKeys
  import opened RateLimit
  import opened SessionPolicy
  import opened Jwt

  const EmailNotFound: AppError := NewAppError(404, "Email not found",
    Some("No account found in the database associated with the provided email address."))
  const ResendCooldown: AppError := NewAppError(429, "Please wait before requesting another email",
    Some("Attempted to send two consecutive emails within a minute."))
  const ResendLimit: AppError := NewAppError(429, "You've reached today's limit for verification",
    Some("Daily limit for verification has been reached for this email address."))
  const VerificationSent: AppError := NewAppError(202,
    "A verification link has been sent to your email, please check your inbox and verify your email",
    Some("Provided email address is not yet verified."))
  const AccountNotFound: AppError := NewAppError(404, "Account not found",
    Some("No local account exists associated with this email address as providerUserId."))
  const DataInconsistency: AppError := NewAppError(422, "Detected data inconsistency",
    Some("Hashed-Password is stored as NULL in the account record."))
  const InvalidCredentials: AppError := NewAppError(401, "Invalid credentials",
    Some("Provided password is incorrect."))

  /** The artificial delay before answering a password mismatch. */
  const MismatchDelayMs: nat := 1000

  datatype LoginResult = LoginResult(refreshToken: SignedToken, userId: Id, sessionId: Id)

  /** The credential mailed in the verification link: the token id, a '.', then the raw secret. */
  function CompoundToken(tokenId: Id, secret: string): (s: string)
    ensures |s| == |tokenId| + 1 + |secret|
    ensures s[..|tokenId|] == tokenId && s[|tokenId|] == '.' && s[|tokenId| + 1..] == secret
  {
    tokenId + "." + secret
  }

  /**
   * What the unverified-email branch does: the rate-limited resend of the verification link. It
   * never logs in; the database changes only when the link went out (and then only its tokens).
   */
  twostate predicate ResendStep(db: Database, kv: KeyValueStore, crypto: Crypto, config: Config,
                                deliver: (string, string) -> bool, nowMs: int, email: string,
                                emailAddressId: Id, tokenSecret: string, newTokenId: Id,
                                new r: Outcome<LoginResult>)
    reads db, kv
    requires old(emailAddressId in db.emails)
  {
    var userId := old(db.emails)[emailAddressId].userId;
    var coolKey := AuthEmailRateLimit(email);
    var counterKey := AuthEmailResends(email);
    && !r.Ok?
    && (r != Thrown(VerificationSent) ==> unchanged(db))
    && (coolKey in old(kv.values) ==> r == Thrown(ResendCooldown) && unchanged(kv))
    && (coolKey !in old(kv.values) && counterKey in old(kv.values) && old(kv.values)[counterKey].Text? ==>
          r == Crashed(NotAnInteger) && kv.values == old(kv.values) && kv.ttls == old(kv.ttls))
    && (coolKey !in old(kv.values) && (counterKey in old(kv.values) ==> old(kv.values)[counterKey].Num?) ==>
          var n := NextCount(old(kv.values), counterKey);
          var bumped := BumpValues(old(kv.values), counterKey);
          var bumpedTtls := BumpTtls(old(kv.values), old(kv.ttls), counterKey);
          && (!ResendAllowed(n) ==> r == Thrown(ResendLimit) && kv.values == bumped && kv.ttls == bumpedTtls)
          && (ResendAllowed(n) && !deliver(email, CompoundToken(newTokenId, tokenSecret)) ==>
                r == Crashed(DeliveryFailed) && kv.values == bumped && kv.ttls == bumpedTtls)
          && (ResendAllowed(n) && deliver(email, CompoundToken(newTokenId, tokenSecret)) ==>
                && r == Thrown(VerificationSent)
                && OnlyTokensChanged(db)
                && db.tokens == DeleteVerificationTokens(old(db.tokens), userId, None)[newTokenId :=
                     NewVerificationToken(crypto, config, nowMs, tokenSecret, userId, emailAddressId)]
                && kv.values == bumped[coolKey := Text("1")]
                && kv.ttls == bumpedTtls[coolKey := CooldownSeconds]))
  }

  /**
   * What the verified-email branch does: the password check against the LOCAL account, then the
   * session cap, the new session and the audit row.
   */
  twostate predicate PasswordStep(db: Database, crypto: Crypto, config: Config, nowMs: int,
                                  email: string, password: string, emailAddressId: Id,
                                  ipAddress: Option<string>, userAgent: Option<string>,
                                  refreshTokenId: Id, sessionId: Id, new r: Outcome<LoginResult>, delayMs: nat)
    reads db
    requires old(emailAddressId in db.emails)
  {
    var userId := old(db.emails)[emailAddressId].userId;
    var a := LocalAccountOf(old(db.accounts), email);
    && (a.None? ==> r == Thrown(AccountNotFound) && unchanged(db) && delayMs == 0)
    && (a.Some? && !Truthy(old(db.accounts)[a.value].hashedPassword) ==>
          r == Thrown(DataInconsistency) && unchanged(db) && delayMs == 0)
    && (a.Some? && Truthy(old(db.accounts)[a.value].hashedPassword) ==>
          var matched := crypto.argon2Verify(old(db.accounts)[a.value].hashedPassword.value, password);
          var mine := SessionsOf(old(db.sessions), userId);
          && (!matched ==> r == Thrown(InvalidCredentials) && unchanged(db) && delayMs == MismatchDelayMs)
          && (matched && |mine| >= config.sessionLimit && mine == {} ==>
                r == Crashed(UndefinedProperty) && unchanged(db) && delayMs == 0)
          && (matched && !(|mine| >= config.sessionLimit && mine == {}) ==>
                && delayMs == 0
                && r == Ok(LoginResult(SignToken(RefreshPayload(refreshTokenId, userId, sessionId),
                                                 AddDurationToNow(nowMs, config.refreshTokenExpiry * 1000)),
                                       userId, sessionId))
                && OnlySessionsAndAuditChanged(db)
                && LoginSessionStep(old(db.sessions), db.sessions, userId, config.sessionLimit, nowMs, sessionId,
                                    NewSession(config, nowMs, userId, emailAddressId, refreshTokenId, ipAddress, userAgent))
                && db.auditLog == old(db.auditLog) + [AuditEntry(LoggedIn, ipAddress, userAgent, userId, nowMs)]))
  }

  /**
   * Logs in with `email` and `password`. `deliver(email, link)` says whether sending the
   * verification email succeeded; `tokenSecret`, `newTokenId`, `refreshTokenId` and `sessionId`
   * are the fresh random values the call draws; `delayMs` records the mismatch delay.
   */
  method Login(db: Database, kv: KeyValueStore, crypto: Crypto, config: Config,
               deliver: (string, string) -> bool, nowMs: int,
               email: string, password: string, ipAddress: Option<string>, userAgent: Option<string>,
               tokenSecret: string, newTokenId: Id, refreshTokenId: Id, sessionId: Id)
    returns (r: Outcome<LoginResult>, ghost delayMs: nat)
    requires db.Valid()
    requires newTokenId !in db.tokens && sessionId !in db.sessions
    modifies db, kv
    ensures db.Valid()
    // An unknown email: 404 and nothing written.
    ensures EmailIdOf(old(db.emails), email).None? ==>
      r == Thrown(EmailNotFound) && unchanged(db) && unchanged(kv) && delayMs == 0
    // An unverified email: the rate-limited resend; never a session.
    ensures var e := EmailIdOf(old(db.emails), email);
      e.Some? && !old(db.emails)[e.value].isVerified ==>
        delayMs == 0 &&
        ResendStep(db, kv, crypto, config, deliver, nowMs, email, e.value, tokenSecret, newTokenId, r)
    // A verified email: the password login; the key-value store is not touched.
    ensures var e := EmailIdOf(old(db.emails), email);
      e.Some? && old(db.emails)[e.value].isVerified ==>
        unchanged(kv) &&
        PasswordStep(db, crypto, config, nowMs, email, password, e.value, ipAddress, userAgent,
                     refreshTokenId, sessionId, r, delayMs)
    // What a successful login returns matches the new session row.
    ensures r.Ok? ==>
      && r.value.sessionId == sessionId && sessionId in db.sessions
      && db.sessions[sessionId].userId == r.value.userId && !db.sessions[sessionId].isRevoked
      && r.value.refreshToken.claims.jti == Some(db.sessions[sessionId].refreshTokenId)
      && r.value.refreshToken.claims.sid == Some(sessionId)
      && r.value.refreshToken.claims.sub == Some(r.value.userId)
      && r.value.refreshToken.claims.typ == Some("refresh")
      && db.sessions[sessionId].expiresAt == nowMs + config.refreshTokenExpiry * 1000
  {
    delayMs := 0;
    var emailRecord := db.FindEmailByAddress(email);
    if emailRecord.None? {
      return Thrown(EmailNotFound), 0;
    }
    if !db.emails[emailRecord.value].isVerified {
      r := ResendVerification(db, kv, crypto, config, deliver, nowMs, email, emailRecord.value,
                              tokenSecret, newTokenId);
    } else {
      r, delayMs := PasswordLogin(db, crypto, config, nowMs, email, password, emailRecord.value,
                                  ipAddress, userAgent, refreshTokenId, sessionId);
    }
  }

  /** The unverified-email branch of `Login`. */
  method ResendVerification(db: Database, kv: KeyValueStore, crypto: Crypto, config: Config,
                            deliver: (string, string) -> bool, nowMs: int, email: string,
                            emailAddressId: Id, tokenSecret: string, newTokenId: Id)
    returns (r: Outcome<LoginResult>)
    requires db.Valid() && emailAddressId in db.emails
    requires newTokenId !in db.tokens
    modifies db, kv
    ensures db.Valid()
    ensures ResendStep(db, kv, crypto, config, deliver, nowMs, email, emailAddressId, tokenSecret, newTokenId, r)
  {
    var userId := db.emails[emailAddressId].userId;
    var gate := CheckResendLimit(kv, AuthEmailRateLimit(email), AuthEmailResends(email), ResendCooldown, ResendLimit);
    if !gate.Ok? {
      return gate.Propagate();
    }
    // One transaction: delete the user's verification tokens, create one, send the link.
    var txTokens := DeleteVerificationTokens(db.tokens, userId, None);
    txTokens := txTokens[newTokenId := NewVerificationToken(crypto, config, nowMs, tokenSecret, userId, emailAddressId)];
    if !deliver(email, CompoundToken(newTokenId, tokenSecret)) {
      return Crashed(DeliveryFailed);
    }
    db.tokens := txTokens;
    var _ := kv.SetEx(AuthEmailRateLimit(email), "1", CooldownSeconds);
    return Thrown(VerificationSent);
  }

  /** The verified-email branch of `Login`. */
  method PasswordLogin(db: Database, crypto: Crypto, config: Config, nowMs: int,
                       email: string, password: string, emailAddressId: Id,
                       ipAddress: Option<string>, userAgent: Option<string>, refreshTokenId: Id, sessionId: Id)
    returns (r: Outcome<LoginResult>, ghost delayMs: nat)
    requires db.Valid() && emailAddressId in db.emails
    requires sessionId !in db.sessions
    modifies db
    ensures db.Valid()
    ensures PasswordStep(db, crypto, config, nowMs, email, password, emailAddressId, ipAddress, userAgent,
                         refreshTokenId, sessionId, r, delayMs)
    ensures r.Ok? ==>
      && r.value.sessionId == sessionId && sessionId in db.sessions
      && db.sessions[sessionId].userId == r.value.userId && !db.sessions[sessionId].isRevoked
      && r.value.refreshToken.claims.jti == Some(db.sessions[sessionId].refreshTokenId)
      && r.value.refreshToken.claims.sid == Some(sessionId)
      && r.value.refreshToken.claims.sub == Some(r.value.userId)
      && r.value.refreshToken.claims.typ == Some("refresh")
      && db.sessions[sessionId].expiresAt == nowMs + config.refreshTokenExpiry * 1000
  {
    delayMs := 0;
    var userId := db.emails[emailAddressId].userId;
    var accountRecord := db.FindLocalAccount(email);
    if accountRecord.None? {
      return Thrown(AccountNotFound), 0;
    }
    var hashedPassword := db.accounts[accountRecord.value].hashedPassword;
    if !Truthy(hashedPassword) {
      return Thrown(DataInconsistency), 0;
    }
    var passwordMatched := crypto.argon2Verify(hashedPassword.value, password);
    if !passwordMatched {
      delayMs := MismatchDelayMs;
      r := Thrown(InvalidCredentials);
      return;
    }

    var sessionCount, oldest := db.UserSessionsByUpdatedAt(userId);
    var refreshToken := SignToken(RefreshPayload(refreshTokenId, userId, sessionId),
                                  AddDurationToNow(nowMs, config.refreshTokenExpiry * 1000));
    // One transaction: evict when the cap is reached, create the session, append the audit row.
    var txSessions := db.sessions;
    if sessionCount >= config.sessionLimit {
      if oldest.None? {
        return Crashed(UndefinedProperty), 0;
      }
      txSessions := txSessions[oldest.value := Revoked(txSessions[oldest.value], nowMs)];
    }
    txSessions := txSessions[sessionId := NewSession(config, nowMs, userId, emailAddressId, refreshTokenId,
                                                          ipAddress, userAgent)];
    db.sessions := txSessions;
    db.auditLog := db.auditLog + [AuditEntry(LoggedIn, ipAddress, userAgent, userId, nowMs)];
    r := Ok(LoginResult(refreshToken, userId, sessionId));
  }
}
