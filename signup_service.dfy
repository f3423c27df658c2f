/** `signupService` (apps/api/src/modules/signup/signup.service.ts). */
module SignupService {
  import opened Common
  import opened AppErrors
  import opened Stores
  import opened RateLimit

  const EmailInUse: AppError := NewAppError(409, "Email already in use",
    Some("This email is already registered and verified."))
  const SignupCooldown: AppError := NewAppError(429, "Rate limit exceeded",
    Some("Too Many Requests: You can request a new verification email every 60 seconds."))
  const SignupLimit: AppError := NewAppError(429, "Daily limit reached",
    Some("Too Many Requests: You have reached the daily limit for verification emails."))

  /**
   * The key family the signup flow uses for its cool-down flag and resend counter. The helpers it
   * calls are not defined next to the login ones, so the family is a parameter.
   */
  datatype SignupKeys = SignupKeys(rateLimit: string -> string, resends: string -> string)

  /** The fresh values a signup draws: ids of the new rows, the token secret and the password salt. */
  datatype FreshValues = FreshValues(userId: Id, emailAddressId: Id, accountId: Id, tokenId: Id,
                                     tokenSecret: string, salt: string)

  /**
   * What signing up an existing unverified address does: the signup rate limit, then the
   * address's verification tokens replaced by one. No user, address or account row is added.
   */
  twostate predicate SignupResendStep(db: Database, kv: KeyValueStore, crypto: Crypto, config: Config,
                                      keys: SignupKeys, nowMs: int, email: string, emailAddressId: Id,
                                      ids: FreshValues, new r: Outcome<()>)
    reads db, kv
    requires old(emailAddressId in db.emails)
  {
    var userId := old(db.emails)[emailAddressId].userId;
    var coolKey := keys.rateLimit(email);
    var counterKey := keys.resends(email);
    && OnlyTokensChanged(db)
    && (!r.Ok? ==> db.tokens == old(db.tokens))
    && (coolKey in old(kv.values) ==> r == Thrown(SignupCooldown) && unchanged(kv))
    && (coolKey !in old(kv.values) && counterKey in old(kv.values) && old(kv.values)[counterKey].Text? ==>
          r == Crashed(NotAnInteger) && kv.values == old(kv.values) && kv.ttls == old(kv.ttls))
    && (coolKey !in old(kv.values) && (counterKey in old(kv.values) ==> old(kv.values)[counterKey].Num?) ==>
          var n := NextCount(old(kv.values), counterKey);
          var bumped := BumpValues(old(kv.values), counterKey);
          var bumpedTtls := BumpTtls(old(kv.values), old(kv.ttls), counterKey);
          && (!ResendAllowed(n) ==> r == Thrown(SignupLimit) && kv.values == bumped && kv.ttls == bumpedTtls)
          && (ResendAllowed(n) ==>
                && r == Ok(())
                && db.tokens == DeleteVerificationTokens(old(db.tokens), userId, Some(emailAddressId))[ids.tokenId :=
                     NewVerificationToken(crypto, config, nowMs, ids.tokenSecret, userId, emailAddressId)]
                && kv.values == bumped[coolKey := Text("1")]
                && kv.ttls == bumpedTtls[coolKey := CooldownSeconds]))
  }

  /**
   * What signing up a new address does: one transaction creating every row, or none when a LOCAL
   * account already uses the email as its provider user id.
   */
  twostate predicate SignupCreateStep(db: Database, crypto: Crypto, config: Config, nowMs: int,
                                      email: string, password: string, ipAddress: Option<string>,
                                      userAgent: Option<string>, ids: FreshValues, new r: Outcome<()>)
    reads db
  {
    && (LocalAccountOf(old(db.accounts), email).Some? ==> r == Crashed(UniqueViolation) && unchanged(db))
    && (LocalAccountOf(old(db.accounts), email).None? ==>
          && r == Ok(())
          && db.users == old(db.users)[ids.userId := User(VerificationPending)]
          && db.emails == old(db.emails)[ids.emailAddressId := EmailAddress(email, ids.userId, false)]
          && db.accounts == old(db.accounts)[ids.accountId :=
               Account(Local, email, Some(crypto.argon2Hash(password, ids.salt)), ids.userId)]
          && db.auditLog == old(db.auditLog) + [AuditEntry(AccountCreated, ipAddress, userAgent, ids.userId, nowMs)]
          && db.tokens == old(db.tokens)[ids.tokenId :=
               NewVerificationToken(crypto, config, nowMs, ids.tokenSecret, ids.userId, ids.emailAddressId)]
          && db.sessions == old(db.sessions))
  }

  /**
   * Signs up `email` with `password`. An existing verified email is a conflict; an existing
   * unverified one gets a new verification token under the signup rate limit; a new one gets a
   * user, an email address, a LOCAL account, an audit row and a verification token in one transaction.
   */
  method Signup(db: Database, kv: KeyValueStore, crypto: Crypto, config: Config, keys: SignupKeys, nowMs: int,
                email: string, password: string, ipAddress: Option<string>, userAgent: Option<string>,
                ids: FreshValues)
    returns (r: Outcome<()>)
    requires db.Valid()
    requires ids.userId !in db.users && ids.emailAddressId !in db.emails && ids.accountId !in db.accounts
    requires ids.tokenId !in db.tokens
    modifies db, kv
    ensures db.Valid()
    // An existing verified email: 409, nothing written.
    ensures var e := EmailIdOf(old(db.emails), email);
      e.Some? && old(db.emails)[e.value].isVerified ==> r == Thrown(EmailInUse) && unchanged(db) && unchanged(kv)
    // An existing unverified email: the rate-limited resend.
    ensures var e := EmailIdOf(old(db.emails), email);
      e.Some? && !old(db.emails)[e.value].isVerified ==>
        SignupResendStep(db, kv, crypto, config, keys, nowMs, email, e.value, ids, r)
    // A new email: the account creation; no rate-limit key is touched.
    ensures EmailIdOf(old(db.emails), email).None? ==>
      unchanged(kv) && SignupCreateStep(db, crypto, config, nowMs, email, password, ipAddress, userAgent, ids, r)
  {
    var emailRecord := db.FindEmailByAddress(email);
    if emailRecord.Some? {
      if db.emails[emailRecord.value].isVerified {
        return Thrown(EmailInUse);
      }
      r := ResendForSignup(db, kv, crypto, config, keys, nowMs, email, emailRecord.value, ids);
    } else {
      r := CreateAccount(db, crypto, config, nowMs, email, password, ipAddress, userAgent, ids);
    }
  }

  /** The existing-unverified-address branch of `Signup`. */
  method ResendForSignup(db: Database, kv: KeyValueStore, crypto: Crypto, config: Config, keys: SignupKeys,
                         nowMs: int, email: string, emailAddressId: Id, ids: FreshValues)
    returns (r: Outcome<()>)
    requires db.Valid() && emailAddressId in db.emails
    requires ids.tokenId !in db.tokens
    modifies db, kv
    ensures db.Valid()
    ensures SignupResendStep(db, kv, crypto, config, keys, nowMs, email, emailAddressId, ids, r)
  {
    var userId := db.emails[emailAddressId].userId;
    var gate := CheckResendLimit(kv, keys.rateLimit(email), keys.resends(email), SignupCooldown, SignupLimit);
    if !gate.Ok? {
      return gate.Propagate();
    }
    // One transaction: delete this address's verification tokens of the user, create one.
    var txTokens := DeleteVerificationTokens(db.tokens, userId, Some(emailAddressId));
    txTokens := txTokens[ids.tokenId := NewVerificationToken(crypto, config, nowMs, ids.tokenSecret, userId, emailAddressId)];
    db.tokens := txTokens;
    var _ := kv.SetEx(keys.rateLimit(email), "1", CooldownSeconds);
    return Ok(());
  }

  /** The new-address branch of `Signup`. */
  method CreateAccount(db: Database, crypto: Crypto, config: Config, nowMs: int, email: string, password: string,
                       ipAddress: Option<string>, userAgent: Option<string>, ids: FreshValues)
    returns (r: Outcome<()>)
    requires db.Valid() && EmailIdOf(db.emails, email).None?
    requires ids.userId !in db.users && ids.emailAddressId !in db.emails && ids.accountId !in db.accounts
    requires ids.tokenId !in db.tokens
    modifies db
    ensures db.Valid()
    ensures SignupCreateStep(db, crypto, config, nowMs, email, password, ipAddress, userAgent, ids, r)
  {
    // One transaction: user, email address, account, audit row, verification token.
    var existing := db.FindLocalAccount(email);
    if existing.Some? {
      return Crashed(UniqueViolation);
    }
    var newUsers := db.users[ids.userId := User(VerificationPending)];
    var newEmails := db.emails[ids.emailAddressId := EmailAddress(email, ids.userId, false)];
    var newAccounts := db.accounts[ids.accountId :=
                         Account(Local, email, Some(crypto.argon2Hash(password, ids.salt)), ids.userId)];
    AddEmailKeepsUnique(db.emails, ids.emailAddressId, EmailAddress(email, ids.userId, false));
    AddAccountKeepsUnique(db.accounts, ids.accountId, newAccounts[ids.accountId]);
    var newAudit := db.auditLog + [AuditEntry(AccountCreated, ipAddress, userAgent, ids.userId, nowMs)];
    var newTokens := db.tokens[ids.tokenId :=
                       NewVerificationToken(crypto, config, nowMs, ids.tokenSecret, ids.userId, ids.emailAddressId)];
    db.users, db.emails, db.accounts, db.auditLog, db.tokens := newUsers, newEmails, newAccounts, newAudit, newTokens;
    r := Ok(());
  }
}
