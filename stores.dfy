/**
 * The two stores the services run against: the relational store (users, email addresses,
 * accounts, verification tokens, sessions, audit log) and the key-value store (resend counters,
 * cool-down flags, the refresh-token denylist), with the queries and primitives the services use.
 * Also the configuration and the cryptographic primitives, which are parameters.
 */
module Stores {
  import opened Common
  import opened AppErrors

  /** The configured durations (in seconds) and the per-user session cap. */
  datatype Config = Config(sessionLimit: int, accessTokenExpiry: int, refreshTokenExpiry: int,
                           emailVerificationTokenExpiry: int)

  /**
   * The cryptographic primitives, left uninterpreted: HMAC-SHA256 under the process-wide key,
   * argon2 hashing (with its random salt as an argument) and argon2 verification.
   */
  datatype Crypto = Crypto(hmacSha256: string -> string,
                           argon2Hash: (string, string) -> string,
                           argon2Verify: (string, string) -> bool)

  // ---------------------------------------------------------------------------------------------
  // Rows of the relational store

  datatype UserStatus = VerificationPending | Active

  datatype User = User(status: UserStatus)

  datatype EmailAddress = EmailAddress(email: string, userId: Id, isVerified: bool)

  datatype Provider = Local

  datatype Account = Account(provider: Provider, providerUserId: string, hashedPassword: Option<string>, userId: Id)

  datatype TokenType = EmailVerification | OtherTokenType(name: string)

  datatype VerificationToken = VerificationToken(hashedSecret: string, tokenType: TokenType, expiresAt: int,
                                                 userId: Id, emailAddressId: Option<Id>)

  datatype Session = Session(userId: Id, emailAddressId: Id, refreshTokenId: Id, isRevoked: bool,
                             expiresAt: int, ipAddress: Option<string>, userAgent: Option<string>,
                             updatedAt: int)

  datatype AuditEvent = AccountCreated | LoggedIn | EmailVerified | LoggedOut

  datatype AuditEntry = AuditEntry(event: AuditEvent, ipAddress: Option<string>, userAgent: Option<string>,
                                   userId: Id, createdAt: int)

  // ---------------------------------------------------------------------------------------------
  // Queries over table values

  /** The email address row holding `email`, if any (unique by the store's constraint). */
  ghost function EmailIdOf(emails: map<Id, EmailAddress>, email: string): (r: Option<Id>)
    ensures r.Some? ==> r.value in emails && emails[r.value].email == email
    ensures r.None? ==> forall id :: id in emails ==> emails[id].email != email
  {
    if exists id :: id in emails && emails[id].email == email then
      var id :| id in emails && emails[id].email == email; Some(id)
    else None
  }

  /** The LOCAL account whose provider user id is `providerUserId`, if any. */
  ghost function LocalAccountOf(accounts: map<Id, Account>, providerUserId: string): (r: Option<Id>)
    ensures r.Some? ==> r.value in accounts && accounts[r.value].provider == Local
                        && accounts[r.value].providerUserId == providerUserId
    ensures r.None? ==> forall id :: id in accounts ==>
                          !(accounts[id].provider == Local && accounts[id].providerUserId == providerUserId)
  {
    if exists id :: id in accounts && accounts[id].provider == Local && accounts[id].providerUserId == providerUserId then
      var id :| id in accounts && accounts[id].provider == Local && accounts[id].providerUserId == providerUserId; Some(id)
    else None
  }

  /** All sessions of a user, revoked ones included. */
  function SessionsOf(sessions: map<Id, Session>, userId: Id): set<Id>
  {
    set id | id in sessions && sessions[id].userId == userId
  }

  /** The user's sessions that are not revoked. */
  function LiveSessionsOf(sessions: map<Id, Session>, userId: Id): set<Id>
  {
    set id | id in sessions && sessions[id].userId == userId && !sessions[id].isRevoked
  }

  /** `o` comes first among `ids` in ascending `updatedAt` order. */
  predicate IsOldest(sessions: map<Id, Session>, ids: set<Id>, o: Id)
    requires ids <= sessions.Keys
  {
    o in ids && forall x :: x in ids ==> sessions[o].updatedAt <= sessions[x].updatedAt
  }

  /** Every non-empty set of sessions has a first element in `updatedAt` order. */
  lemma {:induction false} OldestExists(sessions: map<Id, Session>, ids: set<Id>)
    requires ids <= sessions.Keys && ids != {}
    ensures exists o :: IsOldest(sessions, ids, o)
    decreases |ids|
  {
    var x :| x in ids;
    var rest := ids - {x};
    if rest == {} {
      assert ids == {x};
      assert IsOldest(sessions, ids, x);
    } else {
      OldestExists(sessions, rest);
      var o :| IsOldest(sessions, rest, o);
      if sessions[x].updatedAt <= sessions[o].updatedAt {
        assert IsOldest(sessions, ids, x);
      } else {
        assert IsOldest(sessions, ids, o);
      }
    }
  }

  /** A session row matches (userId, id) exactly when the session exists for that user. */
  ghost predicate SessionOfUser(sessions: map<Id, Session>, userId: Id, sessionId: Id)
  {
    sessionId in sessions && sessions[sessionId].userId == userId
  }

  /**
   * The rows `deleteMany` removes: verification tokens of the user, restricted to one email
   * address when `emailAddressId` is given.
   */
  predicate MatchesVerificationToken(t: VerificationToken, userId: Id, emailAddressId: Option<Id>)
  {
    t.tokenType == EmailVerification && t.userId == userId
    && (emailAddressId.Some? ==> t.emailAddressId == emailAddressId)
  }

  function DeleteVerificationTokens(tokens: map<Id, VerificationToken>, userId: Id, emailAddressId: Option<Id>)
    : (r: map<Id, VerificationToken>)
    ensures forall id :: id in r <==> id in tokens && !MatchesVerificationToken(tokens[id], userId, emailAddressId)
    ensures forall id :: id in r ==> r[id] == tokens[id]
  {
    map id | id in tokens && !MatchesVerificationToken(tokens[id], userId, emailAddressId) :: tokens[id]
  }

  /** The tokens matching a `deleteMany` filter. */
  ghost function MatchingTokens(tokens: map<Id, VerificationToken>, userId: Id, emailAddressId: Option<Id>): set<Id>
  {
    set id | id in tokens && MatchesVerificationToken(tokens[id], userId, emailAddressId)
  }

  /**
   * Deleting the matching tokens and then creating one matching token leaves exactly that one:
   * the single-active-token rule, for the filter used.
   */
  lemma ReplaceLeavesOneToken(tokens: map<Id, VerificationToken>, userId: Id, emailAddressId: Option<Id>,
                              newId: Id, t: VerificationToken)
    requires MatchesVerificationToken(t, userId, emailAddressId)
    ensures MatchingTokens(DeleteVerificationTokens(tokens, userId, emailAddressId)[newId := t], userId, emailAddressId) == {newId}
  {
  }

  // ---------------------------------------------------------------------------------------------
  // Unique constraints

  /** No two email address rows hold the same email. */
  ghost predicate EmailsUnique(emails: map<Id, EmailAddress>)
  {
    forall a, b :: a in emails && b in emails && emails[a].email == emails[b].email ==> a == b
  }

  /** No two accounts share a (provider, providerUserId) pair. */
  ghost predicate AccountKeysUnique(accounts: map<Id, Account>)
  {
    forall a, b ::
      (a in accounts && b in accounts && accounts[a].provider == accounts[b].provider &&
       accounts[a].providerUserId == accounts[b].providerUserId) ==> a == b
  }

  /** Creating an address row for an email no row holds keeps emails unique. */
  lemma AddEmailKeepsUnique(emails: map<Id, EmailAddress>, id: Id, e: EmailAddress)
    requires EmailsUnique(emails) && id !in emails
    requires forall x :: x in emails ==> emails[x].email != e.email
    ensures EmailsUnique(emails[id := e])
  {
  }

  /** Updating an address row without changing its email keeps emails unique. */
  lemma UpdateEmailKeepsUnique(emails: map<Id, EmailAddress>, id: Id, e: EmailAddress)
    requires EmailsUnique(emails) && id in emails && e.email == emails[id].email
    ensures EmailsUnique(emails[id := e])
  {
  }

  /** Creating an account under a (provider, providerUserId) pair no account uses keeps the pairs unique. */
  lemma AddAccountKeepsUnique(accounts: map<Id, Account>, id: Id, a: Account)
    requires AccountKeysUnique(accounts) && id !in accounts
    requires forall x :: x in accounts ==> !(accounts[x].provider == a.provider && accounts[x].providerUserId == a.providerUserId)
    ensures AccountKeysUnique(accounts[id := a])
  {
  }

  // ---------------------------------------------------------------------------------------------
  // The relational store

  class Database {
    var users: map<Id, User>
    var emails: map<Id, EmailAddress>
    var accounts: map<Id, Account>
    var tokens: map<Id, VerificationToken>
    var sessions: map<Id, Session>
    var auditLog: seq<AuditEntry>

    /** The store's unique constraints: email addresses, and (provider, providerUserId) of accounts. */
    ghost predicate Valid()
      reads this
    {
      EmailsUnique(emails) && AccountKeysUnique(accounts)
    }

    constructor ()
      ensures Valid()
      ensures users == map[] && emails == map[] && accounts == map[] && tokens == map[]
      ensures sessions == map[] && auditLog == []
    {
      users, emails, accounts, tokens, sessions, auditLog := map[], map[], map[], map[], map[], [];
    }

    /** `emailAddress.findUnique({ where: { email } })`. */
    method FindEmailByAddress(email: string) returns (r: Option<Id>)
      requires Valid()
      ensures r.Some? ==> r.value in emails && emails[r.value].email == email
      ensures r.None? ==> forall id :: id in emails ==> emails[id].email != email
      ensures r == EmailIdOf(emails, email)
    {
      if exists id :: id in emails && emails[id].email == email {
        var id :| id in emails && emails[id].email == email;
        r := Some(id);
      } else {
        r := None;
      }
    }

    /** `account.findUnique({ where: { providerUserId_provider: { provider: "LOCAL", providerUserId } } })`. */
    method FindLocalAccount(providerUserId: string) returns (r: Option<Id>)
      requires Valid()
      ensures r.Some? ==> r.value in accounts && accounts[r.value].provider == Local
                          && accounts[r.value].providerUserId == providerUserId
      ensures r.None? ==> forall id :: id in accounts ==>
                            !(accounts[id].provider == Local && accounts[id].providerUserId == providerUserId)
      ensures r == LocalAccountOf(accounts, providerUserId)
    {
      if exists id :: id in accounts && accounts[id].provider == Local && accounts[id].providerUserId == providerUserId {
        var id :| id in accounts && accounts[id].provider == Local && accounts[id].providerUserId == providerUserId;
        r := Some(id);
      } else {
        r := None;
      }
    }

    /** `token.findFirst({ where: { type: "EMAIL_VERIFICATION", id } })`. */
    method FindVerificationToken(tokenId: Id) returns (r: Option<VerificationToken>)
      ensures r.Some? <==> tokenId in tokens && tokens[tokenId].tokenType == EmailVerification
      ensures r.Some? ==> r.value == tokens[tokenId]
    {
      if tokenId in tokens && tokens[tokenId].tokenType == EmailVerification {
        r := Some(tokens[tokenId]);
      } else {
        r := None;
      }
    }

    /** `emailAddress.findFirst({ where: { id } })`. */
    method FindEmailById(id: Id) returns (r: Option<EmailAddress>)
      ensures r.Some? <==> id in emails
      ensures r.Some? ==> r.value == emails[id]
    {
      r := if id in emails then Some(emails[id]) else None;
    }

    /**
     * `session.findMany({ where: { userId }, orderBy: { updatedAt: "asc" } })`, of which the
     * caller uses the length and the first row.
     */
    method UserSessionsByUpdatedAt(userId: Id) returns (count: nat, first: Option<Id>)
      ensures count == |SessionsOf(sessions, userId)|
      ensures first.Some? <==> count > 0
      ensures first.Some? ==> IsOldest(sessions, SessionsOf(sessions, userId), first.value)
    {
      var mine := SessionsOf(sessions, userId);
      count := |mine|;
      if mine == {} {
        first := None;
      } else {
        OldestExists(sessions, mine);
        var o :| IsOldest(sessions, mine, o);
        first := Some(o);
      }
    }

    /** `session.findFirst({ where: { refreshTokenId, id, userId } })`. */
    method FindSessionForRefresh(refreshTokenId: Id, sessionId: Id, userId: Id) returns (found: bool)
      ensures found <==> SessionOfUser(sessions, userId, sessionId)
                         && sessions[sessionId].refreshTokenId == refreshTokenId
    {
      found := sessionId in sessions && sessions[sessionId].userId == userId
               && sessions[sessionId].refreshTokenId == refreshTokenId;
    }

    /** `session.findUnique({ where: { userId, id } })`: neither revocation nor expiry is looked at. */
    method FindSessionOfUser(userId: Id, sessionId: Id) returns (found: bool)
      ensures found <==> SessionOfUser(sessions, userId, sessionId)
    {
      found := sessionId in sessions && sessions[sessionId].userId == userId;
    }
  }

  /** The EMAIL_VERIFICATION token row both flows create: the HMAC of the secret, expiring after the configured lifetime. */
  function NewVerificationToken(crypto: Crypto, config: Config, nowMs: int, tokenSecret: string,
                                userId: Id, emailAddressId: Id): (t: VerificationToken)
    ensures t.hashedSecret == crypto.hmacSha256(tokenSecret)
    ensures t.expiresAt == nowMs + config.emailVerificationTokenExpiry * 1000
    ensures MatchesVerificationToken(t, userId, Some(emailAddressId)) && MatchesVerificationToken(t, userId, None)
  {
    VerificationToken(crypto.hmacSha256(tokenSecret), EmailVerification,
                      AddDurationToNow(nowMs, config.emailVerificationTokenExpiry * 1000), userId, Some(emailAddressId))
  }

  /** Frames of the write paths: which tables a call may have changed. */
  twostate predicate OnlyTokensChanged(db: Database)
    reads db
  {
    db.users == old(db.users) && db.emails == old(db.emails) && db.accounts == old(db.accounts)
    && db.sessions == old(db.sessions) && db.auditLog == old(db.auditLog)
  }

  twostate predicate OnlySessionsAndAuditChanged(db: Database)
    reads db
  {
    db.users == old(db.users) && db.emails == old(db.emails) && db.accounts == old(db.accounts)
    && db.tokens == old(db.tokens)
  }

  // ---------------------------------------------------------------------------------------------
  // The key-value store

  datatype KvValue = Num(n: int) | Text(s: string)

  class KeyValueStore {
    var values: map<string, KvValue>
    /** Expiry in seconds, as last set; expiry by the store is not modelled. */
    var ttls: map<string, int>

    constructor ()
      ensures values == map[] && ttls == map[]
    {
      values, ttls := map[], map[];
    }

    /** EXISTS key. */
    method Exists(key: string) returns (b: bool)
      ensures b <==> key in values
    {
      b := key in values;
    }

    /** INCR key: a missing key counts from 0 and has no expiry; a text value is an error. */
    method Incr(key: string) returns (r: Outcome<int>)
      modifies this
      ensures key !in old(values) ==> r == Ok(1) && values == old(values)[key := Num(1)] && ttls == old(ttls) - {key}
      ensures key in old(values) && old(values)[key].Num? ==>
        r == Ok(old(values)[key].n + 1) && values == old(values)[key := Num(r.value)] && ttls == old(ttls)
      ensures key in old(values) && old(values)[key].Text? ==>
        r == Crashed(NotAnInteger) && values == old(values) && ttls == old(ttls)
    {
      if key !in values {
        values := values[key := Num(1)];
        ttls := ttls - {key};
        r := Ok(1);
      } else if values[key].Num? {
        var n := values[key].n + 1;
        values := values[key := Num(n)];
        r := Ok(n);
      } else {
        r := Crashed(NotAnInteger);
      }
    }

    /** EXPIRE key seconds: sets the expiry of an existing key, does nothing for a missing one. */
    method Expire(key: string, seconds: int)
      requires seconds > 0
      modifies this
      ensures values == old(values)
      ensures ttls == if key in old(values) then old(ttls)[key := seconds] else old(ttls)
    {
      if key in values {
        ttls := ttls[key := seconds];
      }
    }

    /** SET key value EX seconds: replaces value and expiry; a time that is not positive is an error. */
    method SetEx(key: string, value: string, seconds: int) returns (r: Outcome<()>)
      modifies this
      ensures seconds > 0 ==> r == Ok(()) && values == old(values)[key := Text(value)] && ttls == old(ttls)[key := seconds]
      ensures seconds <= 0 ==> r == Crashed(InvalidExpireTime) && values == old(values) && ttls == old(ttls)
    {
      if seconds > 0 {
        values := values[key := Text(value)];
        ttls := ttls[key := seconds];
        r := Ok(());
      } else {
        r := Crashed(InvalidExpireTime);
      }
    }
  }
}
