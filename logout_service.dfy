/** `logoutService` (apps/api/src/modules/logout/logout.service.ts). */
module LogoutService {
  import opened Common
  import opened AppErrors
  import opened Stores
  import opened RedisKeys
  import opened SessionPolicy
  import opened Jwt

  const InvalidRefreshClaims: AppError := NewAppError(401, "Invalid refresh token claims", None)
  const SessionNotFound: AppError := NewAppError(404, "Session not found", None)

  const RevokedMarker := "revoked"

  /** The claims a refresh token must carry: non-empty `sid`, `sub` and `jti`, and type "refresh". */
  predicate RefreshClaimsValid(c: Claims)
  {
    Truthy(c.sid) && Truthy(c.sub) && Truthy(c.jti) && c.typ == Some("refresh")
  }

  /** Every refresh token the login and verification flows sign passes the claims check. */
  lemma IssuedRefreshTokenPassesClaimsCheck(jti: Id, sub: Id, sid: Id, expirationMs: int)
    requires jti != "" && sub != "" && sid != ""
    ensures RefreshClaimsValid(SignToken(RefreshPayload(jti, sub, sid), expirationMs).claims)
  {
  }

  /**
   * The lifetime (in seconds) of the denylist entry: while the token's `exp` is truthy, the whole
   * seconds it still has to live (never negative); otherwise the refresh-token lifetime times 1000.
   */
  function DenylistTtl(exp: Option<int>, nowMs: int, refreshTokenExpiry: int): (ttl: int)
    ensures exp.Some? && exp.value != 0 ==>
      && ttl >= 0
      && (ttl == 0 <==> exp.value <= nowMs / 1000)
      && (ttl > 0 ==> nowMs / 1000 + ttl == exp.value)
    ensures !(exp.Some? && exp.value != 0) ==> ttl == refreshTokenExpiry * 1000
  {
    if exp.Some? && exp.value != 0 then
      var remaining := exp.value - nowMs / 1000;
      if remaining > 0 then remaining else 0
    else refreshTokenExpiry * 1000
  }

  /**
   * The entry for a token signed by `SignToken` with expiry `expirationMs` still in the future
   * expires in the same second as the token.
   */
  lemma DenylistEntryExpiresWithToken(payload: Claims, expirationMs: int, nowMs: int, refreshTokenExpiry: int)
    requires expirationMs >= 1000 && nowMs / 1000 < expirationMs / 1000
    ensures var exp := SignToken(payload, expirationMs).claims.exp;
      nowMs / 1000 + DenylistTtl(exp, nowMs, refreshTokenExpiry) == expirationMs / 1000
  {
  }

  /**
   * Logs out the session named by `refreshToken`. `verify` is the token check; the session row is
   * revoked and the audit row appended in one transaction, then the token id is put on the denylist.
   */
  method Logout(db: Database, kv: KeyValueStore, config: Config, verify: string -> VerifyResult,
                nowMs: int, refreshToken: string, ipAddress: Option<string>, userAgent: Option<string>)
    returns (r: Outcome<()>)
    requires db.Valid()
    modifies db, kv
    ensures db.Valid()
    ensures var v := VerifyToken(verify, refreshToken);
      !v.Ok? ==> r == v.Propagate() && unchanged(db) && unchanged(kv)
    ensures var v := VerifyToken(verify, refreshToken);
      v.Ok? && !RefreshClaimsValid(v.value) ==> r == Thrown(InvalidRefreshClaims) && unchanged(db) && unchanged(kv)
    ensures var v := VerifyToken(verify, refreshToken);
      v.Ok? && RefreshClaimsValid(v.value) ==>
        var sid := v.value.sid.value;
        var sub := v.value.sub.value;
        var jti := v.value.jti.value;
        var found := SessionOfUser(old(db.sessions), sub, sid) && old(db.sessions)[sid].refreshTokenId == jti;
        && (!found ==> r == Thrown(SessionNotFound) && unchanged(db) && unchanged(kv))
        // The update is filtered on `isRevoked: false`: a second logout finds no row to update.
        && (found && old(db.sessions)[sid].isRevoked ==> r == Crashed(RecordNotFound) && unchanged(db) && unchanged(kv))
        && (found && !old(db.sessions)[sid].isRevoked ==>
              var ttl := DenylistTtl(v.value.exp, nowMs, config.refreshTokenExpiry);
              && db.sessions == old(db.sessions)[sid := Revoked(old(db.sessions)[sid], nowMs)]
              && db.auditLog == old(db.auditLog) + [AuditEntry(LoggedOut, ipAddress, userAgent, sub, nowMs)]
              && OnlySessionsAndAuditChanged(db)
              && (ttl > 0 ==> r == Ok(()) && kv.values == old(kv.values)[BlacklistJti(jti) := Text(RevokedMarker)]
                                          && kv.ttls == old(kv.ttls)[BlacklistJti(jti) := ttl])
              // A token already past its expiry second: the revocation stands, the denylist write fails.
              && (ttl <= 0 ==> r == Crashed(InvalidExpireTime) && kv.values == old(kv.values) && kv.ttls == old(kv.ttls)))
    ensures r.Ok? ==>
      var c := VerifyToken(verify, refreshToken).value;
      && c.sid.value in db.sessions && db.sessions[c.sid.value].isRevoked
      && kv.values[BlacklistJti(c.jti.value)] == Text(RevokedMarker)
  {
    var verified := VerifyToken(verify, refreshToken);
    if !verified.Ok? {
      return verified.Propagate();
    }
    var claims := verified.value;
    if !RefreshClaimsValid(claims) {
      return Thrown(InvalidRefreshClaims);
    }
    var sid, sub, jti := claims.sid.value, claims.sub.value, claims.jti.value;
    var found := db.FindSessionForRefresh(jti, sid, sub);
    if !found {
      return Thrown(SessionNotFound);
    }
    // One transaction: the update matches no row when the session is already revoked, which rolls back.
    if db.sessions[sid].isRevoked {
      return Crashed(RecordNotFound);
    }
    db.sessions := db.sessions[sid := Revoked(db.sessions[sid], nowMs)];
    db.auditLog := db.auditLog + [AuditEntry(LoggedOut, ipAddress, userAgent, sub, nowMs)];
    r := kv.SetEx(BlacklistJti(jti), RevokedMarker, DenylistTtl(claims.exp, nowMs, config.refreshTokenExpiry));
  }

  /** Logging out twice with the same refresh token: the second call fails on the revoked row. */
  method LogoutTwice(db: Database, kv: KeyValueStore, config: Config, verify: string -> VerifyResult,
                     nowMs: int, refreshToken: string, ipAddress: Option<string>, userAgent: Option<string>)
    returns (first: Outcome<()>, second: Outcome<()>)
    requires db.Valid()
    modifies db, kv
    ensures first.Ok? ==> second == Crashed(RecordNotFound)
  {
    first := Logout(db, kv, config, verify, nowMs, refreshToken, ipAddress, userAgent);
    second := Logout(db, kv, config, verify, nowMs, refreshToken, ipAddress, userAgent);
  }
}
