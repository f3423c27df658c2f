/**
 * How the two session-creating flows change the session table: login's evict-then-create step
 * (apps/api/src/modules/login/login.service.ts) and email verification's plain create
 * (apps/api/src/modules/verify-email/verify-email.service.ts), with what they do to a user's
 * session counts.
 */
module SessionPolicy {
  import opened Common
  import opened Stores

  /** The row after `update({ data: { isRevoked: true } })`; `updatedAt` moves to the update time. */
  function Revoked(s: Session, now: int): (r: Session)
    ensures r.isRevoked && r.updatedAt == now
    ensures r.(isRevoked := s.isRevoked, updatedAt := s.updatedAt) == s
  {
    s.(isRevoked := true, updatedAt := now)
  }

  /** The session row login and email verification create: live, expiring after the refresh-token lifetime. */
  function NewSession(config: Config, nowMs: int, userId: Id, emailAddressId: Id, refreshTokenId: Id,
                           ipAddress: Option<string>, userAgent: Option<string>): (s: Session)
    ensures s.userId == userId && s.refreshTokenId == refreshTokenId && !s.isRevoked
    ensures s.expiresAt == nowMs + config.refreshTokenExpiry * 1000 && s.updatedAt == nowMs
    ensures s.emailAddressId == emailAddressId && s.ipAddress == ipAddress && s.userAgent == userAgent
  {
    Session(userId, emailAddressId, refreshTokenId, false, AddDurationToNow(nowMs, config.refreshTokenExpiry * 1000),
            ipAddress, userAgent, nowMs)
  }

  /**
   * Login's step: when the user's session count, revoked sessions included, has reached
   * `limit`, the first session in ascending `updatedAt` order is revoked; then `s` is added as `newId`.
   */
  ghost predicate LoginSessionStep(before: map<Id, Session>, after: map<Id, Session>, userId: Id, limit: int,
                                   now: int, newId: Id, s: Session)
    ensures LoginSessionStep(before, after, userId, limit, now, newId, s) ==>
      && after.Keys == before.Keys + {newId} && after[newId] == s
      && (|SessionsOf(before, userId)| < limit ==> after == before[newId := s])
  {
    var mine := SessionsOf(before, userId);
    && newId !in before && s.userId == userId && !s.isRevoked
    && if |mine| >= limit then
         exists v :: IsOldest(before, mine, v) && after == before[v := Revoked(before[v], now)][newId := s]
       else
         after == before[newId := s]
  }

  /** Email verification's step: `s` is added as `newId`, with no cap and no revocation. */
  ghost predicate VerifySessionStep(before: map<Id, Session>, after: map<Id, Session>, userId: Id,
                                    newId: Id, s: Session)
  {
    newId !in before && s.userId == userId && !s.isRevoked && after == before[newId := s]
  }

  lemma SubsetCardinality<T>(a: set<T>, b: set<T>)
    requires a <= b
    ensures |a| <= |b|
  {
    assert b == a + (b - a);
  }

  /** Every existing session other than `v` is left as it was. */
  ghost predicate ChangedOnlyAt(before: map<Id, Session>, after: map<Id, Session>, v: Id)
  {
    forall id :: id in before && id != v ==> id in after && after[id] == before[id]
  }

  /** Login revokes at most one existing session, changes nothing else, and adds exactly the new one. */
  lemma LoginChangesAtMostOne(before: map<Id, Session>, after: map<Id, Session>, userId: Id, limit: int,
                              now: int, newId: Id, s: Session)
    requires LoginSessionStep(before, after, userId, limit, now, newId, s)
    ensures after.Keys == before.Keys + {newId} && after[newId] == s
    ensures exists v :: ChangedOnlyAt(before, after, v)
    ensures |SessionsOf(before, userId)| < limit ==> forall id :: id in before ==> after[id] == before[id]
  {
    if |SessionsOf(before, userId)| >= limit {
      var v :| IsOldest(before, SessionsOf(before, userId), v) && after == before[v := Revoked(before[v], now)][newId := s];
      assert ChangedOnlyAt(before, after, v);
    } else {
      assert ChangedOnlyAt(before, after, newId);
    }
  }

  /** The session sets after revoking `v` and adding `newId`. */
  lemma EvictedSets(before: map<Id, Session>, userId: Id, now: int, v: Id, newId: Id, s: Session)
    requires v in before && before[v].userId == userId && newId !in before
    requires s.userId == userId && !s.isRevoked
    ensures var after := before[v := Revoked(before[v], now)][newId := s];
      && SessionsOf(after, userId) == SessionsOf(before, userId) + {newId}
      && LiveSessionsOf(after, userId) == (LiveSessionsOf(before, userId) - {v}) + {newId}
  {
  }

  /** The session sets after adding `newId` alone. */
  lemma AddedSets(before: map<Id, Session>, userId: Id, newId: Id, s: Session)
    requires newId !in before
    requires s.userId == userId && !s.isRevoked
    ensures SessionsOf(before[newId := s], userId) == SessionsOf(before, userId) + {newId}
    ensures LiveSessionsOf(before[newId := s], userId) == LiveSessionsOf(before, userId) + {newId}
  {
  }

  /**
   * Login grows the user's session count by one and the non-revoked count by at most one; when
   * none of the user's sessions was revoked and the cap was reached, the non-revoked count stays put.
   */
  lemma LoginSessionCounts(before: map<Id, Session>, after: map<Id, Session>, userId: Id, limit: int,
                           now: int, newId: Id, s: Session)
    requires LoginSessionStep(before, after, userId, limit, now, newId, s)
    ensures |SessionsOf(after, userId)| == |SessionsOf(before, userId)| + 1
    ensures |LiveSessionsOf(after, userId)| <= |LiveSessionsOf(before, userId)| + 1
    ensures |SessionsOf(before, userId)| >= limit && LiveSessionsOf(before, userId) == SessionsOf(before, userId) ==>
      |LiveSessionsOf(after, userId)| == |LiveSessionsOf(before, userId)|
  {
    var mine := SessionsOf(before, userId);
    var live := LiveSessionsOf(before, userId);
    if |mine| >= limit {
      var v :| IsOldest(before, mine, v) && after == before[v := Revoked(before[v], now)][newId := s];
      EvictedSets(before, userId, now, v, newId, s);
      var rest := live - {v};
      assert newId !in rest;
      assert |rest + {newId}| == |rest| + 1;
      SubsetCardinality(rest, live);
      if live == mine {
        assert live == rest + {v};
        assert |rest| == |live| - 1;
      }
    } else {
      AddedSets(before, userId, newId, s);
    }
  }

  /** Email verification grows both the user's session count and the non-revoked count by exactly one. */
  lemma VerifySessionCounts(before: map<Id, Session>, after: map<Id, Session>, userId: Id, newId: Id, s: Session)
    requires VerifySessionStep(before, after, userId, newId, s)
    ensures |SessionsOf(after, userId)| == |SessionsOf(before, userId)| + 1
    ensures |LiveSessionsOf(after, userId)| == |LiveSessionsOf(before, userId)| + 1
  {
    AddedSets(before, userId, newId, s);
  }

  /**
   * Because revoked sessions count towards the cap, revoking the first of them does not bound the
   * non-revoked ones: with a cap of 1, an older revoked session and a newer live one, a login
   * leaves two live sessions.
   */
  lemma RevokedSessionsCountTowardsCap()
    ensures var older := Session("u", "e", "j1", true, 0, None, None, 1);
            var newer := Session("u", "e", "j2", false, 0, None, None, 2);
            var added := Session("u", "e", "j3", false, 0, None, None, 10);
            var before := map["s1" := older, "s2" := newer];
            && |LiveSessionsOf(before, "u")| == 1
            && forall after :: LoginSessionStep(before, after, "u", 1, 10, "s3", added) ==>
                 |LiveSessionsOf(after, "u")| == 2
  {
    var older := Session("u", "e", "j1", true, 0, None, None, 1);
    var newer := Session("u", "e", "j2", false, 0, None, None, 2);
    var added := Session("u", "e", "j3", false, 0, None, None, 10);
    var before := map["s1" := older, "s2" := newer];
    assert LiveSessionsOf(before, "u") == {"s2"};
    assert SessionsOf(before, "u") == {"s1", "s2"};
    forall after | LoginSessionStep(before, after, "u", 1, 10, "s3", added)
      ensures |LiveSessionsOf(after, "u")| == 2
    {
      var v :| IsOldest(before, {"s1", "s2"}, v) && after == before[v := Revoked(before[v], 10)]["s3" := added];
      assert v == "s1";
      assert LiveSessionsOf(after, "u") == {"s2", "s3"};
    }
  }
}
