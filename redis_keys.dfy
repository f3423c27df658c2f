/** Key naming for the key-value store (apps/api/src/utils/redis-keys.ts). */
module RedisKeys {

  const AuthEmailResendsPrefix: string := "auth-email-resends:"
  const AuthEmailRateLimitPrefix: string := "auth-email-rate-limit:"
  const BlacklistJtiPrefix: string := "blacklist-jti:"

  /** True when `key` is `prefix` followed verbatim by `arg`. */
  predicate PrefixedBy(key: string, prefix: string, arg: string)
  {
    |key| == |prefix| + |arg| && key[..|prefix|] == prefix && key[|prefix|..] == arg
  }

  /** The per-email resend counter of the login flow. */
  function AuthEmailResends(email: string): (key: string)
    ensures PrefixedBy(key, AuthEmailResendsPrefix, email)
  {
    AuthEmailResendsPrefix + email
  }

  /** The per-email cool-down flag of the login flow. */
  function AuthEmailRateLimit(email: string): (key: string)
    ensures PrefixedBy(key, AuthEmailRateLimitPrefix, email)
  {
    AuthEmailRateLimitPrefix + email
  }

  /** The denylist entry of a refresh-token id. */
  function BlacklistJti(jti: string): (key: string)
    ensures PrefixedBy(key, BlacklistJtiPrefix, jti)
  {
    BlacklistJtiPrefix + jti
  }

  /** Each key family is injective: the argument can be read back from the key. */
  lemma KeysInjective(a: string, b: string)
    ensures AuthEmailResends(a) == AuthEmailResends(b) ==> a == b
    ensures AuthEmailRateLimit(a) == AuthEmailRateLimit(b) ==> a == b
    ensures BlacklistJti(a) == BlacklistJti(b) ==> a == b
  {
    if AuthEmailResends(a) == AuthEmailResends(b) {
      assert a == AuthEmailResends(a)[|AuthEmailResendsPrefix|..];
    }
    if AuthEmailRateLimit(a) == AuthEmailRateLimit(b) {
      assert a == AuthEmailRateLimit(a)[|AuthEmailRateLimitPrefix|..];
    }
    if BlacklistJti(a) == BlacklistJti(b) {
      assert a == BlacklistJti(a)[|BlacklistJtiPrefix|..];
    }
  }

  /**
   * The three families never collide: the resend and cool-down prefixes differ at
   * position 12 ('e' against 'a'), and the denylist prefix differs from both at position 0.
   */
  lemma FamiliesDisjoint(x: string, y: string)
    ensures AuthEmailResends(x) != AuthEmailRateLimit(y)
    ensures AuthEmailResends(x) != BlacklistJti(y)
    ensures AuthEmailRateLimit(x) != BlacklistJti(y)
  {
    assert AuthEmailResends(x)[12] == 'e' && AuthEmailRateLimit(y)[12] == 'a';
    assert AuthEmailResends(x)[0] == 'a' && AuthEmailRateLimit(x)[0] == 'a' && BlacklistJti(y)[0] == 'b';
  }
}
