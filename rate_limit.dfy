/**
 * The resend rate limit shared by the login flow (on an unverified email) and the signup flow
 * (on an existing unverified email): a cool-down flag and a per-email counter in the key-value store.
 */
module RateLimit {
  import opened Common
  import opened AppErrors
  import opened Stores

  /** The counter's window: the expiry attached by the increment that yields 1. */
  const ResendWindowSeconds: int := 24 * 60 * 60
  /** The cool-down flag's lifetime, set after a token was issued. */
  const CooldownSeconds: int := 60
  /** An increment yielding this or more is refused. */
  const DailyResendLimit: int := 5

  /** Whether the increment that yielded `count` lets a token be issued. */
  predicate ResendAllowed(count: int)
  {
    count == 1 || count < DailyResendLimit
  }

  /**
   * How many of `attempts` consecutive requests, none stopped by the cool-down, issue a token
   * when the counter starts at `start` and does not expire in between.
   */
  function IssuedCount(start: nat, attempts: nat): nat
    decreases attempts
  {
    if attempts == 0 then 0
    else (if ResendAllowed(start + 1) then 1 else 0) + IssuedCount(start + 1, attempts - 1)
  }

  function Min(a: int, b: int): int { if a <= b then a else b }

  lemma {:induction false} IssuedCountExact(start: nat, attempts: nat)
    ensures IssuedCount(start, attempts) == if start >= 4 then 0 else Min(attempts, 4 - start)
    decreases attempts
  {
    if attempts > 0 {
      IssuedCountExact(start + 1, attempts - 1);
    }
  }

  /**
   * Within one counter window at most four tokens are issued, and four requests spaced past the
   * cool-down do issue four: the fifth increment is the first one refused.
   */
  lemma AtMostFourPerWindow(attempts: nat)
    ensures IssuedCount(0, attempts) <= 4
    ensures attempts >= 4 ==> IssuedCount(0, attempts) == 4
    ensures ResendAllowed(4) && !ResendAllowed(5)
  {
    IssuedCountExact(0, attempts);
  }

  /** The count INCR yields on a counter that is absent or holds a number. */
  function NextCount(values: map<string, KvValue>, counterKey: string): int
    requires counterKey in values ==> values[counterKey].Num?
  {
    if counterKey in values then values[counterKey].n + 1 else 1
  }

  /** The counter after the increment. */
  function BumpValues(values: map<string, KvValue>, counterKey: string): (r: map<string, KvValue>)
    requires counterKey in values ==> values[counterKey].Num?
    ensures r.Keys == values.Keys + {counterKey}
    ensures forall k :: k in values && k != counterKey ==> r[k] == values[k]
  {
    values[counterKey := Num(NextCount(values, counterKey))]
  }

  /** The expiries after the increment: the window is attached when the count becomes 1. */
  function BumpTtls(values: map<string, KvValue>, ttls: map<string, int>, counterKey: string): (r: map<string, int>)
    requires counterKey in values ==> values[counterKey].Num?
    ensures NextCount(values, counterKey) == 1 ==> counterKey in r && r[counterKey] == ResendWindowSeconds
    ensures forall k :: k in ttls && k != counterKey ==> k in r && r[k] == ttls[k]
  {
    if NextCount(values, counterKey) == 1 then ttls[counterKey := ResendWindowSeconds]
    else if counterKey in values then ttls
    else ttls - {counterKey}
  }

  /**
   * The guard sequence: a set cool-down flag refuses before the counter is touched; otherwise the
   * counter is incremented, the increment that yields 1 attaches the window expiry, and an
   * increment yielding 5 or more refuses, leaving the counter incremented. On `Ok` the caller may
   * issue a token; `r.value` is the new count.
   */
  method CheckResendLimit(kv: KeyValueStore, cooldownKey: string, counterKey: string,
                          cooldownError: AppError, limitError: AppError)
    returns (r: Outcome<int>)
    modifies kv
    ensures cooldownKey in old(kv.values) ==> r == Thrown(cooldownError) && unchanged(kv)
    ensures cooldownKey !in old(kv.values) && counterKey in old(kv.values) && old(kv.values)[counterKey].Text? ==>
      r == Crashed(NotAnInteger) && kv.values == old(kv.values) && kv.ttls == old(kv.ttls)
    ensures cooldownKey !in old(kv.values) && (counterKey in old(kv.values) ==> old(kv.values)[counterKey].Num?) ==>
      var n := NextCount(old(kv.values), counterKey);
      && kv.values == BumpValues(old(kv.values), counterKey)
      && kv.ttls == BumpTtls(old(kv.values), old(kv.ttls), counterKey)
      && r == (if ResendAllowed(n) then Ok(n) else Thrown(limitError))
  {
    var isRateLimited := kv.Exists(cooldownKey);
    if isRateLimited {
      return Thrown(cooldownError);
    }
    var incremented := kv.Incr(counterKey);
    if !incremented.Ok? {
      return incremented;
    }
    var verificationResends := incremented.value;
    if verificationResends == 1 {
      kv.Expire(counterKey, ResendWindowSeconds);
    } else if verificationResends >= DailyResendLimit {
      return Thrown(limitError);
    }
    r := Ok(verificationResends);
  }
}
