/**
 * The in-memory rate limiter of the `Supporter` class (supporter.py:326-348): a dict from
 * bucket key to `[remaining, expires]`, checked by `ratelimited`, consumed by `ratelimit`
 * and dropped by `clear_ratelimit`. Time is an integer number of seconds passed in as `now`.
 */
module RateLimit {

  /** The `[remaining, expires]` pair stored under one key. */
  datatype Bucket = Bucket(remaining: int, expires: int)

  type Buckets = map<string, Bucket>

  /** `ratelimited(key)` at time `now`. */
  predicate Limited(b: Buckets, key: string, now: int) {
    if key !in b then false
    else !(b[key].remaining > 0 || b[key].expires < now)
  }

  /** The state after `ratelimit(key, limit, seconds)` at time `now`; a missing bucket reads as `[0, 0]`. */
  function Consumed(b: Buckets, key: string, limit: int, seconds: int, now: int): (r: Buckets)
    ensures r.Keys == b.Keys + {key}
    ensures forall k :: k in b && k != key ==> r[k] == b[k]
  {
    var cur := if key in b then b[key] else Bucket(0, 0);
    var start := if cur.expires < now then Bucket(limit, now + seconds) else cur;
    b[key := Bucket(start.remaining - 1, start.expires)]
  }

  /** The state after `clear_ratelimit(key)`. */
  function Cleared(b: Buckets, key: string): (r: Buckets)
    ensures r.Keys == b.Keys - {key}
    ensures forall k :: k in r ==> r[k] == b[k]
  {
    if key in b then b - {key} else b
  }

  /** A bucket that the next `ratelimit` call at `now` starts afresh. */
  predicate Fresh(b: Buckets, key: string, now: int) {
    (key !in b && 0 < now) || (key in b && b[key].expires < now)
  }

  /** `ratelimit(key, limit, seconds)` called once at each of the times `ts`, in order. */
  function ConsumedAt(b: Buckets, key: string, limit: int, seconds: int, ts: seq<int>): Buckets
    decreases |ts|
  {
    if ts == [] then b else ConsumedAt(Consumed(b, key, limit, seconds, ts[0]), key, limit, seconds, ts[1..])
  }

  class RateLimiter {
    var buckets: Buckets

    constructor ()
      ensures buckets == map[]
    {
      buckets := map[];
    }

    method Ratelimited(key: string, now: int) returns (limited: bool)
      ensures limited == Limited(buckets, key, now)
      ensures limited <==> key in buckets && buckets[key].remaining <= 0 && now <= buckets[key].expires
    {
      if key !in buckets {
        return false;
      }
      var bucket := buckets[key];
      if bucket.remaining > 0 || bucket.expires < now {
        limited := false;
      } else {
        limited := true;
      }
    }

    method Ratelimit(key: string, limit: int, seconds: int, now: int)
      modifies this
      ensures buckets == Consumed(old(buckets), key, limit, seconds, now)
    {
      var bucket := if key in buckets then buckets[key] else Bucket(0, 0);
      var remaining, expires := bucket.remaining, bucket.expires;
      if expires < now {
        remaining := limit;
        expires := now + seconds;
      }
      remaining := remaining - 1;
      buckets := buckets[key := Bucket(remaining, expires)];
    }

    method ClearRatelimit(key: string)
      modifies this
      ensures buckets == Cleared(old(buckets), key)
    {
      if key in buckets {
        buckets := buckets - {key};
      }
    }
  }

  /** An absent or expired bucket is never limited. */
  lemma AbsentOrExpiredNotLimited(b: Buckets, key: string, now: int)
    requires key !in b || b[key].expires < now
    ensures !Limited(b, key, now)
  {
  }

  /** On a fresh bucket, `ratelimit` stores `limit - 1` and the expiry `now + seconds`; no other key changes. */
  lemma ConsumeFresh(b: Buckets, key: string, limit: int, seconds: int, now: int)
    requires Fresh(b, key, now)
    ensures var b' := Consumed(b, key, limit, seconds, now);
      b'.Keys == b.Keys + {key} && b'[key] == Bucket(limit - 1, now + seconds)
      && forall k :: k in b && k != key ==> b'[k] == b[k]
  {
  }

  /** Calls that find the bucket unexpired only count it down; the expiry stays where it was. */
  lemma {:induction false} DrainLive(b: Buckets, key: string, limit: int, seconds: int, ts: seq<int>)
    requires key in b
    requires forall i :: 0 <= i < |ts| ==> ts[i] <= b[key].expires
    ensures var b' := ConsumedAt(b, key, limit, seconds, ts);
      b'.Keys == b.Keys && b'[key] == Bucket(b[key].remaining - |ts|, b[key].expires)
      && forall k :: k in b && k != key ==> b'[k] == b[k]
    decreases |ts|
  {
    if ts != [] {
      var b1 := Consumed(b, key, limit, seconds, ts[0]);
      assert b1[key] == Bucket(b[key].remaining - 1, b[key].expires);
      DrainLive(b1, key, limit, seconds, ts[1..]);
    }
  }

  /**
   * A burst of `n` calls that starts on a fresh bucket and stays within its window leaves
   * `remaining == limit - n` (negative once past the limit) and the expiry of the first call.
   */
  lemma Burst(b: Buckets, key: string, limit: int, seconds: int, ts: seq<int>)
    requires |ts| > 0 && Fresh(b, key, ts[0])
    requires forall i :: 0 <= i < |ts| ==> ts[i] <= ts[0] + seconds
    ensures var b' := ConsumedAt(b, key, limit, seconds, ts);
      b'.Keys == b.Keys + {key} && b'[key] == Bucket(limit - |ts|, ts[0] + seconds)
      && forall k :: k in b && k != key ==> b'[k] == b[k]
  {
    var b1 := Consumed(b, key, limit, seconds, ts[0]);
    ConsumeFresh(b, key, limit, seconds, ts[0]);
    DrainLive(b1, key, limit, seconds, ts[1..]);
  }

  /**
   * Within the window of a burst from a fresh bucket, the key is limited exactly when at
   * least `limit` calls were made: `limit` calls limit it, `limit - 1` calls do not.
   */
  lemma LimitedAfterBurst(b: Buckets, key: string, limit: int, seconds: int, ts: seq<int>, now: int)
    requires |ts| > 0 && Fresh(b, key, ts[0])
    requires forall i :: 0 <= i < |ts| ==> ts[i] <= ts[0] + seconds
    requires now <= ts[0] + seconds
    ensures Limited(ConsumedAt(b, key, limit, seconds, ts), key, now) <==> |ts| >= limit
  {
    Burst(b, key, limit, seconds, ts);
  }

  /** Once the window has passed the key is no longer limited, and the next call starts the bucket afresh. */
  lemma AfterWindow(b: Buckets, key: string, limit: int, seconds: int, now: int)
    requires key in b && b[key].expires < now
    ensures !Limited(b, key, now)
    ensures Consumed(b, key, limit, seconds, now)[key] == Bucket(limit - 1, now + seconds)
  {
  }

  /** Clearing removes only `key`, leaves it unlimited, and is a no-op on an absent key. */
  lemma ClearOnlyKey(b: Buckets, key: string, now: int)
    ensures key !in Cleared(b, key) && !Limited(Cleared(b, key), key, now)
    ensures forall k :: k != key ==> (k in Cleared(b, key) <==> k in b)
    ensures forall k :: k in b && k != key ==> Cleared(b, key)[k] == b[k]
    ensures key !in b ==> Cleared(b, key) == b
  {
  }

  /**
   * The login route checks three buckets and, on a failed password, consumes only the
   * failure bucket with 5 calls per 60 seconds (rest_api/auth.py:22-52). Five failures within
   * a minute of the first block the next login, and leave the success bucket untouched.
   */
  function LoginIpKey(ip: string): string { "login:i:" + ip }
  function LoginSuccessKey(name: string): string { "login:u:" + name + ":s" }
  function LoginFailureKey(name: string): string { "login:u:" + name + ":f" }

  predicate LoginAllowed(b: Buckets, ip: string, name: string, now: int) {
    !Limited(b, LoginIpKey(ip), now) && !Limited(b, LoginSuccessKey(name), now)
    && !Limited(b, LoginFailureKey(name), now)
  }

  lemma FiveFailedLoginsBlock(b: Buckets, ip: string, name: string, ts: seq<int>, now: int)
    requires |ts| == 5 && Fresh(b, LoginFailureKey(name), ts[0])
    requires forall i :: 0 <= i < |ts| ==> ts[i] <= ts[0] + 60
    requires now <= ts[0] + 60
    ensures !LoginAllowed(ConsumedAt(b, LoginFailureKey(name), 5, 60, ts), ip, name, now)
    ensures var b' := ConsumedAt(b, LoginFailureKey(name), 5, 60, ts);
      (LoginSuccessKey(name) in b <==> LoginSuccessKey(name) in b')
      && (LoginSuccessKey(name) in b ==> b'[LoginSuccessKey(name)] == b[LoginSuccessKey(name)])
  {
    var f, s := LoginFailureKey(name), LoginSuccessKey(name);
    assert f[|f| - 1] == 'f' && s[|s| - 1] == 's';
    assert f != s;
    LimitedAfterBurst(b, f, 5, 60, ts, now);
    Burst(b, f, 5, 60, ts);
  }
}
