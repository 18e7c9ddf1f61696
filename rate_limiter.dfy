/**
 * The part of Redis the rate limiters use: string keys holding integer
 * counters, each with an optional expiry instant. Expiry is lazy and the
 * clock is explicit: a key exists at `now` iff it is stored and its expiry,
 * if any, is still in the future.
 */
module Redis {
  import opened Common

  datatype Entry = Entry(value: int, expiresAt: Option<int>)
  type Store = map<string, Entry>

  /** `EXISTS key` at time `now`. */
  predicate Live(s: Store, key: string, now: int)
  {
    key in s && (s[key].expiresAt.None? || now < s[key].expiresAt.value)
  }

  /** `GET key`: the counter, or nothing for a missing or expired key. */
  function ValueOf(s: Store, key: string, now: int): Option<int>
  {
    if Live(s, key, now) then Some(s[key].value) else None
  }

  /** `TTL key`: -2 for a missing key, -1 for one without expiry, else the seconds left. */
  function TtlOf(s: Store, key: string, now: int): int
  {
    if !Live(s, key, now) then -2
    else if s[key].expiresAt.None? then -1
    else s[key].expiresAt.value - now
  }

  /** `SETEX key seconds value` (also `SET key value EX seconds`). */
  function SetExStore(s: Store, key: string, seconds: nat, value: int, now: int): Store
  {
    s[key := Entry(value, Some(now + seconds))]
  }

  /** `INCR key`: a missing or expired key starts again at 1 without expiry; a live one keeps its expiry. */
  function IncrStore(s: Store, key: string, now: int): Store
  {
    if Live(s, key, now) then s[key := s[key].(value := s[key].value + 1)]
    else s[key := Entry(1, None)]
  }

  /** `EXPIRE key seconds`: only a live key gets the new expiry. */
  function ExpireStore(s: Store, key: string, seconds: nat, now: int): Store
  {
    if Live(s, key, now) then s[key := s[key].(expiresAt := Some(now + seconds))] else s
  }

  /**
   * After `SETEX key seconds value` (seconds at least one), `GET` answers the
   * value, `TTL` the seconds, and every other key reads as before.
   */
  lemma SetExThenRead(s: Store, key: string, seconds: nat, value: int, now: int, other: string)
    requires seconds >= 1
    ensures ValueOf(SetExStore(s, key, seconds, value, now), key, now) == Some(value)
    ensures TtlOf(SetExStore(s, key, seconds, value, now), key, now) == seconds
    ensures other != key ==>
              ValueOf(SetExStore(s, key, seconds, value, now), other, now) == ValueOf(s, other, now)
              && TtlOf(SetExStore(s, key, seconds, value, now), other, now) == TtlOf(s, other, now)
  {
  }

  /** A Redis server seen through the commands the limiters issue. */
  class Server {
    var entries: Store

    constructor (entries: Store)
      ensures this.entries == entries
    {
      this.entries := entries;
    }

    /** `EXISTS key`: a live key is one `GET` finds and `TTL` does not call missing. */
    method Exists(key: string, now: int) returns (b: bool)
      ensures b == Live(entries, key, now)
      ensures b <==> ValueOf(entries, key, now).Some?
      ensures b <==> TtlOf(entries, key, now) != -2
    {
      b := Live(entries, key, now);
    }

    /** `TTL key`: -2 exactly for a missing key, -1 exactly for a live key without expiry, else at least one second. */
    method Ttl(key: string, now: int) returns (t: int)
      ensures t == TtlOf(entries, key, now)
      ensures t == -2 <==> !Live(entries, key, now)
      ensures t == -1 <==> Live(entries, key, now) && entries[key].expiresAt.None?
      ensures (Live(entries, key, now) && entries[key].expiresAt.Some?)
                ==> t >= 1 && now + t == entries[key].expiresAt.value
    {
      t := TtlOf(entries, key, now);
    }

    /** `GET key`: nothing exactly for a key that is not live, else the stored counter. */
    method Get(key: string, now: int) returns (v: Option<int>)
      ensures v == ValueOf(entries, key, now)
      ensures v.None? <==> !Live(entries, key, now)
      ensures v.Some? ==> key in entries && v.value == entries[key].value
    {
      v := ValueOf(entries, key, now);
    }

    method SetEx(key: string, seconds: nat, value: int, now: int)
      modifies this
      ensures entries == SetExStore(old(entries), key, seconds, value, now)
    {
      entries := SetExStore(entries, key, seconds, value, now);
    }

    /** `INCR key`, answering the new value. */
    method Incr(key: string, now: int) returns (v: int)
      modifies this
      ensures entries == IncrStore(old(entries), key, now)
      ensures v == entries[key].value
      ensures v == match ValueOf(old(entries), key, now) case None => 1 case Some(a) => a + 1
    {
      entries := IncrStore(entries, key, now);
      v := entries[key].value;
    }

    method Expire(key: string, seconds: nat, now: int)
      modifies this
      ensures entries == ExpireStore(old(entries), key, seconds, now)
    {
      entries := ExpireStore(entries, key, seconds, now);
    }

    /** `DEL key ...` */
    method Delete(keys: set<string>)
      modifies this
      ensures entries == old(entries) - keys
    {
      entries := entries - keys;
    }
  }
}

/**
 * The login rate limiters: per-IP attempt counters and lockout keys kept in
 * Redis. `LoginRateLimiter` is the same in both limiter files apart from
 * its attempt limit (5 in one, 15 in the other); the two
 * `FailsafeRateLimiter`s differ and are modelled separately. A check either
 * returns a boolean or raises HTTP 429 with the seconds to wait.
 */
module RateLimiter {
  import opened Common
  import opened Redis

  datatype Verdict = Returned(value: bool) | TooManyRequests(retryAfter: int)

  const WindowSeconds: nat := 300
  const LockoutSeconds: nat := 900
  /** `LOGIN_MAX_ATTEMPTS` of the limiter beside the application package. */
  const LoginMaxAttempts: nat := 5
  /** `LOGIN_MAX_ATTEMPTS` of the limiter inside the application package. */
  const AppLoginMaxAttempts: nat := 15
  const FailsafeMaxAttempts: nat := 5

  function LoginAttemptsKey(ip: string): string { "login:" + ip + ":attempts" }
  function LoginLockoutKey(ip: string): string { "login:" + ip + ":lockout" }
  function FailsafeCounterKey(ip: string): string { "rate:limit:" + ip }
  function FailsafeLockoutKey(ip: string): string { "rate:lockout:" + ip }
  function AppFailsafeKey(ip: string): string { "rate:" + ip }

  /** The attempt count as `int(attempts) if attempts else 0` reads it. */
  function AttemptCount(s: Store, key: string, now: int): int
  {
    match ValueOf(s, key, now) case None => 0 case Some(a) => a
  }

  /** `LoginRateLimiter.check_rate_limit` for `ip` at `now`: the verdict and the store afterwards. */
  function LoginCheck(s: Store, ip: string, now: int, maxAttempts: nat): (r: (Verdict, Store))
    ensures r.0.Returned? ==> r.0.value
    ensures r.0.Returned? ==>
              AttemptCount(r.1, LoginAttemptsKey(ip), now) == AttemptCount(s, LoginAttemptsKey(ip), now) + 1 <= maxAttempts
    ensures r.0.TooManyRequests? <==>
              Live(s, LoginLockoutKey(ip), now) || AttemptCount(s, LoginAttemptsKey(ip), now) >= maxAttempts
    ensures r.0.TooManyRequests? ==> Live(r.1, LoginLockoutKey(ip), now)
  {
    if Live(s, LoginLockoutKey(ip), now) then (TooManyRequests(TtlOf(s, LoginLockoutKey(ip), now)), s)
    else
      var attempts := AttemptCount(s, LoginAttemptsKey(ip), now);
      if attempts >= maxAttempts then
        (TooManyRequests(LockoutSeconds), SetExStore(s, LoginLockoutKey(ip), LockoutSeconds, 1, now))
      else
        (Returned(true), SetExStore(s, LoginAttemptsKey(ip), WindowSeconds, attempts + 1, now))
  }

  /**
   * `FailsafeRateLimiter.check_rate_limit` (beside the application package)
   * with a store: increment first, give a fresh counter its window, lock out
   * once the count passes the limit. `Returned(false)` means "not limited".
   */
  function FailsafeCheck(s: Store, ip: string, now: int): (r: (Verdict, Store))
    ensures r.0.Returned? ==> !r.0.value
    ensures r.0.TooManyRequests? ==> Live(r.1, FailsafeLockoutKey(ip), now)
    ensures !Live(s, FailsafeLockoutKey(ip), now) ==>
              ValueOf(r.1, FailsafeCounterKey(ip), now) == Some(AttemptCount(s, FailsafeCounterKey(ip), now) + 1)
  {
    if Live(s, FailsafeLockoutKey(ip), now) then (TooManyRequests(TtlOf(s, FailsafeLockoutKey(ip), now)), s)
    else
      var counted := IncrStore(s, FailsafeCounterKey(ip), now);
      var attempts := counted[FailsafeCounterKey(ip)].value;
      var windowed := if attempts == 1 then ExpireStore(counted, FailsafeCounterKey(ip), WindowSeconds, now) else counted;
      if attempts > FailsafeMaxAttempts then
        (TooManyRequests(LockoutSeconds), SetExStore(windowed, FailsafeLockoutKey(ip), LockoutSeconds, 1, now))
      else
        (Returned(false), windowed)
  }

  /**
   * `FailsafeRateLimiter.check_rate_limit` (inside the application package)
   * with a working store: a missing counter starts at 1 with its window; at
   * the limit the check is refused without any write; otherwise the counter
   * is incremented.
   */
  function AppFailsafeCheck(s: Store, ip: string, now: int): (r: (Verdict, Store))
    ensures r.0.Returned? ==> r.0.value
    ensures r.0.TooManyRequests? <==> AttemptCount(s, AppFailsafeKey(ip), now) >= FailsafeMaxAttempts
    ensures r.0.TooManyRequests? ==> r.1 == s
    ensures r.0.Returned? ==>
              AttemptCount(r.1, AppFailsafeKey(ip), now) == AttemptCount(s, AppFailsafeKey(ip), now) + 1
  {
    match ValueOf(s, AppFailsafeKey(ip), now)
    case None => (Returned(true), SetExStore(s, AppFailsafeKey(ip), WindowSeconds, 1, now))
    case Some(attempts) =>
      if attempts >= FailsafeMaxAttempts then (TooManyRequests(LockoutSeconds), s)
      else (Returned(true), IncrStore(s, AppFailsafeKey(ip), now))
  }

  datatype Limiter = Login(maxAttempts: nat) | Failsafe | AppFailsafe

  function Check(l: Limiter, s: Store, ip: string, now: int): (Verdict, Store)
  {
    match l
    case Login(maxAttempts) => LoginCheck(s, ip, now, maxAttempts)
    case Failsafe => FailsafeCheck(s, ip, now)
    case AppFailsafe => AppFailsafeCheck(s, ip, now)
  }

  /** Successive checks from `ip` at the instants `times`: their verdicts and the final store. */
  function Run(l: Limiter, s: Store, ip: string, times: seq<int>): (r: (seq<Verdict>, Store))
    ensures |r.0| == |times|
  {
    if times == [] then ([], s)
    else
      var prefix := Run(l, s, ip, times[..|times| - 1]);
      var step := Check(l, prefix.1, ip, times[|times| - 1]);
      (prefix.0 + [step.0], step.1)
  }

  /** Instants in order, all within one window of the first. */
  predicate Burst(times: seq<int>)
  {
    |times| > 0
    && (forall i, j :: 0 <= i <= j < |times| ==> times[i] <= times[j])
    && times[|times| - 1] < times[0] + WindowSeconds
  }

  lemma BurstPrefix(times: seq<int>, n: nat)
    requires Burst(times) && 0 < n <= |times|
    ensures Burst(times[..n])
  {
  }

  /** The two keys of one IP never coincide: they end in different letters. */
  lemma LoginKeysDiffer(ip: string, ip': string)
    ensures LoginAttemptsKey(ip) != LoginLockoutKey(ip')
  {
    var a, b := LoginAttemptsKey(ip), LoginLockoutKey(ip');
    assert a[|a| - 1] == 's' && b[|b| - 1] == 't';
  }

  lemma FailsafeKeysDiffer(ip: string, ip': string)
    ensures FailsafeCounterKey(ip) != FailsafeLockoutKey(ip')
  {
    assert FailsafeCounterKey(ip)[6] == 'i' && FailsafeLockoutKey(ip')[6] == 'o';
  }

  /** During a lockout every login check is refused with the time left and writes nothing. */
  lemma LoginLockoutRefuses(s: Store, ip: string, now: int, maxAttempts: nat)
    requires Live(s, LoginLockoutKey(ip), now)
    ensures LoginCheck(s, ip, now, maxAttempts) == (TooManyRequests(TtlOf(s, LoginLockoutKey(ip), now)), s)
    ensures TtlOf(s, LoginLockoutKey(ip), now) != -2
  {
  }

  /**
   * From a clean state, a burst of at most `maxAttempts` login checks all
   * pass, leaving the counter at the number of checks with a window from the
   * last one.
   */
  lemma {:induction false} LoginBurstPasses(s: Store, ip: string, times: seq<int>, maxAttempts: nat)
    requires LoginAttemptsKey(ip) !in s && LoginLockoutKey(ip) !in s
    requires Burst(times) && |times| <= maxAttempts
    ensures forall i :: 0 <= i < |times| ==> Run(Login(maxAttempts), s, ip, times).0[i] == Returned(true)
    ensures Run(Login(maxAttempts), s, ip, times).1
            == s[LoginAttemptsKey(ip) := Entry(|times|, Some(times[|times| - 1] + WindowSeconds))]
  {
    LoginKeysDiffer(ip, ip);
    var n := |times|;
    var prefix := times[..n - 1];
    if n > 1 {
      BurstPrefix(times, n - 1);
      LoginBurstPasses(s, ip, prefix, maxAttempts);
      var before := Run(Login(maxAttempts), s, ip, prefix).1;
      assert AttemptCount(before, LoginAttemptsKey(ip), times[n - 1]) == n - 1;
    } else {
      assert prefix == [];
    }
  }

  /**
   * From a clean state, the login check refuses the first attempt past the
   * limit and locks the IP out for 900 seconds; every earlier one passes.
   */
  lemma LoginLimitThenLockout(s: Store, ip: string, times: seq<int>, maxAttempts: nat)
    requires LoginAttemptsKey(ip) !in s && LoginLockoutKey(ip) !in s
    requires Burst(times) && |times| == maxAttempts + 1
    ensures forall i :: 0 <= i < maxAttempts ==> Run(Login(maxAttempts), s, ip, times).0[i] == Returned(true)
    ensures Run(Login(maxAttempts), s, ip, times).0[maxAttempts] == TooManyRequests(LockoutSeconds)
    ensures forall t :: times[maxAttempts] <= t < times[maxAttempts] + LockoutSeconds
              ==> Live(Run(Login(maxAttempts), s, ip, times).1, LoginLockoutKey(ip), t)
  {
    LoginKeysDiffer(ip, ip);
    var prefix := times[..maxAttempts];
    assert times[..|times| - 1] == prefix;
    if maxAttempts > 0 {
      BurstPrefix(times, maxAttempts);
      LoginBurstPasses(s, ip, prefix, maxAttempts);
    }
  }

  /** The limit of 5 in the limiter beside the application package: five pass, the sixth is refused. */
  lemma LoginSixthAttemptRefused(s: Store, ip: string, times: seq<int>)
    requires LoginAttemptsKey(ip) !in s && LoginLockoutKey(ip) !in s
    requires Burst(times) && |times| == 6
    ensures forall i :: 0 <= i < 5 ==> Run(Login(LoginMaxAttempts), s, ip, times).0[i] == Returned(true)
    ensures Run(Login(LoginMaxAttempts), s, ip, times).0[5] == TooManyRequests(900)
  {
    LoginLimitThenLockout(s, ip, times, LoginMaxAttempts);
  }

  /** The limit of 15 inside the application package: fifteen pass, the sixteenth is refused. */
  lemma AppLoginSixteenthAttemptRefused(s: Store, ip: string, times: seq<int>)
    requires LoginAttemptsKey(ip) !in s && LoginLockoutKey(ip) !in s
    requires Burst(times) && |times| == 16
    ensures forall i :: 0 <= i < 15 ==> Run(Login(AppLoginMaxAttempts), s, ip, times).0[i] == Returned(true)
    ensures Run(Login(AppLoginMaxAttempts), s, ip, times).0[15] == TooManyRequests(900)
  {
    LoginLimitThenLockout(s, ip, times, AppLoginMaxAttempts);
  }

  /** Resetting the login attempts leaves a lockout in force. */
  lemma LoginResetKeepsLockout(s: Store, ip: string, now: int)
    ensures Live(s - {LoginAttemptsKey(ip)}, LoginLockoutKey(ip), now) == Live(s, LoginLockoutKey(ip), now)
  {
    LoginKeysDiffer(ip, ip);
  }

  /**
   * From a clean state, a burst of at most five failsafe checks all pass and
   * the counter keeps the window opened by the first.
   */
  lemma {:induction false} FailsafeBurstPasses(s: Store, ip: string, times: seq<int>)
    requires FailsafeCounterKey(ip) !in s && FailsafeLockoutKey(ip) !in s
    requires Burst(times) && |times| <= FailsafeMaxAttempts
    ensures forall i :: 0 <= i < |times| ==> Run(Failsafe, s, ip, times).0[i] == Returned(false)
    ensures Run(Failsafe, s, ip, times).1
            == s[FailsafeCounterKey(ip) := Entry(|times|, Some(times[0] + WindowSeconds))]
  {
    FailsafeKeysDiffer(ip, ip);
    var n := |times|;
    var prefix := times[..n - 1];
    if n > 1 {
      BurstPrefix(times, n - 1);
      FailsafeBurstPasses(s, ip, prefix);
      var before := Run(Failsafe, s, ip, prefix).1;
      assert Live(before, FailsafeCounterKey(ip), times[n - 1]);
    } else {
      assert prefix == [];
    }
  }

  /**
   * From a clean state, five failsafe checks pass; the sixth is refused with
   * `retry_after` 900 and locks the IP out for 900 seconds.
   */
  lemma FailsafeSixthAttemptLocks(s: Store, ip: string, times: seq<int>)
    requires FailsafeCounterKey(ip) !in s && FailsafeLockoutKey(ip) !in s
    requires Burst(times) && |times| == 6
    ensures forall i :: 0 <= i < 5 ==> Run(Failsafe, s, ip, times).0[i] == Returned(false)
    ensures Run(Failsafe, s, ip, times).0[5] == TooManyRequests(900)
    ensures forall t :: times[5] <= t < times[5] + LockoutSeconds ==> Live(Run(Failsafe, s, ip, times).1, FailsafeLockoutKey(ip), t)
  {
    FailsafeKeysDiffer(ip, ip);
    var prefix := times[..5];
    assert times[..|times| - 1] == prefix;
    BurstPrefix(times, 5);
    FailsafeBurstPasses(s, ip, prefix);
  }

  /** From a clean state, a burst of at most five checks all pass and only the counter is written. */
  lemma {:induction false} AppFailsafeBurstPasses(s: Store, ip: string, times: seq<int>)
    requires AppFailsafeKey(ip) !in s
    requires Burst(times) && |times| <= FailsafeMaxAttempts
    ensures forall i :: 0 <= i < |times| ==> Run(AppFailsafe, s, ip, times).0[i] == Returned(true)
    ensures Run(AppFailsafe, s, ip, times).1 == s[AppFailsafeKey(ip) := Entry(|times|, Some(times[0] + WindowSeconds))]
  {
    var n := |times|;
    var prefix := times[..n - 1];
    if n > 1 {
      BurstPrefix(times, n - 1);
      AppFailsafeBurstPasses(s, ip, prefix);
      var before := Run(AppFailsafe, s, ip, prefix).1;
      assert Live(before, AppFailsafeKey(ip), times[n - 1]);
    } else {
      assert prefix == [];
    }
  }

  /**
   * From a clean state, five checks pass and the sixth is refused; the
   * refusal writes nothing, so no lockout key ever appears and the IP is
   * free again once the counter's window has run out.
   */
  lemma AppFailsafeSixthAttemptRefused(s: Store, ip: string, times: seq<int>, later: int)
    requires AppFailsafeKey(ip) !in s
    requires Burst(times) && |times| == 6
    requires later >= times[0] + WindowSeconds
    ensures forall i :: 0 <= i < 5 ==> Run(AppFailsafe, s, ip, times).0[i] == Returned(true)
    ensures Run(AppFailsafe, s, ip, times).0[5] == TooManyRequests(LockoutSeconds)
    ensures forall k :: k != AppFailsafeKey(ip) ==> (k in Run(AppFailsafe, s, ip, times).1 <==> k in s)
    ensures AppFailsafeCheck(Run(AppFailsafe, s, ip, times).1, ip, later).0 == Returned(true)
  {
    var prefix := times[..5];
    assert times[..|times| - 1] == prefix;
    BurstPrefix(times, 5);
    AppFailsafeBurstPasses(s, ip, prefix);
  }

  /**
   * `LoginRateLimiter`, with its attempt limit as a field. The Redis
   * connection, opened lazily on first use, is the server it talks to.
   */
  class LoginRateLimiter {
    const server: Server
    const maxAttempts: nat

    constructor (server: Server, maxAttempts: nat)
      ensures this.server == server && this.maxAttempts == maxAttempts
    {
      this.server := server;
      this.maxAttempts := maxAttempts;
    }

    method CheckRateLimit(ip: string, now: int) returns (v: Verdict)
      modifies server
      ensures (v, server.entries) == LoginCheck(old(server.entries), ip, now, maxAttempts)
    {
      var attemptsKey, lockoutKey := LoginAttemptsKey(ip), LoginLockoutKey(ip);
      var locked := server.Exists(lockoutKey, now);
      if locked {
        var ttl := server.Ttl(lockoutKey, now);
        return TooManyRequests(ttl);
      }
      var stored := server.Get(attemptsKey, now);
      var attempts := match stored case None => 0 case Some(a) => a;
      if attempts >= maxAttempts {
        server.SetEx(lockoutKey, LockoutSeconds, 1, now);
        return TooManyRequests(LockoutSeconds);
      }
      server.SetEx(attemptsKey, WindowSeconds, attempts + 1, now);
      v := Returned(true);
    }

    /** `reset_attempts`: forgets the counter and leaves any lockout alone. */
    method ResetAttempts(ip: string)
      modifies server
      ensures server.entries == old(server.entries) - {LoginAttemptsKey(ip)}
    {
      server.Delete({LoginAttemptsKey(ip)});
    }
  }

  /** `FailsafeRateLimiter` beside the application package; `server` is null until `init`. */
  class FailsafeRateLimiter {
    var server: Server?

    constructor ()
      ensures server == null
    {
      server := null;
    }

    method Init(client: Server)
      modifies this
      ensures server == client
    {
      server := client;
    }

    method CheckRateLimit(ip: string, now: int) returns (v: Verdict)
      modifies server
      ensures server == null ==> v == Returned(false)
      ensures server != null ==> (v, server.entries) == FailsafeCheck(old(server.entries), ip, now)
    {
      if server == null {
        return Returned(false);
      }
      var key, lockoutKey := FailsafeCounterKey(ip), FailsafeLockoutKey(ip);
      var locked := server.Exists(lockoutKey, now);
      if locked {
        var ttl := server.Ttl(lockoutKey, now);
        return TooManyRequests(ttl);
      }
      var attempts := server.Incr(key, now);
      if attempts == 1 {
        server.Expire(key, WindowSeconds, now);
      }
      if attempts > FailsafeMaxAttempts {
        server.SetEx(lockoutKey, LockoutSeconds, 1, now);
        return TooManyRequests(LockoutSeconds);
      }
      v := Returned(false);
    }

    /** `reset_attempts`: forgets both the counter and the lockout. */
    method ResetAttempts(ip: string)
      modifies server
      ensures server != null ==> server.entries == old(server.entries) - {FailsafeCounterKey(ip), FailsafeLockoutKey(ip)}
    {
      if server != null {
        server.Delete({FailsafeCounterKey(ip), FailsafeLockoutKey(ip)});
      }
    }
  }

  /**
   * `FailsafeRateLimiter` inside the application package. A Redis error in
   * any command of a call (`storeError`) makes the call allow the request and
   * leaves the store as it was: the only command that could have run before
   * the failing one is a read.
   */
  class AppFailsafeRateLimiter {
    var server: Server?

    constructor ()
      ensures server == null
    {
      server := null;
    }

    method Init(client: Server)
      modifies this
      ensures server == client
    {
      server := client;
    }

    method CheckRateLimit(ip: string, now: int, storeError: bool) returns (v: Verdict)
      modifies server
      ensures server == null || storeError ==> v == Returned(true)
      ensures server != null && storeError ==> server.entries == old(server.entries)
      ensures server != null && !storeError ==> (v, server.entries) == AppFailsafeCheck(old(server.entries), ip, now)
    {
      if server == null || storeError {
        return Returned(true);
      }
      var key := AppFailsafeKey(ip);
      var attempts := server.Get(key, now);
      if attempts.None? {
        server.SetEx(key, WindowSeconds, 1, now);
        return Returned(true);
      }
      if attempts.value >= FailsafeMaxAttempts {
        return TooManyRequests(LockoutSeconds);
      }
      var _ := server.Incr(key, now);
      v := Returned(true);
    }

    /** `reset_attempts`: forgets the counter; a store error makes it a no-op. */
    method ResetAttempts(ip: string, storeError: bool)
      modifies server
      ensures server != null && !storeError ==> server.entries == old(server.entries) - {AppFailsafeKey(ip)}
      ensures server != null && storeError ==> server.entries == old(server.entries)
    {
      if server != null && !storeError {
        server.Delete({AppFailsafeKey(ip)});
      }
    }
  }
}
