/**
 * `SQLAccountManager`: account rows of the SQL store, their passwords
 * encrypted under the key derived from the owner's master password. Fernet
 * encryption and decryption are parameters; `decrypt` answers None where
 * Fernet raises.
 */
module SqlAccounts {
  import opened Common
  import opened PasswordAnalysis
  import opened SqlStore
  import DictStore

  /** `last_changed < utcnow() - timedelta(days=90)` */
  predicate OlderThanCutoff(lastChanged: int, now: int)
  {
    lastChanged < now - DictStore.MaxPasswordAgeDays * SecondsPerDay
  }

  /**
   * An account past the cutoff is at least 90 whole days old; one exactly 90
   * days old is not past it, although the in-memory store's `days_old >= 90`
   * test reports it.
   */
  lemma CutoffMeansNinetyDays(lastChanged: int, now: int)
    ensures OlderThanCutoff(lastChanged, now) ==> DictStore.DaysOld(now, lastChanged) >= DictStore.MaxPasswordAgeDays
    ensures (now - lastChanged == DictStore.MaxPasswordAgeDays * SecondsPerDay)
              ==> !OlderThanCutoff(lastChanged, now) && DictStore.DaysOld(now, lastChanged) >= DictStore.MaxPasswordAgeDays
  {
    DictStore.DaysOldThreshold(now, lastChanged);
  }

  /** The record as `get_accounts` hands it out: the password decrypted, or left as stored if that fails. */
  function Opened(a: Account, decrypt: (string, Key) -> Option<string>, key: Key): Account
  {
    match decrypt(a.password, key)
    case Some(plain) => a.(password := plain)
    case None => a
  }

  /** A password stored by `add_account` comes back in clear, for any Fernet pair that round-trips. */
  lemma OpenedRoundTrip(a: Account, encrypt: (string, Key) -> string, decrypt: (string, Key) -> Option<string>,
                        key: Key, plain: string)
    requires decrypt(encrypt(plain, key), key) == Some(plain)
    ensures Opened(a.(password := encrypt(plain, key)), decrypt, key) == a.(password := plain)
  {
  }

  /** `SQLAccountManager` */
  class SqlAccountManager {
    const userManager: SqlUserManager
    const analyzer: PasswordAnalyzer
    const encrypt: (string, Key) -> string
    const decrypt: (string, Key) -> Option<string>

    constructor (userManager: SqlUserManager, analyzer: PasswordAnalyzer,
                 encrypt: (string, Key) -> string, decrypt: (string, Key) -> Option<string>)
      ensures this.userManager == userManager && this.analyzer == analyzer
      ensures this.encrypt == encrypt && this.decrypt == decrypt
    {
      this.userManager, this.analyzer, this.encrypt, this.decrypt := userManager, analyzer, encrypt, decrypt;
    }

    /**
     * `get_accounts`: nothing for an unknown user or one without accounts;
     * otherwise every account with its password decrypted under the key of the
     * logged-in master password (key derivation raises without one).
     */
    method GetAccounts(username: string) returns (r: Call<map<string, Account>>)
      ensures (username !in userManager.db.users || ServicesOf(userManager.db.accounts, username) == {})
                ==> r == Return(map[])
      ensures (username in userManager.db.users && ServicesOf(userManager.db.accounts, username) != {}
               && userManager.currentPassword.None?) ==> r == Raise
      ensures (username in userManager.db.users && ServicesOf(userManager.db.accounts, username) != {}
               && userManager.currentPassword.Some?) ==>
                r.Return? && r.value.Keys == ServicesOf(userManager.db.accounts, username)
                && forall s :: s in r.value ==>
                     r.value[s] == Opened(userManager.db.accounts[(username, s)], decrypt,
                                          userManager.KeyFor(userManager.db.users[username], userManager.currentPassword.value))
    {
      var db := userManager.db;
      if username !in db.users || ServicesOf(db.accounts, username) == {} {
        return Return(map[]);
      }
      var services := ServicesOf(db.accounts, username);
      var key := userManager.GetEncryptionKey(username, userManager.currentPassword);
      match key {
        case Raise => r := Raise;
        case Return(k) =>
          if k.None? {
            r := Return(map[]);
          } else {
            var todo, decrypted := services, map[];
            while todo != {}
              invariant todo <= services
              invariant decrypted.Keys == services - todo
              invariant forall s :: s in decrypted ==>
                          (username, s) in db.accounts && decrypted[s] == Opened(db.accounts[(username, s)], decrypt, k.value)
              decreases |todo|
            {
              var s :| s in todo;
              ServiceIsStored(db.accounts, username, s);
              decrypted := decrypted[s := Opened(db.accounts[(username, s)], decrypt, k.value)];
              todo := todo - {s};
            }
            r := Return(decrypted);
          }
      }
    }

    /**
     * `check_password_age` at time `now`: (service, days old) for each of the
     * user's accounts past the 90-day cutoff, each service once, in the
     * order the query yields them (unspecified here).
     */
    method CheckPasswordAge(username: string, now: int) returns (aging: seq<(string, int)>)
      ensures username !in userManager.db.users ==> aging == []
      ensures forall e :: e in aging <==>
                username in userManager.db.users && (username, e.0) in userManager.db.accounts
                && OlderThanCutoff(userManager.db.accounts[(username, e.0)].lastChanged, now)
                && e.1 == DictStore.DaysOld(now, userManager.db.accounts[(username, e.0)].lastChanged)
      ensures forall i, j :: 0 <= i < j < |aging| ==> aging[i].0 != aging[j].0
    {
      var db := userManager.db;
      if username !in db.users {
        return [];
      }
      var services := ServicesOf(db.accounts, username);
      var todo := services;
      aging := [];
      while todo != {}
        invariant todo <= services
        invariant forall e :: e in aging <==>
                    e.0 in services - todo && (username, e.0) in db.accounts
                    && OlderThanCutoff(db.accounts[(username, e.0)].lastChanged, now)
                    && e.1 == DictStore.DaysOld(now, db.accounts[(username, e.0)].lastChanged)
        invariant forall i, j :: 0 <= i < j < |aging| ==> aging[i].0 != aging[j].0
        decreases |todo|
      {
        var s :| s in todo;
        ServiceIsStored(db.accounts, username, s);
        var account := db.accounts[(username, s)];
        if OlderThanCutoff(account.lastChanged, now) {
          aging := aging + [(s, DictStore.DaysOld(now, account.lastChanged))];
        }
        todo := todo - {s};
      }
      forall s ensures s in services <==> (username, s) in db.accounts {
        ServiceIsStored(db.accounts, username, s);
      }
    }

    /**
     * `add_account` at time `now`, the breach lookup answered by `fetch`:
     * refused for an unknown user or a service already present, refused when
     * the key cannot be derived or the breach check raises; otherwise the
     * row holds the encrypted password, its score and breach flag, and `now`.
     */
    method AddAccount(username: string, service: string, accountUsername: string, password: string,
                      has2fa: bool, now: int, fetch: string -> HttpReply) returns (ok: bool)
      requires userManager.db.Valid()
      modifies userManager.db
      ensures userManager.db.Valid()
      ensures ok <==> username in old(userManager.db.users) && (username, service) !in old(userManager.db.accounts)
                      && userManager.currentPassword.Some?
                      && !BreachCheck(analyzer.sha1, analyzer.apiUrl, password, fetch).ValueErrorRaised?
      ensures !ok ==> unchanged(userManager.db)
      ensures ok ==> userManager.db.users == old(userManager.db.users) && userManager.db.nextId == old(userManager.db.nextId)
                     && userManager.db.accounts == old(userManager.db.accounts)[(username, service) := Account(
                          accountUsername,
                          encrypt(password, userManager.KeyFor(old(userManager.db.users)[username], userManager.currentPassword.value)),
                          has2fa, now, Score(analyzer.minLength, password),
                          BreachCheck(analyzer.sha1, analyzer.apiUrl, password, fetch).breached)]
    {
      var db := userManager.db;
      if username !in db.users || (username, service) in db.accounts {
        return false;
      }
      var key := userManager.GetEncryptionKey(username, userManager.currentPassword);
      if key.Raise? || key.value.None? {
        return false;
      }
      var encrypted := encrypt(password, key.value.value);
      var score, _ := analyzer.CheckStrength(password);
      var breach := analyzer.CheckBreach(password, fetch);
      if breach.ValueErrorRaised? {
        return false;
      }
      db.accounts := db.accounts[(username, service) := Account(accountUsername, encrypted, has2fa, now, score, breach.breached)];
      ok := true;
    }

    /**
     * `update_account`: only the fields given change; a new password also
     * renews the timestamp, score and breach flag. Nothing is committed when
     * the call fails, not even a new username set before the failure.
     */
    method UpdateAccount(username: string, service: string, newUsername: Option<string>, newPassword: Option<string>,
                         newHas2fa: Option<bool>, now: int, fetch: string -> HttpReply) returns (ok: bool)
      requires userManager.db.Valid()
      modifies userManager.db
      ensures userManager.db.Valid()
      ensures ok <==> username in old(userManager.db.users) && (username, service) in old(userManager.db.accounts)
                      && (newPassword.Some? ==>
                            userManager.currentPassword.Some?
                            && !BreachCheck(analyzer.sha1, analyzer.apiUrl, newPassword.value, fetch).ValueErrorRaised?)
      ensures !ok ==> unchanged(userManager.db)
      ensures ok ==> userManager.db.users == old(userManager.db.users) && userManager.db.nextId == old(userManager.db.nextId)
                     && (username, service) in userManager.db.accounts
                     && userManager.db.accounts
                        == old(userManager.db.accounts)[(username, service) := userManager.db.accounts[(username, service)]]
      ensures ok ==> userManager.db.accounts[(username, service)].username
                     == if newUsername.Some? then newUsername.value else old(userManager.db.accounts)[(username, service)].username
      ensures ok ==> userManager.db.accounts[(username, service)].has2fa
                     == if newHas2fa.Some? then newHas2fa.value else old(userManager.db.accounts)[(username, service)].has2fa
      ensures ok && newPassword.None? ==>
                var before, after := old(userManager.db.accounts)[(username, service)], userManager.db.accounts[(username, service)];
                after.password == before.password && after.lastChanged == before.lastChanged
                && after.passwordStrength == before.passwordStrength && after.passwordBreach == before.passwordBreach
      ensures ok && newPassword.Some? ==>
                var after := userManager.db.accounts[(username, service)];
                after.password == encrypt(newPassword.value, userManager.KeyFor(old(userManager.db.users)[username], userManager.currentPassword.value))
                && after.lastChanged == now
                && after.passwordStrength == Score(analyzer.minLength, newPassword.value)
                && after.passwordBreach == BreachCheck(analyzer.sha1, analyzer.apiUrl, newPassword.value, fetch).breached
    {
      var db := userManager.db;
      if username !in db.users || (username, service) !in db.accounts {
        return false;
      }
      var account := db.accounts[(username, service)];
      if newUsername.Some? {
        account := account.(username := newUsername.value);
      }
      if newPassword.Some? {
        var key := userManager.GetEncryptionKey(username, userManager.currentPassword);
        if key.Raise? || key.value.None? {
          return false;
        }
        account := account.(password := encrypt(newPassword.value, key.value.value), lastChanged := now);
        var score, _ := analyzer.CheckStrength(newPassword.value);
        var breach := analyzer.CheckBreach(newPassword.value, fetch);
        if breach.ValueErrorRaised? {
          return false;
        }
        account := account.(passwordStrength := score, passwordBreach := breach.breached);
      }
      if newHas2fa.Some? {
        account := account.(has2fa := newHas2fa.value);
      }
      db.accounts := db.accounts[(username, service) := account];
      ok := true;
    }

    /** `delete_account`: removes exactly that row; False when there is none. */
    method DeleteAccount(username: string, service: string) returns (ok: bool)
      requires userManager.db.Valid()
      modifies userManager.db
      ensures userManager.db.Valid()
      ensures ok <==> username in old(userManager.db.users) && (username, service) in old(userManager.db.accounts)
      ensures userManager.db.accounts == old(userManager.db.accounts) - {(username, service)}
      ensures userManager.db.users == old(userManager.db.users) && userManager.db.nextId == old(userManager.db.nextId)
    {
      var db := userManager.db;
      if username !in db.users || (username, service) !in db.accounts {
        return false;
      }
      db.accounts := db.accounts - {(username, service)};
      ok := true;
    }
  }
}
