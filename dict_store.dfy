/**
 * The file-backed password manager's in-memory stores: users keyed by name, each
 * with the SHA-256 hex digest of its master password and an insertion-ordered dict
 * of accounts; the logged-in user; and the account operations over them. Loading
 * and saving `users.json` are not part of this model: the constructor takes the
 * loaded users as they are.
 */
module DictStore {
  import opened Common
  import opened Text
  import opened OrderedDict
  import opened PasswordAnalysis

  /** `hashlib.sha256(password.encode()).hexdigest()` over a given SHA-256. */
  function PasswordDigest(sha256: seq<byte> -> seq<byte>, password: string): string
  {
    HexEncode(sha256(Utf8Encode(password)))
  }

  /** One stored account; `lastChanged` is the time of the last change, in seconds. */
  datatype AccountEntry = AccountEntry(
    username: string,
    passwordHash: string,
    passwordBreach: bool,
    passwordReuse: seq<string>,
    passwordStrength: nat,
    has2fa: bool,
    lastChanged: int)

  datatype StoredUser = StoredUser(passwordHash: string, accounts: Dict<AccountEntry>)

  // ------------------------------------------------------------- reuse

  /** The services whose stored digest equals `digest`, in account order. */
  function ReusedIn(accounts: Dict<AccountEntry>, digest: string): seq<string>
  {
    if accounts == [] then []
    else
      var last := accounts[|accounts| - 1];
      ReusedIn(accounts[..|accounts| - 1], digest) + (if last.1.passwordHash == digest then [last.0] else [])
  }

  /** A service is reported exactly when one of the accounts under its name stores the digest. */
  lemma {:induction false} ReusedInMembership(accounts: Dict<AccountEntry>, digest: string, s: string)
    ensures s in ReusedIn(accounts, digest) <==>
      exists i :: 0 <= i < |accounts| && accounts[i].0 == s && accounts[i].1.passwordHash == digest
  {
    if accounts != [] {
      var n := |accounts| - 1;
      var front := accounts[..n];
      ReusedInMembership(front, digest, s);
      if exists i :: 0 <= i < |front| && front[i].0 == s && front[i].1.passwordHash == digest {
        var i :| 0 <= i < |front| && front[i].0 == s && front[i].1.passwordHash == digest;
        assert accounts[i] == front[i];
      }
      if exists i :: 0 <= i < |accounts| && accounts[i].0 == s && accounts[i].1.passwordHash == digest {
        var i :| 0 <= i < |accounts| && accounts[i].0 == s && accounts[i].1.passwordHash == digest;
        if i < n {
          assert front[i] == accounts[i];
        }
      }
    }
  }

  /**
   * With distinct service names, the reuse list names `service` exactly when the
   * entry already stored under it has the same digest. `add_account` computes the
   * list before storing, so a service appears in its own list only then.
   */
  lemma ReuseNamesServiceIffSameDigest(accounts: Dict<AccountEntry>, digest: string, service: string)
    requires DistinctKeys(accounts)
    ensures service in ReusedIn(accounts, digest) <==>
      Lookup(accounts, service).Some? && Lookup(accounts, service).value.passwordHash == digest
  {
    ReusedInMembership(accounts, digest, service);
    if service in ReusedIn(accounts, digest) {
      var i :| 0 <= i < |accounts| && accounts[i].0 == service && accounts[i].1.passwordHash == digest;
      LookupOfMember(accounts, i);
    }
    if Lookup(accounts, service).Some? {
      var i :| 0 <= i < |accounts| && accounts[i] == (service, Lookup(accounts, service).value);
    }
  }

  // --------------------------------------------------------------- age

  const MaxPasswordAgeDays: int := 90

  /** `(now - last_changed).days`: whole days elapsed, rounded down as `timedelta` does. */
  function DaysOld(now: int, lastChanged: int): int
  {
    (now - lastChanged) / SecondsPerDay
  }

  /** The threshold in days is the threshold in seconds: an account exactly 90 days old is reported. */
  lemma DaysOldThreshold(now: int, lastChanged: int)
    ensures DaysOld(now, lastChanged) >= MaxPasswordAgeDays <==> now - lastChanged >= MaxPasswordAgeDays * SecondsPerDay
  {
    var e := now - lastChanged;
    var q, r := e / SecondsPerDay, e % SecondsPerDay;
    assert e == q * SecondsPerDay + r && 0 <= r < SecondsPerDay;
    if q >= MaxPasswordAgeDays {
      assert q * SecondsPerDay >= MaxPasswordAgeDays * SecondsPerDay;
    } else {
      assert q * SecondsPerDay <= (MaxPasswordAgeDays - 1) * SecondsPerDay;
    }
  }

  /** `(service, days_old)` for every account at least 90 days old, in account order. */
  function Aging(accounts: Dict<AccountEntry>, now: int): seq<(string, int)>
  {
    if accounts == [] then []
    else
      var last := accounts[|accounts| - 1];
      var days := DaysOld(now, last.1.lastChanged);
      Aging(accounts[..|accounts| - 1], now) + (if days >= MaxPasswordAgeDays then [(last.0, days)] else [])
  }

  /** A pair is reported exactly when some account under that name is that many days old and at least 90. */
  lemma {:induction false} AgingMembership(accounts: Dict<AccountEntry>, now: int, s: string, days: int)
    ensures (s, days) in Aging(accounts, now) <==>
      exists i :: 0 <= i < |accounts| && accounts[i].0 == s
        && days == DaysOld(now, accounts[i].1.lastChanged) && days >= MaxPasswordAgeDays
  {
    if accounts != [] {
      var n := |accounts| - 1;
      var front := accounts[..n];
      AgingMembership(front, now, s, days);
      if exists i :: 0 <= i < |front| && front[i].0 == s
          && days == DaysOld(now, front[i].1.lastChanged) && days >= MaxPasswordAgeDays {
        var i :| 0 <= i < |front| && front[i].0 == s
          && days == DaysOld(now, front[i].1.lastChanged) && days >= MaxPasswordAgeDays;
        assert accounts[i] == front[i];
      }
      if exists i :: 0 <= i < |accounts| && accounts[i].0 == s
          && days == DaysOld(now, accounts[i].1.lastChanged) && days >= MaxPasswordAgeDays {
        var i :| 0 <= i < |accounts| && accounts[i].0 == s
          && days == DaysOld(now, accounts[i].1.lastChanged) && days >= MaxPasswordAgeDays;
        if i < n {
          assert front[i] == accounts[i];
        }
      }
    }
  }

  // ------------------------------------------------------------- users

  /** `UserManager`: the users dict and the logged-in user (`None` until a login succeeds). */
  class UserManager {
    var users: map<string, StoredUser>
    var currentUser: Option<string>
    const sha256: seq<byte> -> seq<byte>

    /** A truthy logged-in user is a known user, and every account dict has distinct keys. */
    ghost predicate Valid()
      reads this
    {
      (Truthy(currentUser) ==> currentUser.value in users)
      && forall u :: u in users ==> DistinctKeys(users[u].accounts)
    }

    constructor (loaded: map<string, StoredUser>, sha256: seq<byte> -> seq<byte>)
      requires forall u :: u in loaded ==> DistinctKeys(loaded[u].accounts)
      ensures Valid()
      ensures users == loaded && currentUser == None && this.sha256 == sha256
    {
      users := loaded;
      currentUser := None;
      this.sha256 := sha256;
    }

    /** `register`: a taken name is refused with nothing changed; otherwise the user is added with no accounts. */
    method Register(username: string, password: string) returns (ok: bool)
      requires Valid()
      modifies this
      ensures Valid()
      ensures ok <==> username !in old(users)
      ensures users == if ok then old(users)[username := StoredUser(PasswordDigest(sha256, password), [])] else old(users)
      ensures currentUser == old(currentUser)
    {
      if username in users {
        return false;
      }
      users := users[username := StoredUser(PasswordDigest(sha256, password), [])];
      return true;
    }

    /** `login`: succeeds exactly when the stored digest is the password's; only success changes the logged-in user. */
    method Login(username: string, password: string) returns (ok: bool)
      requires Valid()
      modifies this
      ensures Valid()
      ensures ok <==> username in users && users[username].passwordHash == PasswordDigest(sha256, password)
      ensures users == old(users)
      ensures currentUser == if ok then Some(username) else old(currentUser)
    {
      if username in users && users[username].passwordHash == PasswordDigest(sha256, password) {
        currentUser := Some(username);
        return true;
      }
      return false;
    }
  }

  // ---------------------------------------------------------- accounts

  /** `AccountManager`: account operations on the logged-in user of a `UserManager`. */
  class AccountManager {
    const userManager: UserManager
    const analyzer: PasswordAnalyzer

    constructor (userManager: UserManager, sha1: seq<byte> -> seq<byte>)
      ensures this.userManager == userManager
      ensures analyzer.minLength == DefaultMinLength && analyzer.apiUrl == PwnedRangeApi && analyzer.sha1 == sha1
    {
      this.userManager := userManager;
      analyzer := new PasswordAnalyzer(DefaultMinLength, PwnedRangeApi, sha1);
    }

    /** The logged-in user's accounts; none when nobody is logged in. */
    ghost function CurrentAccounts(): Dict<AccountEntry>
      reads userManager
      requires userManager.Valid()
    {
      if Truthy(userManager.currentUser) then userManager.users[userManager.currentUser.value].accounts else []
    }

    /** `list_accounts` */
    method ListAccounts() returns (accounts: Dict<AccountEntry>)
      requires userManager.Valid()
      ensures accounts == CurrentAccounts()
      ensures !Truthy(userManager.currentUser) ==> accounts == []
    {
      if !Truthy(userManager.currentUser) {
        return [];
      }
      return userManager.users[userManager.currentUser.value].accounts;
    }

    /** `check_password_reuse`: the logged-in user's services storing the password's digest, in account order. */
    method CheckPasswordReuse(password: string) returns (reusedIn: seq<string>)
      requires userManager.Valid()
      ensures reusedIn == ReusedIn(CurrentAccounts(), PasswordDigest(userManager.sha256, password))
    {
      reusedIn := [];
      if Truthy(userManager.currentUser) {
        var hashed := PasswordDigest(userManager.sha256, password);
        var accounts := userManager.users[userManager.currentUser.value].accounts;
        var i := 0;
        while i < |accounts|
          invariant 0 <= i <= |accounts|
          invariant reusedIn == ReusedIn(accounts[..i], hashed)
        {
          var (service, details) := accounts[i];
          if details.passwordHash == hashed {
            reusedIn := reusedIn + [service];
          }
          assert accounts[..i + 1][..i] == accounts[..i];
          i := i + 1;
        }
        assert accounts[..|accounts|] == accounts;
      }
    }

    /** `check_password_age`: `(service, days_old)` for the logged-in user's accounts at least 90 days old. */
    method CheckPasswordAge(now: int) returns (aging: seq<(string, int)>)
      requires userManager.Valid()
      ensures aging == Aging(CurrentAccounts(), now)
    {
      aging := [];
      if Truthy(userManager.currentUser) {
        var accounts := userManager.users[userManager.currentUser.value].accounts;
        var i := 0;
        while i < |accounts|
          invariant 0 <= i <= |accounts|
          invariant aging == Aging(accounts[..i], now)
        {
          var (service, details) := accounts[i];
          var daysOld := DaysOld(now, details.lastChanged);
          if daysOld >= MaxPasswordAgeDays {
            aging := aging + [(service, daysOld)];
          }
          assert accounts[..i + 1][..i] == accounts[..i];
          i := i + 1;
        }
        assert accounts[..|accounts|] == accounts;
      }
    }

    /**
     * `add_account`: nothing changes when nobody is logged in or when the breach
     * check lets a `ValueError` escape; otherwise the entry for `service` is
     * replaced (or appended) and no other service or user changes.
     */
    method AddAccount(service: string, username: string, password: string, has2fa: bool,
                      now: int, fetch: string -> HttpReply) returns (r: Call<bool>)
      requires userManager.Valid()
      modifies userManager
      ensures userManager.Valid()
      ensures userManager.currentUser == old(userManager.currentUser)
      ensures !Truthy(old(userManager.currentUser)) ==> r == Return(false) && userManager.users == old(userManager.users)
      ensures Truthy(old(userManager.currentUser)) && BreachCheck(analyzer.sha1, analyzer.apiUrl, password, fetch).ValueErrorRaised? ==>
        r == Raise && userManager.users == old(userManager.users)
      ensures Truthy(old(userManager.currentUser)) && BreachCheck(analyzer.sha1, analyzer.apiUrl, password, fetch).Breach? ==>
        var u := old(userManager.currentUser).value;
        var before := old(userManager.users)[u];
        var digest := PasswordDigest(userManager.sha256, password);
        var entry := AccountEntry(username, digest, BreachCheck(analyzer.sha1, analyzer.apiUrl, password, fetch).breached,
          ReusedIn(before.accounts, digest), Score(analyzer.minLength, password), has2fa, now);
        r == Return(true) && userManager.users == old(userManager.users)[u := before.(accounts := Put(before.accounts, service, entry))]
    {
      if !Truthy(userManager.currentUser) {
        return Return(false);
      }
      var u := userManager.currentUser.value;
      var digest := PasswordDigest(userManager.sha256, password);
      var breach := analyzer.CheckBreach(password, fetch);
      if breach.ValueErrorRaised? {
        return Raise;
      }
      var reuse := CheckPasswordReuse(password);
      var strength, _ := analyzer.CheckStrength(password);
      var entry := AccountEntry(username, digest, breach.breached, reuse, strength, has2fa, now);
      var before := userManager.users[u];
      PutKeepsKeysDistinct(before.accounts, service, entry);
      userManager.users := userManager.users[u := before.(accounts := Put(before.accounts, service, entry))];
      return Return(true);
    }
  }
}
