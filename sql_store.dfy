/**
 * The SQL-backed user store: the `users` and `accounts` tables as maps
 * (username to user row, (username, service) to account row) and
 * `SQLUserManager` over them. Argon2 hashing and verification, the PBKDF2
 * key derivation, base64 decoding and the TOTP code are parameters of the
 * manager; randomness (`os.urandom`, `pyotp.random_base32`) and the clock
 * are parameters of the methods that use them.
 */
module SqlStore {
  import opened Common
  import opened Text
  import Totp

  /** A Fernet key as `generate_key` returns it. */
  type Key = seq<byte>

  /** A row of `users`; timestamps are whole seconds. */
  datatype User = User(id: nat, password: string, salt: string, createdAt: int,
                       totpSecret: Option<string>, totpEnabled: bool, email: Option<string>,
                       resetToken: Option<string>, resetTokenExpires: Option<int>)

  /** A row of `accounts`, keyed by its owner's username and its service. */
  datatype Account = Account(username: string, password: string, has2fa: bool, lastChanged: int,
                             passwordStrength: nat, passwordBreach: bool)

  /** What argon2's `PasswordHasher.verify` does: return, raise a mismatch, or raise anything else. */
  datatype Argon2Outcome = Verified | Mismatch | Failed

  /** `salt_length` */
  const SaltLength: nat := 32
  const Argon2Prefix: string := "$argon2"

  /**
   * The two tables. The model hands out user ids from a counter that only
   * grows; SQLite without AUTOINCREMENT may hand out the largest id again
   * once its row is deleted.
   */
  class Database {
    var users: map<string, User>
    var accounts: map<(string, string), Account>
    var nextId: nat

    /**
     * Every account belongs to a stored user, user ids are distinct and below
     * `nextId`, and two-factor authentication is never enabled without a secret.
     */
    ghost predicate Valid()
      reads this
    {
      ValidTables(users, accounts, nextId)
    }

    constructor ()
      ensures users == map[] && accounts == map[] && nextId == 1
      ensures Valid()
    {
      users, accounts, nextId := map[], map[], 1;
    }
  }

  /** The invariant of `Database` over the two tables and the next id. */
  ghost predicate ValidTables(users: map<string, User>, accounts: map<(string, string), Account>, nextId: nat)
  {
    (forall k :: k in accounts ==> k.0 in users)
    && (forall u :: u in users ==> users[u].id < nextId)
    && (forall u, v :: u in users && v in users && users[u].id == users[v].id ==> u == v)
    && (forall u :: u in users && users[u].totpEnabled ==> Truthy(users[u].totpSecret))
  }

  /** Rewriting a row that keeps its id, and keeps a secret wherever TOTP is on, keeps the invariant. */
  lemma RowUpdateKeepsValid(users: map<string, User>, accounts: map<(string, string), Account>, nextId: nat,
                            u: string, row: User)
    requires ValidTables(users, accounts, nextId) && u in users
    requires row.id == users[u].id && (row.totpEnabled ==> Truthy(row.totpSecret))
    ensures ValidTables(users[u := row], accounts, nextId)
  {
  }

  /** The services `owner` has accounts for. */
  function ServicesOf(accounts: map<(string, string), Account>, owner: string): set<string>
  {
    set k | k in accounts && k.0 == owner :: k.1
  }

  lemma ServiceIsStored(accounts: map<(string, string), Account>, owner: string, service: string)
    ensures service in ServicesOf(accounts, owner) <==> (owner, service) in accounts
  {
    if (owner, service) in accounts {
      var k := (owner, service);
      assert k in accounts && k.0 == owner;
    }
  }

  /** The rows left once `owner`'s accounts are deleted with it. */
  function AccountsWithout(accounts: map<(string, string), Account>, owner: string): (r: map<(string, string), Account>)
    ensures forall k :: k in r <==> k in accounts && k.0 != owner
  {
    map k | k in accounts && k.0 != owner :: accounts[k]
  }

  /** Deleting a user's accounts leaves every other user's services as they were. */
  lemma CascadeSparesOthers(accounts: map<(string, string), Account>, owner: string, other: string)
    ensures ServicesOf(AccountsWithout(accounts, owner), owner) == {}
    ensures other != owner ==> ServicesOf(AccountsWithout(accounts, owner), other) == ServicesOf(accounts, other)
  {
    var r := AccountsWithout(accounts, owner);
    forall s ensures s in ServicesOf(r, owner) <==> false {
      ServiceIsStored(r, owner, s);
    }
    if other != owner {
      forall s ensures s in ServicesOf(r, other) <==> s in ServicesOf(accounts, other) {
        ServiceIsStored(r, other, s);
        ServiceIsStored(accounts, other, s);
      }
    }
  }

  /** The row `create_user` inserts: no TOTP secret, TOTP off, the salt as lower-case hex. */
  function NewUser(id: nat, passwordHash: string, salt: seq<byte>, now: int): User
  {
    User(id, passwordHash, HexEncode(salt), now, None, false, None, None, None)
  }

  /** The salt a new user is given is 64 hex digits that decode back to its 32 bytes. */
  lemma NewUserSalt(id: nat, passwordHash: string, salt: seq<byte>, now: int)
    requires |salt| == SaltLength
    ensures |NewUser(id, passwordHash, salt, now).salt| == 64
    ensures FromHex(NewUser(id, passwordHash, salt, now).salt) == Some(salt)
    ensures !Truthy(NewUser(id, passwordHash, salt, now).totpSecret) && !NewUser(id, passwordHash, salt, now).totpEnabled
  {
    FromHexOfHexEncode(salt);
  }

  /**
   * The salt bytes `get_encryption_key` derives the key from: hex if the
   * column parses as hex, else base64 if that decodes, else the column's
   * UTF-8 bytes.
   */
  function DecodeSalt(b64decode: string -> Option<seq<byte>>, salt: string): seq<byte>
  {
    match FromHex(salt)
    case Some(bytes) => bytes
    case None =>
      match b64decode(salt)
      case Some(bytes) => bytes
      case None => Utf8Encode(salt)
  }

  /**
   * A salt written by `create_user` decodes to the bytes it was made from,
   * even though 64 hex digits are also valid base64: hex is tried first.
   */
  lemma HexSaltRoundTrip(b64decode: string -> Option<seq<byte>>, salt: seq<byte>)
    ensures DecodeSalt(b64decode, HexEncode(salt)) == salt
  {
    FromHexOfHexEncode(salt);
  }

  /**
   * A salt holding a character that is neither a hex digit nor whitespace is
   * not hex, so base64 and then UTF-8 are tried.
   */
  lemma NonHexSaltFallsBack(b64decode: string -> Option<seq<byte>>, salt: string, k: nat)
    requires k < |salt| && !IsHexDigit(salt[k]) && !IsAsciiSpace(salt[k])
    ensures DecodeSalt(b64decode, salt) == match b64decode(salt) case Some(bytes) => bytes case None => Utf8Encode(salt)
  {
    FromHexRejectsForeign(salt, k);
  }

  /** TOTP stages of a user row. */
  datatype TotpStage = NoSecret | AwaitingVerification | Enabled

  function StageOf(u: User): TotpStage
  {
    if !Truthy(u.totpSecret) then NoSecret
    else if !u.totpEnabled then AwaitingVerification
    else Enabled
  }

  /** `generate_totp_secret` on a row: the new secret, not yet enabled. */
  function WithNewSecret(u: User, secret: string): User
  {
    u.(totpSecret := Some(secret), totpEnabled := false)
  }

  /** `disable_totp` on a row. */
  function WithoutTotp(u: User): User
  {
    u.(totpEnabled := false, totpSecret := None)
  }

  /**
   * The enrolment lifecycle: a new secret always awaits verification, a
   * verified one is enabled, disabling clears everything, and each step
   * changes no other column.
   */
  lemma TotpLifecycle(u: User, secret: string)
    requires secret != ""
    ensures StageOf(WithNewSecret(u, secret)) == AwaitingVerification
    ensures StageOf(WithNewSecret(u, secret).(totpEnabled := true)) == Enabled
    ensures StageOf(WithoutTotp(u)) == NoSecret
    ensures WithoutTotp(u).password == u.password && WithNewSecret(u, secret).password == u.password
  {
  }

  /** `SQLUserManager` */
  class SqlUserManager {
    const db: Database
    var currentUser: Option<string>
    /** The master password kept after login to derive the encryption key. */
    var currentPassword: Option<string>
    /** `PasswordHasher().hash` (its own random salt is part of the function). */
    const hash: string -> string
    /** `PasswordHasher().verify(hash, password)` */
    const verify: (string, string) -> Argon2Outcome
    /** `generate_key(password, salt)[0]`: PBKDF2-HMAC-SHA256 then URL-safe base64. */
    const kdf: (string, seq<byte>) -> Key
    /** `base64.b64decode`, None where it raises. */
    const b64decode: string -> Option<seq<byte>>
    /** The pyotp code of a secret at a time step. */
    const code: Totp.CodeFunction

    constructor (db: Database, hash: string -> string, verify: (string, string) -> Argon2Outcome,
                 kdf: (string, seq<byte>) -> Key, b64decode: string -> Option<seq<byte>>, code: Totp.CodeFunction)
      ensures this.db == db && this.hash == hash && this.verify == verify && this.kdf == kdf
      ensures this.b64decode == b64decode && this.code == code
      ensures currentUser == None && currentPassword == None
    {
      this.db, this.hash, this.verify, this.kdf, this.b64decode, this.code := db, hash, verify, kdf, b64decode, code;
      currentUser, currentPassword := None, None;
    }

    /** The key `get_encryption_key` derives for row `u` and a master password. */
    function KeyFor(u: User, password: string): Key
    {
      kdf(password, DecodeSalt(b64decode, u.salt))
    }

    /** A user created with salt bytes `salt` gets the key derived from exactly those bytes. */
    lemma KeyOfNewUser(id: nat, passwordHash: string, salt: seq<byte>, now: int, password: string)
      ensures KeyFor(NewUser(id, passwordHash, salt, now), password) == kdf(password, salt)
    {
      HexSaltRoundTrip(b64decode, salt);
    }

    /** The salted check: the row has a salt, the hash is argon2, and password+salt verifies. */
    predicate SaltedMatch(row: User, hashed: string, plain: string)
    {
      row.salt != "" && StartsWith(hashed, Argon2Prefix) && verify(hashed, plain + row.salt).Verified?
    }

    /**
     * What `verify_password(hashed, plain)` answers once its lookup by hash
     * found `row` (or nothing): every exception is caught and yields False.
     */
    function PasswordVerdict(hashed: string, plain: string, row: Option<User>): (v: bool)
      ensures verify(hashed, plain).Verified? ==> v
      ensures row.None? ==> (v <==> verify(hashed, plain).Verified?)
      ensures (row.Some? && SaltedMatch(row.value, hashed, plain)) ==> v
    {
      var direct := verify(hashed, plain).Verified?;
      match row
      case None => direct
      case Some(u) =>
        if u.salt != "" && StartsWith(hashed, Argon2Prefix) then
          match verify(hashed, plain + u.salt)
          case Verified => true
          case Mismatch => direct
          case Failed => direct
        else direct
    }

    /** Fail-closed: the verdict is True exactly when one of the two argon2 checks succeeded. */
    lemma PasswordVerdictFailClosed(hashed: string, plain: string, row: Option<User>)
      ensures PasswordVerdict(hashed, plain, row)
              <==> verify(hashed, plain).Verified? || (row.Some? && SaltedMatch(row.value, hashed, plain))
    {
    }

    /**
     * `verify_password`. The lookup by hash takes the first matching row; the
     * model lets it be any row with that hash, and `picked` names the row taken.
     */
    method VerifyPassword(hashed: string, plain: string) returns (ok: bool, ghost picked: Option<string>)
      ensures picked.None? <==> forall u :: u in db.users ==> db.users[u].password != hashed
      ensures picked.Some? ==> picked.value in db.users && db.users[picked.value].password == hashed
      ensures ok == PasswordVerdict(hashed, plain, if picked.Some? then Some(db.users[picked.value]) else None)
      ensures verify(hashed, plain).Verified? ==> ok
      ensures ok ==> verify(hashed, plain).Verified?
                     || exists u :: u in db.users && db.users[u].password == hashed && SaltedMatch(db.users[u], hashed, plain)
    {
      var row: Option<User> := None;
      picked := None;
      if exists u :: u in db.users && db.users[u].password == hashed {
        var u :| u in db.users && db.users[u].password == hashed;
        row := Some(db.users[u]);
        picked := Some(u);
      }
      ok := PasswordVerdict(hashed, plain, row);
      PasswordVerdictFailClosed(hashed, plain, row);
    }

    /** `create_user` with `salt` the 32 random bytes; the new id, or None where it returns False. */
    method CreateUser(username: string, password: string, salt: seq<byte>, now: int) returns (id: Option<nat>)
      requires db.Valid() && |salt| == SaltLength
      modifies db
      ensures db.Valid()
      ensures username in old(db.users) ==> id.None? && unchanged(db)
      ensures username !in old(db.users) ==>
                id == Some(old(db.nextId))
                && db.users == old(db.users)[username := NewUser(old(db.nextId), hash(password), salt, now)]
                && db.accounts == old(db.accounts)
      ensures id.Some? ==> forall u :: u in old(db.users) ==> old(db.users)[u].id != id.value
    {
      if username in db.users {
        return None;
      }
      id := Some(db.nextId);
      db.users := db.users[username := NewUser(db.nextId, hash(password), salt, now)];
      db.nextId := db.nextId + 1;
    }

    /**
     * `login`: on success the username and master password are remembered;
     * otherwise nothing changes. `picked` is the row the hash lookup took.
     */
    method Login(username: string, password: string) returns (ok: bool, ghost picked: Option<string>)
      modifies this
      ensures username !in db.users ==> !ok
      ensures (username in db.users && picked.Some?) ==>
                picked.value in db.users && db.users[picked.value].password == db.users[username].password
      ensures username in db.users ==>
                ok == PasswordVerdict(db.users[username].password, password,
                                      if picked.Some? then Some(db.users[picked.value]) else None)
      ensures (username in db.users && verify(db.users[username].password, password).Verified?) ==> ok
      ensures ok ==> verify(db.users[username].password, password).Verified?
                     || exists u :: u in db.users && db.users[u].password == db.users[username].password
                                    && SaltedMatch(db.users[u], db.users[username].password, password)
      ensures (username in db.users
               && forall u :: u in db.users && db.users[u].password == db.users[username].password ==> u == username)
                ==> (ok <==> verify(db.users[username].password, password).Verified?
                             || SaltedMatch(db.users[username], db.users[username].password, password))
      ensures ok ==> currentUser == Some(username) && currentPassword == Some(password)
      ensures !ok ==> currentUser == old(currentUser) && currentPassword == old(currentPassword)
    {
      if username !in db.users {
        return false, None;
      }
      ok, picked := VerifyPassword(db.users[username].password, password);
      PasswordVerdictFailClosed(db.users[username].password, password,
                                if picked.Some? then Some(db.users[picked.value]) else None);
      if ok {
        currentUser, currentPassword := Some(username), Some(password);
      }
    }

    /** `delete_user`: the row goes, and its accounts with it. */
    method DeleteUser(username: string) returns (ok: bool)
      requires db.Valid()
      modifies db
      ensures db.Valid()
      ensures ok <==> username in old(db.users)
      ensures ok ==> db.users == old(db.users) - {username}
                     && db.accounts == AccountsWithout(old(db.accounts), username)
                     && db.nextId == old(db.nextId)
      ensures !ok ==> unchanged(db)
    {
      if username !in db.users {
        return false;
      }
      db.users := db.users - {username};
      db.accounts := AccountsWithout(db.accounts, username);
      ok := true;
    }

    /**
     * `get_encryption_key(username, password)`: None for an unknown user;
     * a missing password makes key derivation raise.
     */
    method GetEncryptionKey(username: string, password: Option<string>) returns (r: Call<Option<Key>>)
      ensures username !in db.users ==> r == Return(None)
      ensures username in db.users && password.None? ==> r == Raise
      ensures username in db.users && password.Some? ==> r == Return(Some(KeyFor(db.users[username], password.value)))
    {
      if username !in db.users {
        return Return(None);
      }
      var salt := DecodeSalt(b64decode, db.users[username].salt);
      if password.None? {
        return Raise;
      }
      r := Return(Some(kdf(password.value, salt)));
    }

    /** `generate_totp_secret` with `secret` the fresh base32 secret. */
    method GenerateTotpSecret(username: string, secret: string) returns (r: Option<string>)
      requires db.Valid() && secret != ""
      modifies db
      ensures db.Valid()
      ensures username !in old(db.users) ==> r.None? && unchanged(db)
      ensures username in old(db.users) ==>
                r == Some(secret)
                && db.users == old(db.users)[username := WithNewSecret(old(db.users)[username], secret)]
                && db.accounts == old(db.accounts) && db.nextId == old(db.nextId)
    {
      if username !in db.users {
        return None;
      }
      db.users := db.users[username := WithNewSecret(db.users[username], secret)];
      r := Some(secret);
    }

    /**
     * `verify_totp` at time `now`: pyotp's default window, the current step
     * only. Success enables two-factor authentication (a no-op when it is
     * already on); failure changes nothing.
     */
    method VerifyTotp(username: string, token: string, now: nat) returns (ok: bool)
      requires db.Valid()
      modifies db
      ensures db.Valid()
      ensures ok <==> username in old(db.users) && Truthy(old(db.users)[username].totpSecret)
                      && token == code(old(db.users)[username].totpSecret.value, Totp.TimeStep(now))
      ensures ok ==> db.users == old(db.users)[username := old(db.users)[username].(totpEnabled := true)]
      ensures !ok ==> db.users == old(db.users)
      ensures db.accounts == old(db.accounts) && db.nextId == old(db.nextId)
    {
      if username !in db.users || !Truthy(db.users[username].totpSecret) {
        return false;
      }
      var u := db.users[username];
      if token != code(u.totpSecret.value, Totp.TimeStep(now)) {
        return false;
      }
      if !u.totpEnabled {
        db.users := db.users[username := u.(totpEnabled := true)];
      }
      ok := true;
    }

    /** `is_totp_enabled` */
    method IsTotpEnabled(username: string) returns (enabled: bool)
      ensures enabled <==> username in db.users && db.users[username].totpEnabled
    {
      enabled := username in db.users && db.users[username].totpEnabled;
    }

    /** `disable_totp`: clears the flag and the secret. */
    method DisableTotp(username: string) returns (ok: bool)
      requires db.Valid()
      modifies db
      ensures db.Valid()
      ensures ok <==> username in old(db.users)
      ensures ok ==> db.users == old(db.users)[username := WithoutTotp(old(db.users)[username])]
      ensures !ok ==> db.users == old(db.users)
      ensures db.accounts == old(db.accounts) && db.nextId == old(db.nextId)
    {
      if username !in db.users {
        return false;
      }
      db.users := db.users[username := WithoutTotp(db.users[username])];
      ok := true;
    }
  }
}
