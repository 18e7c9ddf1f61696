/**
 * The decisions of the authentication endpoints: two-phase login (password,
 * then TOTP), two-factor setup, verification and removal, and the
 * password-reset flow. HTTP errors become `Failure(status, detail)`. The
 * password check, the password hash, the random salt, the reset token's
 * randomness, the TOTP code and the clock are parameters; the authenticated
 * caller of the two-factor endpoints is a stored username.
 */
module Auth {
  import opened Common
  import opened SqlStore
  import Totp

  datatype Reply =
    | AccessToken(subject: string, userId: nat)
    | TwoFactorRequired
    | TwoFactorSetup(secret: string)
    | ResetTokenDetails(requires2fa: bool, username: string)
    | Success(message: string)
    | Failure(status: nat, detail: string)

  const Unauthorized: nat := 401
  const Forbidden: nat := 403
  const BadRequest: nat := 400

  const BadCredentials: string := "Incorrect username or password"
  const BadTotp: string := "Invalid TOTP code"
  const ResetRequested: string := "If an account with that username/email exists, a reset link has been sent"
  const BadResetToken: string := "Invalid or expired token"
  const TotpRequired: string := "TOTP code required for 2FA-enabled accounts"
  const ResetDone: string := "Password reset successful"

  /** `verify_password(plain, hashed, salt)` of the security helpers. */
  type PasswordCheck = (string, string, string) -> bool

  /** `TwoFactorAuth.verify_totp(secret, token)` with a nullable secret. */
  predicate TotpAccepts(code: Totp.CodeFunction, secret: Option<string>, token: string, now: nat)
  {
    secret.Some? && Totp.VerifyTotp(code, secret.value, token, now)
  }

  /** `login`: the reply to a username, password and optional TOTP code at time `now`. */
  function Login(users: map<string, User>, check: PasswordCheck, code: Totp.CodeFunction,
                 username: string, password: string, totpCode: Option<string>, now: nat): (r: Reply)
    ensures r.AccessToken? || r.TwoFactorRequired? || r.Failure?
    ensures r.AccessToken? ==> username in users && r.subject == username && r.userId == users[username].id
    ensures r.TwoFactorRequired? ==> username in users && users[username].totpEnabled && !Truthy(totpCode)
    ensures r.Failure? ==> r.status == Unauthorized && (r.detail == BadCredentials || r.detail == BadTotp)
  {
    if username !in users || !check(password, users[username].password, users[username].salt) then
      Failure(Unauthorized, BadCredentials)
    else if users[username].totpEnabled && !Truthy(totpCode) then
      TwoFactorRequired
    else if users[username].totpEnabled && !TotpAccepts(code, users[username].totpSecret, totpCode.value, now) then
      Failure(Unauthorized, BadTotp)
    else
      AccessToken(username, users[username].id)
  }

  /** An unknown user and a wrong password get the very same reply. */
  lemma LoginHidesWhichCredentialFailed(users: map<string, User>, check: PasswordCheck, code: Totp.CodeFunction,
                                        unknown: string, known: string, password: string, totpCode: Option<string>, now: nat)
    requires unknown !in users
    requires known in users && !check(password, users[known].password, users[known].salt)
    ensures Login(users, check, code, unknown, password, totpCode, now)
            == Login(users, check, code, known, password, totpCode, now)
            == Failure(Unauthorized, BadCredentials)
  {
  }

  /**
   * With TOTP on, a right password alone gets "2fa_required" and a wrong
   * code gets 401 "Invalid TOTP code"; neither carries a token.
   */
  lemma LoginSecondPhase(users: map<string, User>, check: PasswordCheck, code: Totp.CodeFunction,
                         username: string, password: string, totpCode: Option<string>, now: nat)
    requires username in users && users[username].totpEnabled
    requires check(password, users[username].password, users[username].salt)
    ensures !Truthy(totpCode) ==> Login(users, check, code, username, password, totpCode, now) == TwoFactorRequired
    ensures (Truthy(totpCode) && !TotpAccepts(code, users[username].totpSecret, totpCode.value, now))
              ==> Login(users, check, code, username, password, totpCode, now) == Failure(Unauthorized, BadTotp)
  {
  }

  /**
   * A token is issued exactly when the password checks out and TOTP is off
   * or the code checks out; its subject is the username and it carries the
   * user's id.
   */
  lemma LoginTokenIffAuthenticated(users: map<string, User>, check: PasswordCheck, code: Totp.CodeFunction,
                                   username: string, password: string, totpCode: Option<string>, now: nat)
    ensures Login(users, check, code, username, password, totpCode, now).AccessToken?
            <==> username in users && check(password, users[username].password, users[username].salt)
                 && (!users[username].totpEnabled
                     || (Truthy(totpCode) && TotpAccepts(code, users[username].totpSecret, totpCode.value, now)))
    ensures Login(users, check, code, username, password, totpCode, now).AccessToken? ==>
              Login(users, check, code, username, password, totpCode, now) == AccessToken(username, users[username].id)
  {
  }

  /** A row with a fresh reset token that expires one lifetime after `now`. */
  function WithResetToken(u: User, token: string, now: nat): (r: User)
    ensures r.resetToken == Some(token) && Totp.IsTokenValid(r.resetTokenExpires, now)
    ensures !Totp.IsTokenValid(r.resetTokenExpires, now + Totp.ResetTokenLifetime + 1)
    ensures r.(resetToken := u.resetToken, resetTokenExpires := u.resetTokenExpires) == u
    ensures r.id == u.id && r.totpEnabled == u.totpEnabled && r.totpSecret == u.totpSecret
  {
    u.(resetToken := Some(token), resetTokenExpires := Some(Totp.TokenExpiration(now)))
  }

  /** Whether a row answers to `usernameOrEmail` in the lookup of `forgot_password`. */
  predicate AnswersTo(name: string, u: User, usernameOrEmail: string)
  {
    name == usernameOrEmail || u.email == Some(usernameOrEmail)
  }

  /** The endpoints that write to the user table. */
  class AuthApi {
    const db: Database
    const code: Totp.CodeFunction
    /** `get_password_hash(password, salt)` */
    const passwordHash: (string, string) -> string

    constructor (db: Database, code: Totp.CodeFunction, passwordHash: (string, string) -> string)
      ensures this.db == db && this.code == code && this.passwordHash == passwordHash
    {
      this.db, this.code, this.passwordHash := db, code, passwordHash;
    }

    /**
     * `setup_2fa` by `caller` for `userId`, with `secret` the new random
     * secret: refused unless the caller owns that id; otherwise the secret is
     * replaced and the enabled flag left as it is.
     */
    method Setup2fa(caller: string, userId: nat, secret: string) returns (r: Reply)
      requires db.Valid() && caller in db.users && secret != ""
      modifies db
      ensures db.Valid()
      ensures old(db.users)[caller].id != userId ==> r == Failure(Forbidden, "Not authorized to perform this action") && unchanged(db)
      ensures old(db.users)[caller].id == userId ==>
                r == TwoFactorSetup(secret)
                && db.users == old(db.users)[caller := old(db.users)[caller].(totpSecret := Some(secret))]
                && db.accounts == old(db.accounts) && db.nextId == old(db.nextId)
    {
      if db.users[caller].id != userId {
        return Failure(Forbidden, "Not authorized to perform this action");
      }
      db.users := db.users[caller := db.users[caller].(totpSecret := Some(secret))];
      r := TwoFactorSetup(secret);
    }

    /** `verify_2fa_setup`: a code that checks out against the stored secret turns TOTP on. */
    method Verify2faSetup(caller: string, token: string, now: nat) returns (r: Reply)
      requires db.Valid() && caller in db.users
      modifies db
      ensures db.Valid()
      ensures !Truthy(old(db.users)[caller].totpSecret) ==> r == Failure(BadRequest, "2FA not initialized")
      ensures (Truthy(old(db.users)[caller].totpSecret) && !TotpAccepts(code, old(db.users)[caller].totpSecret, token, now))
                ==> r == Failure(BadRequest, "Invalid verification code")
      ensures r.Failure? ==> unchanged(db)
      ensures r.Success? <==> Truthy(old(db.users)[caller].totpSecret) && TotpAccepts(code, old(db.users)[caller].totpSecret, token, now)
      ensures r.Success? ==> db.users == old(db.users)[caller := old(db.users)[caller].(totpEnabled := true)]
                             && db.accounts == old(db.accounts) && db.nextId == old(db.nextId)
    {
      var u := db.users[caller];
      if !Truthy(u.totpSecret) {
        return Failure(BadRequest, "2FA not initialized");
      }
      if !TotpAccepts(code, u.totpSecret, token, now) {
        return Failure(BadRequest, "Invalid verification code");
      }
      db.users := db.users[caller := u.(totpEnabled := true)];
      r := Success("2FA enabled successfully");
    }

    /** `disable_2fa`: only with TOTP on and a code that checks out; then the flag and the secret are cleared. */
    method Disable2fa(caller: string, token: string, now: nat) returns (r: Reply)
      requires db.Valid() && caller in db.users
      modifies db
      ensures db.Valid()
      ensures !old(db.users)[caller].totpEnabled ==> r == Failure(BadRequest, "2FA is not enabled")
      ensures (old(db.users)[caller].totpEnabled && !TotpAccepts(code, old(db.users)[caller].totpSecret, token, now))
                ==> r == Failure(BadRequest, "Invalid verification code")
      ensures r.Failure? ==> unchanged(db)
      ensures r.Success? <==> old(db.users)[caller].totpEnabled && TotpAccepts(code, old(db.users)[caller].totpSecret, token, now)
      ensures r.Success? ==> db.users == old(db.users)[caller := WithoutTotp(old(db.users)[caller])]
                             && db.accounts == old(db.accounts) && db.nextId == old(db.nextId)
    {
      var u := db.users[caller];
      if !u.totpEnabled {
        return Failure(BadRequest, "2FA is not enabled");
      }
      if !TotpAccepts(code, u.totpSecret, token, now) {
        return Failure(BadRequest, "Invalid verification code");
      }
      db.users := db.users[caller := WithoutTotp(u)];
      r := Success("2FA disabled successfully");
    }

    /**
     * `forgot_password` at time `now`, the reset token drawn with `rng`: the
     * same reply whoever asks; a token and its expiry are written only for a
     * user who answers to the name and has an email address. `picked` is the
     * row the lookup returned, if any.
     */
    method ForgotPassword(usernameOrEmail: string, rng: nat -> nat, now: nat) returns (r: Reply, ghost picked: Option<string>)
      requires db.Valid()
      modifies db
      ensures db.Valid()
      ensures r == Success(ResetRequested)
      ensures db.accounts == old(db.accounts) && db.nextId == old(db.nextId)
      ensures picked.None? <==> forall u :: u in old(db.users) ==> !AnswersTo(u, old(db.users)[u], usernameOrEmail)
      ensures picked.Some? ==> picked.value in old(db.users) && AnswersTo(picked.value, old(db.users)[picked.value], usernameOrEmail)
      ensures picked.None? || !Truthy(old(db.users)[picked.value].email) ==> db.users == old(db.users)
      ensures picked.Some? && Truthy(old(db.users)[picked.value].email) ==>
                db.users == old(db.users)[picked.value := WithResetToken(old(db.users)[picked.value], Totp.GenerateResetToken(rng), now)]
    {
      r := Success(ResetRequested);
      var users := db.users;
      if !exists u :: u in users && AnswersTo(u, users[u], usernameOrEmail) {
        return r, None;
      }
      var u :| u in users && AnswersTo(u, users[u], usernameOrEmail);
      picked := Some(u);
      if !Truthy(users[u].email) {
        return;
      }
      var row := WithResetToken(users[u], Totp.GenerateResetToken(rng), now);
      RowUpdateKeepsValid(users, db.accounts, db.nextId, u, row);
      db.users := users[u := row];
    }

    /**
     * `validate_reset_token` at time `now`: the holder's name and whether TOTP
     * will be asked for. `picked` is the row the lookup by token returned, if any.
     */
    method ValidateResetToken(token: string, now: nat) returns (r: Reply, ghost picked: Option<string>)
      ensures picked.None? <==> forall u :: u in db.users ==> db.users[u].resetToken != Some(token)
      ensures picked.Some? ==> picked.value in db.users && db.users[picked.value].resetToken == Some(token)
      ensures picked.None? ==> r == Failure(BadRequest, BadResetToken)
      ensures (picked.Some? && !Totp.IsTokenValid(db.users[picked.value].resetTokenExpires, now))
                ==> r == Failure(BadRequest, BadResetToken)
      ensures (picked.Some? && Totp.IsTokenValid(db.users[picked.value].resetTokenExpires, now))
                ==> r == ResetTokenDetails(db.users[picked.value].totpEnabled, picked.value)
      ensures (forall u :: (u in db.users && db.users[u].resetToken == Some(token))
                             ==> !Totp.IsTokenValid(db.users[u].resetTokenExpires, now))
              ==> r == Failure(BadRequest, BadResetToken)
    {
      if !exists u :: u in db.users && db.users[u].resetToken == Some(token) {
        return Failure(BadRequest, BadResetToken), None;
      }
      var u :| u in db.users && db.users[u].resetToken == Some(token);
      picked := Some(u);
      if !Totp.IsTokenValid(db.users[u].resetTokenExpires, now) {
        return Failure(BadRequest, BadResetToken), picked;
      }
      r := ResetTokenDetails(db.users[u].totpEnabled, u);
    }

    /**
     * `complete_password_reset` at time `now` with `salt` the fresh salt: a
     * live token, and for a TOTP user a code that checks out, let the new
     * password in; the token is then spent. `picked` is the row the lookup by
     * token returned, if any.
     */
    method CompletePasswordReset(token: string, newPassword: string, totpCode: Option<string>, salt: string, now: nat)
      returns (r: Reply, ghost picked: Option<string>)
      requires db.Valid()
      modifies db
      ensures db.Valid()
      ensures db.accounts == old(db.accounts) && db.nextId == old(db.nextId)
      ensures r.Failure? ==> unchanged(db)
      ensures picked.None? <==> forall u :: u in old(db.users) ==> old(db.users)[u].resetToken != Some(token)
      ensures picked.Some? ==> picked.value in old(db.users) && old(db.users)[picked.value].resetToken == Some(token)
      ensures picked.None? ==> r == Failure(BadRequest, BadResetToken)
      ensures (picked.Some? && !Totp.IsTokenValid(old(db.users)[picked.value].resetTokenExpires, now))
                ==> r == Failure(BadRequest, BadResetToken)
      ensures (picked.Some? && Totp.IsTokenValid(old(db.users)[picked.value].resetTokenExpires, now)
               && old(db.users)[picked.value].totpEnabled && !Truthy(totpCode))
                ==> r == Failure(BadRequest, TotpRequired)
      ensures (picked.Some? && Totp.IsTokenValid(old(db.users)[picked.value].resetTokenExpires, now)
               && old(db.users)[picked.value].totpEnabled && Truthy(totpCode)
               && !TotpAccepts(code, old(db.users)[picked.value].totpSecret, totpCode.value, now))
                ==> r == Failure(BadRequest, BadTotp)
      ensures (picked.Some? && Totp.IsTokenValid(old(db.users)[picked.value].resetTokenExpires, now)
               && (old(db.users)[picked.value].totpEnabled ==>
                     Truthy(totpCode) && TotpAccepts(code, old(db.users)[picked.value].totpSecret, totpCode.value, now)))
                ==> r == Success(ResetDone)
                    && db.users == old(db.users)[picked.value := old(db.users)[picked.value].(
                         password := passwordHash(newPassword, salt), salt := salt,
                         resetToken := None, resetTokenExpires := None)]
      ensures (forall u :: (u in old(db.users) && old(db.users)[u].resetToken == Some(token))
                             ==> !Totp.IsTokenValid(old(db.users)[u].resetTokenExpires, now))
              ==> r == Failure(BadRequest, BadResetToken)
    {
      if !exists u :: u in db.users && db.users[u].resetToken == Some(token) {
        return Failure(BadRequest, BadResetToken), None;
      }
      var u :| u in db.users && db.users[u].resetToken == Some(token);
      picked := Some(u);
      var user := db.users[u];
      if !Totp.IsTokenValid(user.resetTokenExpires, now) {
        return Failure(BadRequest, BadResetToken), picked;
      }
      if user.totpEnabled {
        if !Truthy(totpCode) {
          return Failure(BadRequest, TotpRequired), picked;
        }
        if !TotpAccepts(code, user.totpSecret, totpCode.value, now) {
          return Failure(BadRequest, BadTotp), picked;
        }
      }
      db.users := db.users[u := user.(password := passwordHash(newPassword, salt), salt := salt,
                                     resetToken := None, resetTokenExpires := None)];
      r := Success(ResetDone);
    }
  }
}
