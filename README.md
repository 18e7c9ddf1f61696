# Password manager core, modelled in Dafny

This project models the core of a Python password-security backend and
proves properties of that model:

- the password analyzer: the five-criterion strength score, the password
  generator and the k-anonymity breach check against the Have I Been Pwned
  range API;
- the two in-memory, dict-backed stores: users, login, accounts, password
  reuse and password age;
- the SQL-backed user and account managers, with the database as two maps;
- the authentication endpoints: two-phase login, two-factor setup,
  verification and removal, and the password-reset flow;
- the TOTP window check of section 4 of RFC 6238 and the reset tokens;
- the two generations of Redis-backed rate limiters, with Redis as a map
  from key to value and expiry under an explicit clock;
- the database URL rewrite.

Hashing, encryption, key derivation, base64, the TOTP code, randomness,
the clock and the network are parameters or function-valued constants
of the classes. Each proof holds for every choice of them, with one
assumption: they are deterministic functions. Argon2 `hash` and Fernet
`encrypt` draw a fresh salt or IV on every real call. In the model, the
value stored as `hash(p)` or `encrypt(p, k)` stands for some hash or some
ciphertext of `p`.

Modules:

- `Common`: shared datatypes and helpers.
- `Text`: the Python string and bytes built-ins the core relies on.
- `OrderedDict`: insertion-ordered dicts.
- `PasswordAnalysis`: the analyzer.
- `DictStore`: the in-memory stores.
- `Totp`: TOTP verification and reset tokens.
- `DatabaseUrl`: the URL rewrite.
- `Redis` and `RateLimiter`: the store and the limiters.
- `SqlStore`: the user table and `SQLUserManager`.
- `SqlAccounts`: `SQLAccountManager`.
- `Auth`: the endpoints.

Stateful code is written as classes whose methods are proved against
pure specification functions. This covers the stores, the managers, the
Redis server and the limiters. Stateless code is written as functions
and lemmas.

## Model

`RateLimiter.Run` and `RateLimiter.BurstPrefix` are proof helpers for the burst lemmas and model no source lines of their own.

| member | source | states |
|---|---|---|
| PasswordAnalysis.PasswordAnalyzer.CheckStrength | backend/app/core/password_analyzer.py:47-82 | The five checks' score and feedback equal `Score` and `Feedback`: one point per criterion met, one message per criterion missed, in the order length, upper, lower, digit, special. The copies at backend/password_manager.py:128-157 and src/password_manager.py:48-82 are the same code. |
| PasswordAnalysis.ScorePlusFeedbackIsFive | backend/app/core/password_analyzer.py:47-82 | The score lies in 0..5, and the score plus the number of feedback messages is exactly 5. |
| PasswordAnalysis.MetAndUnmetPartition | backend/app/core/password_analyzer.py:53-80 | Each criterion is either counted or reported, never both; a criterion is reported iff it is not met. |
| PasswordAnalysis.FullScoreIffAllMet | backend/app/core/password_analyzer.py:53-82 | A score of 5 holds iff the feedback is empty, and iff all five criteria are met. |
| PasswordAnalysis.EmptyPasswordScoresZero | backend/app/core/password_analyzer.py:52-82 | The empty password scores 0 and gets the five messages in the fixed order. |
| PasswordAnalysis.ExtendingKeepsCriteria | backend/app/core/password_analyzer.py:53-80 | Appending characters keeps every criterion that was met. |
| PasswordAnalysis.MetCountMonotone | backend/app/core/password_analyzer.py:53-80 | The number of met criteria never drops when the password is extended. |
| PasswordAnalysis.ExtendingNeverLowersScore | backend/app/core/password_analyzer.py:53-80 | Extending a password never lowers its score. |
| PasswordAnalysis.SpecialCharsAreSpecial | backend/app/core/password_analyzer.py:29 | The generator's special characters all belong to the special class of the strength check. |
| PasswordAnalysis.AllCharsIsUnionOfClasses | backend/app/core/password_analyzer.py:26-40 | A character is in the generator's alphabet iff it is in one of the four classes. |
| PasswordAnalysis.PasswordAnalyzer.GeneratePassword | backend/app/core/password_analyzer.py:21-45 | The length is max(length, min_length, 4), which is max(length, min_length) when min_length ≥ 4. There is at least one lowercase, uppercase, digit and special character, and only characters from their union. The result scores 5 with empty feedback. The copy at backend/password_manager.py:106-126 is the same. |
| PasswordAnalysis.PasswordAnalyzer.Draw | backend/app/core/password_analyzer.py:32-41 | The draw before the shuffle has max(n, 4) characters. The first four are one of each class, and every character is from the alphabet. |
| PasswordAnalysis.PasswordAnalyzer.Shuffle | backend/app/core/password_analyzer.py:44 | The in-place Fisher–Yates shuffle leaves the multiset of characters unchanged. |
| PasswordAnalysis.FirstFourWellDrawn | backend/app/core/password_analyzer.py:32-37 | The four mandatory draws, one per class, start a well-formed draw. |
| PasswordAnalysis.WellDrawnExtend | backend/app/core/password_analyzer.py:40-41 | Adding any alphabet character keeps a draw well formed. |
| PasswordAnalysis.ShuffledDrawIsStrong | backend/app/core/password_analyzer.py:40-45 | Any permutation of a well-formed draw of at least the minimum length keeps its length, holds all four classes, uses only the alphabet and scores 5. |
| PasswordAnalysis.DigestSplit | backend/app/core/password_analyzer.py:87-89 | For a 20-byte SHA-1 digest, the upper-case hex digest has 40 characters. The prefix has 5 and the suffix 35, and prefix + suffix is the digest. |
| PasswordAnalysis.OnlyPrefixIsSent | backend/app/core/password_analyzer.py:87-93 | Only the URL holding the 5-character prefix is fetched. Any two networks that agree on that URL give the same verdict. |
| PasswordAnalysis.MatchLinesFound | backend/app/core/password_analyzer.py:94-98 | The scan reports (True, count) iff some line is `suffix:count` and every line before it is a well-formed non-match. |
| PasswordAnalysis.MatchLinesNotFound | backend/app/core/password_analyzer.py:94-99 | The scan reports (False, 0) iff every line is a well-formed non-match. |
| PasswordAnalysis.NotBreachedCases | backend/app/core/password_analyzer.py:94-102 | (False, 0) comes exactly from a failed request, a status other than 200, or a reply none of whose lines match. |
| PasswordAnalysis.ListedSuffixIsBreached | backend/app/core/password_analyzer.py:94-98 | Against a reply of `SUFFIX:COUNT` lines, a listed suffix is reported breached with the count of its first listing. |
| PasswordAnalysis.MatchLines | backend/app/core/password_analyzer.py:94-99 | "Not breached" always has count 0, and "breached" needs at least one line. |
| PasswordAnalysis.BreachCheck | backend/app/core/password_analyzer.py:84-102 | "Not breached" always has count 0. "Breached" or a `ValueError` can only come from a 200 response to the prefix URL. |
| PasswordAnalysis.PasswordAnalyzer.CheckBreach | backend/app/core/password_analyzer.py:84-102 | The method's loop returns `BreachCheck`, the specification of the whole check. The copies are backend/password_manager.py:159-173 and src/password_manager.py:84-98. |
| Text.SplitJoin | backend/app/core/password_analyzer.py:95 | `split(':')` and `join` are inverse, and no part holds the separator. |
| Text.SplitTwoFields | backend/app/core/password_analyzer.py:95-96 | A line `a:b` without inner separators splits into exactly `[a, b]`. |
| Text.SplitLinesOfTerminated | backend/app/core/password_analyzer.py:95 | `splitlines` recovers lines written with a trailing newline. |
| Text.ParseNatToString | backend/app/core/password_analyzer.py:98 | `int(str(n)) == n` for the count field. |
| Text.FromHexOfHexEncode | backend/app/core/user_manager.py:127 | `bytes.fromhex` undoes `bytes.hex`. |
| Text.FromHexRejectsForeign | backend/app/core/user_manager.py:185-186 | A character that is neither a hex digit nor whitespace makes `bytes.fromhex` fail. |
| OrderedDict.PutLookup | backend/password_manager.py:184-192 | After `d[k] = v`, `k` holds `v` and every other key holds what it held. |
| OrderedDict.PutKeepsKeysDistinct | backend/password_manager.py:184-192 | Assignment keeps the keys distinct. |
| DictStore.UserManager.Register | backend/password_manager.py:85-93 | Fails with nothing changed iff the name is taken. Otherwise it adds the user with the SHA-256 digest and no accounts. The logged-in user is unchanged. Same as src/password_manager.py:27-35. |
| DictStore.UserManager.Login | backend/password_manager.py:95-99 | Succeeds iff the user exists and the stored digest is the password's. The logged-in user changes only on success. Same as src/password_manager.py:37-41. |
| DictStore.AccountManager.ListAccounts | backend/password_manager.py:196-199 | Gives the logged-in user's account dict, and [] when nobody is logged in. Same as src/password_manager.py:121-124. |
| DictStore.AccountManager.CheckPasswordReuse | backend/password_manager.py:201-209 | The loop returns `ReusedIn`: the services storing the password's digest, in account order, and [] when logged out. Same as src/password_manager.py:126-134. |
| DictStore.ReusedInMembership | backend/password_manager.py:201-209 | A service is listed iff one of the accounts under its name stores the digest. |
| DictStore.ReuseNamesServiceIffSameDigest | backend/password_manager.py:184-189 | The reuse list, computed before the entry is stored, names the service itself iff it already held the same password. |
| DictStore.AccountManager.CheckPasswordAge | backend/password_manager.py:211-222 | The loop returns `Aging`: (service, days_old) for the accounts at least 90 days old, in account order. |
| DictStore.AgingMembership | backend/password_manager.py:211-222 | A pair is listed iff some account under that name is that many whole days old and days_old ≥ 90. |
| DictStore.DaysOldThreshold | backend/password_manager.py:217-219 | days_old ≥ 90 iff at least 90 × 86400 seconds have elapsed. |
| DictStore.AccountManager.AddAccount | backend/password_manager.py:180-194 | Returns False with nothing changed when logged out. A `ValueError` from the breach check escapes with nothing changed. Otherwise only the entry for `service` is replaced or appended, with digest, strength, breach flag and the reuse list computed before storing. Same as src/password_manager.py:105-119. |
| Totp.TimeStep | backend/app/utils/totp.py:45-47 | T = floor(now / 30): T·30 ≤ now < (T+1)·30. |
| Totp.VerifyTotp | backend/app/utils/totp.py:40-47 | An empty secret or token is rejected. Otherwise the token is accepted iff it equals the code of step T−1, T or T+1. |
| Totp.VerdictDependsOnlyOnWindow | backend/app/utils/totp.py:45-47 | Two code functions that agree on the three steps around `now` give the same verdict. |
| Totp.DriftOfOneStepTolerated | backend/app/utils/totp.py:46-47 | A code shown at a clock up to 30 seconds off either way is accepted. |
| Totp.TokenAlphabetIsAlnum | backend/app/utils/totp.py:53 | The token alphabet is exactly the ASCII letters and digits. |
| Totp.GenerateResetToken | backend/app/utils/totp.py:51-54 | The token is 64 characters, each an ASCII letter or digit. |
| Totp.IssuedTokenValidity | backend/app/utils/totp.py:57-66 | A token issued at `t` is valid at `now` iff now ≤ t + 60. It is valid at t + 60 and not at t + 61, and a missing expiry is never valid. |
| DatabaseUrl.ReplaceFirstAtStart | backend/app/core/database.py:10 | An occurrence at the start is the one `replace(…, 1)` rewrites. |
| DatabaseUrl.LegacySchemeRenamed | backend/app/core/database.py:6-11 | A set URL starting with `postgres://` becomes `postgresql://` plus the unchanged remainder. |
| DatabaseUrl.OtherUrlsUnchanged | backend/app/core/database.py:7-11 | Any other non-empty URL, `postgresql://` ones included, is returned unchanged. |
| DatabaseUrl.NormaliseIdempotent | backend/app/core/database.py:9-10 | Normalising a normalised URL changes nothing. |
| DatabaseUrl.GetDatabaseUrlIdempotent | backend/app/core/database.py:5-11 | Feeding the result back in as the environment value gives the same URL. |
| DatabaseUrl.UnsetGivesSqlite | backend/app/core/database.py:7-16 | An unset or empty value gives `sqlite:///` + base_dir + `/data/password_manager.db`. |
| Redis.Server.Exists | backend/rate_limiter.py:51 | `EXISTS` answers whether the key is live at `now`. A key is live exactly when `GET` finds it and exactly when `TTL` does not answer −2. |
| Redis.Server.Ttl | backend/rate_limiter.py:52 | `TTL` answers −2 exactly for a key that is not live and −1 exactly for a live key without expiry. For a live key with an expiry it answers at least 1, and now plus the answer is the expiry instant. |
| Redis.Server.Get | backend/rate_limiter.py:59 | `GET` answers nothing exactly for a key that is not live, and otherwise the stored counter. |
| Redis.SetExThenRead | backend/rate_limiter.py:51-79 | After `SETEX key seconds value` with at least one second, `GET` answers the value and `TTL` the seconds, and every other key reads as before. |
| Redis.Server.SetEx | backend/rate_limiter.py:75-79 | `SETEX` stores the value with an expiry `seconds` from now. |
| Redis.Server.Incr | backend/rate_limiter.py:138 | `INCR` answers the old value + 1, or 1 for a dead key, and keeps a live key's expiry. |
| Redis.Server.Expire | backend/rate_limiter.py:139-140 | `EXPIRE` gives only a live key the new expiry. |
| Redis.Server.Delete | backend/rate_limiter.py:162 | `DEL` removes exactly the keys named. |
| RateLimiter.LoginCheck | backend/rate_limiter.py:42-80 | Refused exactly when a lockout is live or the attempts have reached the limit, and a refusal leaves a live lockout. An allowed check answers True and raises the count by one, to at most the limit. |
| RateLimiter.LoginRateLimiter.CheckRateLimit | backend/rate_limiter.py:42-80 | The verdict and the new store are those of `LoginCheck`. The variant at backend/app/utils/rate_limiter.py:43-81 is the same code with limit 15. |
| RateLimiter.LoginRateLimiter.ResetAttempts | backend/rate_limiter.py:82-88 | Deletes only the attempts key. Same in backend/app/utils/rate_limiter.py:83-89. |
| RateLimiter.LoginKeysDiffer | backend/rate_limiter.py:47-48 | The attempts key and the lockout key never coincide. |
| RateLimiter.LoginLockoutRefuses | backend/rate_limiter.py:51-56 | While the lockout key lives, every check is refused with its TTL and nothing is written. |
| RateLimiter.LoginBurstPasses | backend/rate_limiter.py:60-80 | From a clean state, up to the limit of checks within one window all pass. |
| RateLimiter.LoginLimitThenLockout | backend/rate_limiter.py:62-72 | With limit n, n checks within a window pass and check n+1 is refused with retry-after 900. The lockout then lives for the next 900 seconds. |
| RateLimiter.LoginSixthAttemptRefused | backend/rate_limiter.py:19 | With limit 5, five checks pass and the sixth is refused for 900 seconds. |
| RateLimiter.AppLoginSixteenthAttemptRefused | backend/app/utils/rate_limiter.py:20-22 | With limit 15, fifteen checks pass and the sixteenth is refused for 900 seconds. |
| RateLimiter.LoginResetKeepsLockout | backend/rate_limiter.py:82-88 | Resetting the attempts leaves an active lockout in force. |
| RateLimiter.FailsafeCheck | backend/rate_limiter.py:122-156 | An allowed check answers False ("not limited"), and a refusal leaves a live lockout. Without a live lockout the counter goes up by one. |
| RateLimiter.FailsafeRateLimiter.CheckRateLimit | backend/rate_limiter.py:117-156 | With no store it allows and writes nothing. Otherwise the verdict and the new store are those of `FailsafeCheck`. |
| RateLimiter.FailsafeRateLimiter.Init | backend/rate_limiter.py:114-115 | Stores the client. |
| RateLimiter.FailsafeRateLimiter.ResetAttempts | backend/rate_limiter.py:158-162 | Deletes the counter and the lockout key. |
| RateLimiter.FailsafeKeysDiffer | backend/rate_limiter.py:123-124 | The counter key and the lockout key never coincide. |
| RateLimiter.FailsafeBurstPasses | backend/rate_limiter.py:137-156 | From a clean state, up to five checks in a window are allowed. |
| RateLimiter.FailsafeSixthAttemptLocks | backend/rate_limiter.py:137-154 | Five checks are allowed and the sixth is limited with retry-after 900. The lockout then lives for the next 900 seconds. |
| RateLimiter.AppFailsafeCheck | backend/app/utils/rate_limiter.py:118-142 | Refused exactly when the counter has reached 5, and a refusal writes nothing. An allowed check answers True and raises the counter by one. |
| RateLimiter.AppFailsafeRateLimiter.CheckRateLimit | backend/app/utils/rate_limiter.py:118-142 | With no store, or on a store error, it allows and writes nothing. Otherwise the verdict and the new store are those of `AppFailsafeCheck`. |
| RateLimiter.AppFailsafeRateLimiter.Init | backend/app/utils/rate_limiter.py:114-116 | Stores the client. |
| RateLimiter.AppFailsafeRateLimiter.ResetAttempts | backend/app/utils/rate_limiter.py:144-153 | Deletes the counter; a store error makes it a no-op. |
| RateLimiter.AppFailsafeBurstPasses | backend/app/utils/rate_limiter.py:125-138 | From a clean state, up to five checks pass. Only the counter is written, set to the number of checks with the first check's 300-second expiry. |
| RateLimiter.AppFailsafeSixthAttemptRefused | backend/app/utils/rate_limiter.py:125-138 | The sixth check is refused and no lockout key is written. Once the first window has expired, checks pass again. |
| SqlStore.Database.constructor | backend/app/core/models.py:1-39 | An empty database satisfies the table invariants. |
| SqlStore.ServiceIsStored | backend/app/core/user_manager.py:37-54 | A service is among a user's services iff that (user, service) row exists. |
| SqlStore.AccountsWithout | backend/app/core/user_manager.py:168-169 | The rows left after deleting a user are exactly those of other owners. |
| SqlStore.CascadeSparesOthers | backend/app/core/user_manager.py:168-169 | After deleting a user, it has no services and every other user's services are unchanged. |
| SqlStore.NewUserSalt | backend/app/core/user_manager.py:120-130 | A new row's salt is 64 hex digits that decode back to the 32 bytes drawn. There is no TOTP secret and TOTP is off. |
| SqlStore.HexSaltRoundTrip | backend/app/core/user_manager.py:183-185 | A salt written by `create_user` decodes to its original bytes. |
| SqlStore.NonHexSaltFallsBack | backend/app/core/user_manager.py:186-194 | A salt that is not hex decodes as base64 when that succeeds, and as its UTF-8 bytes otherwise. |
| SqlStore.TotpLifecycle | backend/app/core/user_manager.py:209-211 | The stages go from no secret, to awaiting verification after a new secret, to enabled after verification, to no secret after disabling. The password is untouched throughout. |
| SqlStore.SqlUserManager.KeyOfNewUser | backend/app/core/user_manager.py:185-197 | A user created with salt bytes `s` gets the key derived from exactly `s`. |
| SqlStore.SqlUserManager.PasswordVerdictFailClosed | backend/app/core/user_manager.py:60-108 | The verdict is True exactly when one of the argon2 checks succeeded. Every exception path yields False. |
| SqlStore.SqlUserManager.PasswordVerdict | backend/app/core/user_manager.py:60-108 | A direct argon2 success always gives True. With no row found, only a direct success does. A salted success on the row found also gives True. |
| SqlStore.SqlUserManager.VerifyPassword | backend/app/core/user_manager.py:60-108 | The ghost result `picked` is the row the lookup by hash took: none exactly when no row holds that hash. The answer is `PasswordVerdict` for that row. A direct argon2 success gives True, and True implies a direct success or a salted success for a row holding that hash. |
| SqlStore.SqlUserManager.CreateUser | backend/app/core/user_manager.py:110-138 | A taken name gives False with nothing written. Otherwise the row with a fresh id and a hex salt is added and the table invariants hold. |
| SqlStore.SqlUserManager.Login | backend/app/core/user_manager.py:140-158 | An unknown user fails. Otherwise the answer is `PasswordVerdict` for the row the hash lookup took. When the user is the only row with that hash, success holds iff the password verifies directly or with the user's salt. Only success sets the current user and master password. |
| SqlStore.SqlUserManager.DeleteUser | backend/app/core/user_manager.py:160-173 | Removes exactly that user and its accounts; False for an unknown user. |
| SqlStore.SqlUserManager.GetEncryptionKey | backend/app/core/user_manager.py:175-198 | None for an unknown user. Otherwise the key from the master password and the decoded salt; it raises without a master password. |
| SqlStore.SqlUserManager.GenerateTotpSecret | backend/app/core/user_manager.py:200-217 | An unknown user gets None with no change. Otherwise the secret is replaced and TOTP is forced off. |
| SqlStore.SqlUserManager.VerifyTotp | backend/app/core/user_manager.py:253-272 | True iff the user has a secret and the token is the current step's code. Success sets TOTP on; failure changes nothing. |
| SqlStore.SqlUserManager.IsTotpEnabled | backend/app/core/user_manager.py:274-285 | True iff the user exists with TOTP on. |
| SqlStore.SqlUserManager.DisableTotp | backend/app/core/user_manager.py:287-301 | Clears the flag and the secret; False with no change for an unknown user. |
| SqlAccounts.SqlAccountManager.GetAccounts | backend/app/core/account_manager.py:28-53 | Empty for an unknown user or one without accounts. Otherwise every service of the user with its password decrypted under the master key. It raises without a master password. |
| SqlAccounts.OpenedRoundTrip | backend/app/core/account_manager.py:44-50 | A password stored encrypted comes back in clear for any encryption pair that round-trips. |
| SqlAccounts.SqlAccountManager.CheckPasswordAge | backend/app/core/account_manager.py:55-84 | Lists (service, days_old) exactly for the user's accounts with last_changed strictly before now − 90 days, each service once. |
| SqlAccounts.CutoffMeansNinetyDays | backend/app/core/account_manager.py:64-79 | Past the cutoff the account is at least 90 days old. An account exactly 90 days old is not reported here, while the dict store reports it. |
| SqlAccounts.SqlAccountManager.AddAccount | backend/app/core/account_manager.py:86-148 | Succeeds iff the user exists, the service is new, the key can be derived and the breach check does not raise. On success the row holds the encrypted password, the score, the breach flag and `now`; on failure nothing changes. |
| SqlAccounts.SqlAccountManager.UpdateAccount | backend/app/core/account_manager.py:150-207 | Fails with nothing committed for a missing user or account. It also fails when a new password comes without a key or the breach check raises. Otherwise only the supplied fields change, and a new password also renews the timestamp, score and breach flag. |
| SqlAccounts.SqlAccountManager.DeleteAccount | backend/app/core/account_manager.py:209-232 | Removes exactly that row, and is True iff it existed. |
| Auth.Login | backend/app/api/auth.py:266-306 | The reply is a token, a request for the TOTP code, or a 401. A token names the user and carries its id. The TOTP request comes only for a known user with TOTP on and no code. A 401 carries "Incorrect username or password" or "Invalid TOTP code". |
| Auth.LoginHidesWhichCredentialFailed | backend/app/api/auth.py:275-282 | An unknown user and a wrong password get the same 401 "Incorrect username or password". |
| Auth.LoginSecondPhase | backend/app/api/auth.py:284-296 | With TOTP on and a right password, no code gives "2fa_required", and a wrong code gives 401 "Invalid TOTP code". |
| Auth.LoginTokenIffAuthenticated | backend/app/api/auth.py:275-306 | A token is issued iff the password verifies and either TOTP is off or the code is accepted. Its subject is the username and it carries the user's id. |
| Auth.WithResetToken | backend/app/api/auth.py:169-171 | The row carries the token, valid now and expired one lifetime plus a second later. All other fields are unchanged. |
| Auth.AuthApi.Setup2fa | backend/app/api/auth.py:67-91 | 403 when the caller's id differs, with no change. Otherwise the secret is replaced and the enabled flag left as it is. |
| Auth.AuthApi.Verify2faSetup | backend/app/api/auth.py:94-117 | No secret gives 400 "2FA not initialized", and a rejected code gives 400 "Invalid verification code", with no change. Success holds iff the code is accepted and only turns TOTP on. |
| Auth.AuthApi.Disable2fa | backend/app/api/auth.py:120-144 | TOTP off gives 400, and a rejected code gives 400, with no change. Success holds iff TOTP is on and the code is accepted, and clears the flag and the secret. |
| Auth.AuthApi.ForgotPassword | backend/app/api/auth.py:148-198 | The same success message in every case. The ghost result `picked` is the row the lookup returned: none exactly when no user answers to the name or email. Only a picked user with an email is written. It gets a fresh 64-character token expiring one minute later, and nothing else changes. |
| Auth.AuthApi.ValidateResetToken | backend/app/api/auth.py:201-218 | The ghost result `picked` is the row the lookup by token took: none exactly when no row holds the token. No row, or an expired token, gives 400 "Invalid or expired token". A live token gives the holder's name and 2FA flag. When no holder's token is live, the answer is 400. |
| Auth.AuthApi.CompletePasswordReset | backend/app/api/auth.py:221-263 | The ghost result `picked` is the row the lookup by token took: none exactly when no row holds the token. No row or an expired token gives 400 "Invalid or expired token". With TOTP on, a missing code gives 400 "TOTP code required for 2FA-enabled accounts" and a rejected code gives 400 "Invalid TOTP code". Every failure changes nothing. A live token with TOTP off or an accepted code gives "Password reset successful". It sets the new hash and salt and spends the token on that row, and nothing else changes. |

## Left out

- File persistence: `users.json`, the `.salt` and `.key` files and Fernet encryption of the user file in backend/password_manager.py. Loading is the constructor's argument and saving is not modelled.
- The command-line loop `main` of src/password_manager.py. It is console I/O.
- `validate_master_password` and the encryption setup of backend/password_manager.py. They are file and key I/O around the store.
- SHA-1, SHA-256, Argon2, PBKDF2, Fernet, base64 and the pyotp code generator are left uninterpreted (function parameters). Apart from being deterministic functions, no law about them is assumed. The randomness of argon2 salts and Fernet IVs is therefore not captured.
- The HTTP request of the breach check is a function from URL to reply. Timeouts and retries are not modelled.
- `security.py` is not part of this model. Password hashing, password checking, access-token creation and the authenticated caller of the two-factor endpoints are parameters. The caller is a stored username.
- Whether the caller's row belongs to the endpoint's database session is not modelled. The two-factor endpoints write through to the same table.
- The reset e-mail, the provisioning URI and the QR code are library rendering and I/O.
- HTTP wiring, the routers, the Redis connection setup, the lazy client creation and the async plumbing are not modelled.
- Database exceptions (for example a unique-constraint violation) are not modelled; every write succeeds.
- User ids come from a counter that only grows. With the default SQLite database, `autoincrement=True` on the primary key does not emit AUTOINCREMENT, so the largest id may be reused after its row is deleted. The model does not capture that reuse.
- Timestamps are whole seconds; microseconds and the ISO formatting of `last_changed` are left out.
- `Auth.AuthApi.ForgotPassword`, `Auth.AuthApi.ValidateResetToken` and `Auth.AuthApi.CompletePasswordReset`: `.first()` on a non-key column returns some matching row. The order in which the database returns rows is not modelled, so that row is an arbitrary match, named by the ghost result `picked`.
- `SqlStore.SqlUserManager.VerifyPassword` and `SqlStore.SqlUserManager.Login`: `.first()` on the password hash picks any matching row. The contracts name that row through the ghost result `picked`, but they do not say which of several rows with the same hash it is.
- `SqlAccounts.SqlAccountManager.CheckPasswordAge`: the order in which the query yields rows is not modelled. The contract gives membership and distinctness, not order.
- Accounts are keyed by (owner, service), so the model assumes at most one row per service per user. The source enforces this in `add_account` but not in the schema.
- The reset-token lifetime follows the code, one minute. The docstring and the e-mail text say 30 minutes.
- `SqlStore.SqlUserManager.VerifyTotp`: pyotp's default window of 0 (the current step only) is modelled. pyotp's normalisation of the token before comparison is not.
- `Totp.VerifyTotp`: pyotp compares the token with the code through `strings_equal`, which NFKC-normalises both. A token in full-width digits is accepted by the source but rejected by the model. The same holds for everything that uses it: `Auth.TotpAccepts`, login, the two-factor endpoints and the password reset.
- Redis values are integers. Strings that `int()` cannot read are not modelled.
- The 429 reply of the failsafe limiter inside the application package says "Try again in 15.0 minutes". The model carries it as a retry-after of 900 seconds.
- The digit class of the strength check is ASCII `0-9`. Python's `\d` also matches other Unicode decimal digits.
- `int()` on the count field reads an optional sign and decimal digits. Surrounding whitespace and underscores, which Python also accepts, are read as malformed.
- backend/password_manager.py and src/password_manager.py are modelled once (`DictStore`, `PasswordAnalysis`). src/password_manager.py has no `check_password_age`; the model's `CheckPasswordAge` is the backend copy's.
