/**
 * `TwoFactorAuth.verify_totp` and the `PasswordReset` helpers: time-based
 * one-time passwords as in RFC 6238 and 64-character password-reset tokens.
 * The one-time code itself (HOTP truncation over HMAC-SHA1, section 4 of
 * RFC 6238) is the parameter `code(secret, counter)`; randomness is the
 * parameter `rng`; time is a count of whole seconds since the epoch.
 */
module Totp {
  import opened Common
  import opened Text
  import opened PasswordAnalysis

  /** The time step X of section 4 of RFC 6238 (T0 is 0). */
  const StepSeconds: nat := 30

  /** The code a TOTP secret yields at a time-step counter. */
  type CodeFunction = (string, int) -> string

  /** The counter T = floor((now - T0) / X) of section 4 of RFC 6238. */
  function TimeStep(now: nat): (t: nat)
    ensures t * StepSeconds <= now < (t + 1) * StepSeconds
  {
    now / StepSeconds
  }

  /**
   * `verify_totp(secret, token)` at time `now`: an empty secret or token is
   * refused; otherwise the token is checked against the steps T-1, T and T+1
   * (`valid_window=1`), in that order.
   */
  function VerifyTotp(code: CodeFunction, secret: string, token: string, now: nat): (ok: bool)
    ensures secret == "" || token == "" ==> !ok
    ensures ok <==> secret != "" && token != ""
                    && exists step :: TimeStep(now) - 1 <= step <= TimeStep(now) + 1 && token == code(secret, step)
  {
    var t: int := TimeStep(now);
    if secret == "" || token == "" then false
    else
      var ok := token == code(secret, t - 1) || token == code(secret, t) || token == code(secret, t + 1);
      ok
  }

  /** The verdict depends on the codes of the three steps around `now` and on nothing else. */
  lemma VerdictDependsOnlyOnWindow(code: CodeFunction, code': CodeFunction, secret: string, token: string, now: nat)
    requires forall step :: TimeStep(now) - 1 <= step <= TimeStep(now) + 1 ==> code(secret, step) == code'(secret, step)
    ensures VerifyTotp(code, secret, token, now) == VerifyTotp(code', secret, token, now)
  {
    var t: int := TimeStep(now);
    assert code(secret, t - 1) == code'(secret, t - 1);
    assert code(secret, t) == code'(secret, t);
    assert code(secret, t + 1) == code'(secret, t + 1);
  }

  /**
   * A code shown at time `shown` is still accepted at any `now` at most 30
   * seconds away, since the two instants are at most one step apart.
   */
  lemma DriftOfOneStepTolerated(code: CodeFunction, secret: string, shown: nat, now: nat)
    requires secret != "" && code(secret, TimeStep(shown)) != ""
    requires shown <= now + StepSeconds && now <= shown + StepSeconds
    ensures VerifyTotp(code, secret, code(secret, TimeStep(shown)), now)
  {
    assert TimeStep(now) - 1 <= TimeStep(shown) <= TimeStep(now) + 1;
  }

  /** `string.ascii_letters + string.digits` */
  const TokenAlphabet: string := LowercaseLetters + UppercaseLetters + DigitChars
  const ResetTokenLength: nat := 64

  predicate IsAsciiAlnum(c: char)
  {
    IsAsciiLower(c) || IsAsciiUpper(c) || IsAsciiDigit(c)
  }

  lemma TokenAlphabetIsAlnum(c: char)
    ensures c in TokenAlphabet <==> IsAsciiAlnum(c)
  {
    InCharRange('a', 26, c);
    InCharRange('A', 26, c);
    InCharRange('0', 10, c);
    assert c in TokenAlphabet <==> c in LowercaseLetters || c in UppercaseLetters || c in DigitChars;
  }

  /** `generate_reset_token`: 64 characters of the alphabet, the k-th chosen by `rng(k)`. */
  function GenerateResetToken(rng: nat -> nat): (t: string)
    ensures |t| == ResetTokenLength
    ensures forall k :: 0 <= k < |t| ==> IsAsciiAlnum(t[k])
  {
    var t := seq(ResetTokenLength, k requires 0 <= k < ResetTokenLength => TokenAlphabet[rng(k) % |TokenAlphabet|]);
    assert forall k :: 0 <= k < |t| ==> IsAsciiAlnum(t[k]) by {
      forall k | 0 <= k < |t| ensures IsAsciiAlnum(t[k]) {
        TokenAlphabetIsAlnum(t[k]);
      }
    }
    t
  }

  /** The reset-token lifetime: `timedelta(minutes=1)`. */
  const ResetTokenLifetime: nat := 60

  /** `get_token_expiration` at time `now`. */
  function TokenExpiration(now: int): int
  {
    now + ResetTokenLifetime
  }

  /** `is_token_valid(expiration_time)` at time `now`; a missing expiry is invalid. */
  predicate IsTokenValid(expires: Option<int>, now: int)
  {
    expires.Some? && now <= expires.value
  }

  /** A token issued at `issued` is valid up to and including one minute later, and never after. */
  lemma IssuedTokenValidity(issued: int, now: int)
    ensures IsTokenValid(Some(TokenExpiration(issued)), now) <==> now <= issued + 60
    ensures IsTokenValid(Some(TokenExpiration(issued)), issued + 60)
    ensures !IsTokenValid(Some(TokenExpiration(issued)), issued + 61)
    ensures !IsTokenValid(None, now)
  {
  }
}
