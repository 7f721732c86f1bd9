/**
 Properties of the handlers that relate more than one call: what a second
 presentation of a consumed credential gets, where the expiry windows end,
 which arguments the outcome does not depend on, and what a later login sees.
 */
module Properties {
  import opened Rows
  import opened Accounts
  import opened Views

  /** `verify_otp` never compares the presented code: any two codes get the same outcome. */
  lemma VerifyOtpIgnoresCode(s: Store, now: Time, uid: UserId, otp: int, other: int)
    ensures VerifyOtp(s, now, uid, otp) == VerifyOtp(s, now, uid, other)
  {
  }

  /**
   The 5-minute window includes its end: the user's only code is accepted when
   exactly 5 minutes old (if it is a `verify` code) and refused as expired one
   microsecond later, whatever its type, with the code kept.
   */
  lemma VerifyOtpWindowEnd(s: Store, uid: UserId, otp: int, i: int, k: int)
    requires UserRow(s, uid, i) && IsOnlyMatch(s.verificationTokens, OfUser(uid), k)
    ensures var t := s.verificationTokens[k];
            t.tokenType == Verify ==> VerifyOtp(s, t.createdAt + VerifyWindow, uid, otp).response == EmailVerified
    ensures var t := s.verificationTokens[k];
            VerifyOtp(s, t.createdAt + VerifyWindow + 1, uid, otp) == Step(OtpExpired, s)
  {
  }

  /** A verification code works once: after it is accepted, the next attempt finds no code at all. */
  lemma VerifyOtpConsumes(s: Store, now: Time, uid: UserId, otp: int, later: Time, again: int)
    requires VerifyOtp(s, now, uid, otp).response == EmailVerified
    ensures var s' := VerifyOtp(s, now, uid, otp).store;
            VerifyOtp(s', later, uid, again) == Step(NoOtpFound, s')
  {
  }

  /**
   Re-issuing never removes earlier codes, and `verify_otp` looks the code up
   with `.get()` by user: once a second code is filed for a user who still has
   one pending, verification fails with a server error whatever is presented.
   */
  lemma ResendWhilePendingBlocksVerification(s: Store, now: Time, uid: UserId, entropy: nat,
                                             later: Time, otp: int, i: int)
    requires UserRow(s, uid, i) && !s.users[i].isVerified
    requires !NoMatch(s.verificationTokens, OfUser(uid))
    ensures var s' := SendVerification(s, now, uid, entropy).store;
            VerifyOtp(s', later, uid, otp) == Step(ServerError, s')
  {
    var s' := SendVerification(s, now, uid, entropy).store;
    var a :| 0 <= a < |s.verificationTokens| && OfUser(uid)(s.verificationTokens[a]);
    var b := |s.verificationTokens|;
    assert s'.verificationTokens[a] == s.verificationTokens[a];
    assert s'.verificationTokens[b] == NewCode(uid, entropy, Verify, now);
    assert TwoMatches(s'.verificationTokens, OfUser(uid));
    assert s'.users == s.users;
    assert UserRow(s', uid, i);
  }

  /** `verify_forgot_otp` ignores its `new_password` field. */
  lemma VerifyForgotOtpIgnoresPassword(s: Store, now: Time, otp: int, resetToken: string, p: string, q: string)
    ensures VerifyForgotOtp(s, now, otp, p, resetToken) == VerifyForgotOtp(s, now, otp, q, resetToken)
  {
  }

  /**
   The 2-minute window of a `forgot` code includes its end (when the code's
   owner exists), and a code one microsecond past it is refused as expired and
   kept.
   */
  lemma VerifyForgotOtpWindowEnd(s: Store, otp: int, p: string, resetToken: string, k: int, i: int)
    requires IsOnlyMatch(s.verificationTokens, ByOtp(otp), k)
    ensures var t := s.verificationTokens[k];
            t.tokenType == Forgot && UserRow(s, t.user, i) ==>
              VerifyForgotOtp(s, t.createdAt + ForgotWindow, otp, p, resetToken).response == ResetIssued(resetToken)
    ensures var t := s.verificationTokens[k];
            VerifyForgotOtp(s, t.createdAt + ForgotWindow + 1, otp, p, resetToken) == Step(OtpExpired, s)
  {
  }

  /** A forgot-password code works once: presenting it again is an unknown token. */
  lemma VerifyForgotOtpConsumes(s: Store, now: Time, otp: int, p: string, resetToken: string,
                                later: Time, p': string, resetToken': string)
    requires VerifyForgotOtp(s, now, otp, p, resetToken).response.ResetIssued?
    ensures var s' := VerifyForgotOtp(s, now, otp, p, resetToken).store;
            VerifyForgotOtp(s', later, otp, p', resetToken') == Step(InvalidToken, s')
  {
  }

  /**
   The 10-minute window of a reset token includes its end (when the token's
   owner exists); one microsecond later it is refused and kept.
   */
  lemma ResetForgotPasswordWindowEnd(cfg: Config, s: Store, token: string, newPassword: string, k: int, i: int)
    requires IsOnlyMatch(s.resetTokens, ByResetToken(token), k)
    ensures var t := s.resetTokens[k];
            UserRow(s, t.user, i) ==>
              ResetForgotPassword(cfg, s, t.createdAt + ResetWindow, token, newPassword).response == PasswordReset
    ensures var t := s.resetTokens[k];
            ResetForgotPassword(cfg, s, t.createdAt + ResetWindow + 1, token, newPassword) == Step(OtpExpired, s)
  {
  }

  /** A reset token works once: presenting it again is an unknown token. */
  lemma ResetForgotPasswordConsumes(cfg: Config, s: Store, now: Time, token: string, newPassword: string,
                                    later: Time, other: string)
    requires ResetForgotPassword(cfg, s, now, token, newPassword).response == PasswordReset
    ensures var s' := ResetForgotPassword(cfg, s, now, token, newPassword).store;
            ResetForgotPassword(cfg, s', later, token, other) == Step(InvalidToken, s')
  {
  }

  /**
   Whatever the hasher, `reset_password` refuses a new password equal to the
   current one: it passes the current-password check only if it also fails
   the "must differ" check.
   */
  lemma ResetPasswordRejectsSamePassword(cfg: Config, s: Store, uid: UserId, password: string)
    ensures ResetPassword(cfg, s, uid, password, password).store == s
    ensures ResetPassword(cfg, s, uid, password, password).response != PasswordChanged
  {
  }

  /**
   After `reset_password` succeeds, an identifier that selected the user still
   selects it, the new password logs in, and any password that does not check
   against the new hash is refused.
   */
  lemma LoginAfterPasswordChange(cfg: Config, s: Store, uid: UserId, current: string, newPassword: string,
                                 identifier: string, i: int, other: string)
    requires Sound(cfg.hasher)
    requires UserRow(s, uid, i) && IsFirstMatch(s.users, ByLogin(identifier), i)
    requires ResetPassword(cfg, s, uid, current, newPassword).response == PasswordChanged
    requires !cfg.hasher.check(other, cfg.hasher.make(newPassword))
    ensures var s' := ResetPassword(cfg, s, uid, current, newPassword).store;
            && Login(cfg, s', identifier, newPassword).response == SessionIssued(uid, s.users[i].roles)
            && Login(cfg, s', identifier, other).response == InvalidCredentials
  {
    var s' := ResetPassword(cfg, s, uid, current, newPassword).store;
    assert s'.users == s.users[i := s.users[i].(password := cfg.hasher.make(newPassword))];
    assert IsFirstMatch(s'.users, ByLogin(identifier), i);
    assert cfg.hasher.check(newPassword, s'.users[i].password);
  }

  /** Login does not look at the verification flag: a just-registered user can log in at once. */
  lemma RegisteredUserCanLogIn(cfg: Config, s: Store, now: Time, entropy: nat, form: UserForm)
    requires Sound(cfg.hasher)
    requires Register(cfg, s, now, entropy, form).response.Registered?
    requires NoMatch(s.users, ByEmail(form.username))
    ensures var r := Register(cfg, s, now, entropy, form);
            && !r.response.created.isVerified
            && Login(cfg, r.store, form.username, form.password).response == SessionIssued(r.response.created.id, {})
  {
    var r := Register(cfg, s, now, entropy, form);
    var n := |s.users|;
    assert r.store.users[n] == r.response.created;
    assert IsFirstMatch(r.store.users, ByLogin(form.username), n);
  }

  /**
   `register` checks a username only against usernames, and `login` takes the
   first user whose username or email matches. So a user registered with an
   earlier user's email as username never gets a session by that username,
   whatever password is presented.
   */
  lemma UsernameShadowedByEmail(cfg: Config, s: Store, now: Time, entropy: nat, form: UserForm,
                                i: int, password: string)
    requires 0 <= i < |s.users| && s.users[i].email == form.username
    requires Register(cfg, s, now, entropy, form).response.Registered?
    ensures var r := Register(cfg, s, now, entropy, form);
            var login := Login(cfg, r.store, form.username, password).response;
            !(login.SessionIssued? && login.user == r.response.created.id)
  {
    var r := Register(cfg, s, now, entropy, form);
    var j := First(s.users, ByLogin(form.username)).value;
    assert IsFirstMatch(r.store.users, ByLogin(form.username), j);
  }

  /**
   The mirror case: `register` checks an email only against emails, so a user
   registered with an earlier user's username as email never gets a session by
   that email, whatever password is presented.
   */
  lemma EmailShadowedByUsername(cfg: Config, s: Store, now: Time, entropy: nat, form: UserForm,
                                i: int, password: string)
    requires 0 <= i < |s.users| && s.users[i].username == form.email
    requires Register(cfg, s, now, entropy, form).response.Registered?
    ensures var r := Register(cfg, s, now, entropy, form);
            var login := Login(cfg, r.store, form.email, password).response;
            !(login.SessionIssued? && login.user == r.response.created.id)
  {
    var r := Register(cfg, s, now, entropy, form);
    var j := First(s.users, ByLogin(form.email)).value;
    assert IsFirstMatch(r.store.users, ByLogin(form.email), j);
  }

  /** Logging out twice with the same token is the same as logging out once. */
  lemma LogoutIdempotent(s: Store, uid: UserId, accessToken: string)
    ensures var s' := Logout(s, uid, accessToken).store;
            && NoMatch(s'.sessions, SessionOf(uid, accessToken))
            && Logout(s', uid, accessToken) == Logout(s, uid, accessToken)
  {
    DeleteIdempotent(s.sessions, SessionOf(uid, accessToken));
  }

  /**
   After a refresh, logging out with the new access token revokes every
   session row of that user holding the refresh token.
   */
  lemma RefreshThenLogoutRevokes(s: Store, refreshToken: string, payload: TokenPayload, accessToken: string)
    ensures var s' := GetAccessToken(s, refreshToken, Some(payload), accessToken).store;
            NoMatch(Logout(s', payload.user, accessToken).store.sessions, RefreshOf(payload.user, refreshToken))
  {
    var s' := GetAccessToken(s, refreshToken, Some(payload), accessToken).store;
    var rest := Logout(s', payload.user, accessToken).store.sessions;
    forall j | 0 <= j < |rest|
      ensures !RefreshOf(payload.user, refreshToken)(rest[j])
    {
      var x := rest[j];
      assert x in rest;
      assert x in s'.sessions && !SessionOf(payload.user, accessToken)(x);
      var m :| 0 <= m < |s'.sessions| && s'.sessions[m] == x;
      assert m < |s.sessions|;
    }
  }
}
