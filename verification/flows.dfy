/**
 End-to-end account flows, each a sequence of handler calls on a well-formed
 store: registration followed by email verification, and the three-step
 forgotten-password flow followed by a login.
 */
module Flows {
  import opened Rows
  import opened Otp
  import opened Accounts
  import opened Views

  /**
   Register, then present the emailed code within 5 minutes: the new user is
   verified, and asking for another verification email is refused.
   */
  lemma RegisterThenVerify(cfg: Config, s: Store, now: Time, entropy: nat, form: UserForm,
                           later: Time, otp: int, resendAt: Time, resendEntropy: nat)
    requires WellFormed(s)
    requires Register(cfg, s, now, entropy, form).response.Registered?
    requires later <= now + VerifyWindow
    ensures var r1 := Register(cfg, s, now, entropy, form);
            var uid := r1.response.created.id;
            var r2 := VerifyOtp(r1.store, later, uid, otp);
            && r2.response == EmailVerified
            && r2.store.users == s.users + [r1.response.created.(isVerified := true)]
            && SendVerification(r2.store, resendAt, uid, resendEntropy) == Step(AlreadyVerified, r2.store)
  {
    var r1 := Register(cfg, s, now, entropy, form);
    var u := r1.response.created;
    var n, m := |s.users|, |s.verificationTokens|;
    assert r1.store.users[n] == u;
    forall j | 0 <= j < n
      ensures r1.store.users[j].id != u.id
    {
      assert r1.store.users[j] == s.users[j];
      assert s.users[j].id in UserIds(s.users);
    }
    assert UserRow(r1.store, u.id, n);
    forall j | 0 <= j < m
      ensures r1.store.verificationTokens[j].user != u.id
    {
      assert r1.store.verificationTokens[j] == s.verificationTokens[j];
      assert s.verificationTokens[j] in s.verificationTokens;
    }
    assert r1.store.verificationTokens[m] == NewCode(u.id, entropy, Verify, now);
    assert IsOnlyMatch(r1.store.verificationTokens, OfUser(u.id), m);
    var r2 := VerifyOtp(r1.store, later, u.id, otp);
    assert r2.store.users == r1.store.users[n := u.(isVerified := true)];
    assert UserRow(r2.store, u.id, n);
  }

  /**
   The forgotten-password flow: request a code by email, present it within
   2 minutes, present the reset token within 10 minutes; afterwards the new
   password logs in and a password that does not check against its hash does
   not. The fresh code and the fresh reset token must not collide with rows
   already stored, or the look-ups by value would find several rows.
   */
  lemma ForgotPasswordFlow(cfg: Config, s: Store, i: int, t0: Time, entropy: nat,
                           t1: Time, ignored: string, resetToken: string,
                           t2: Time, newPassword: string, identifier: string, other: string)
    requires WellFormed(s) && Sound(cfg.hasher)
    requires 0 <= i < |s.users|
    requires NoMatch(s.verificationTokens, ByOtp(OtpGenerator(OtpLength, entropy)))
    requires NoMatch(s.resetTokens, ByResetToken(resetToken))
    requires t0 <= t1 <= t0 + ForgotWindow && t1 <= t2 <= t1 + ResetWindow
    requires IsFirstMatch(s.users, ByLogin(identifier), i)
    requires !cfg.hasher.check(other, cfg.hasher.make(newPassword))
    ensures var code := OtpGenerator(OtpLength, entropy);
            var r1 := ForgotPassword(s, t0, s.users[i].email, entropy);
            var r2 := VerifyForgotOtp(r1.store, t1, code, ignored, resetToken);
            var r3 := ResetForgotPassword(cfg, r2.store, t2, resetToken, newPassword);
            && r1.response == EmailSent
            && r2.response == ResetIssued(resetToken)
            && r3.response == PasswordReset
            && Login(cfg, r3.store, identifier, newPassword).response == SessionIssued(s.users[i].id, s.users[i].roles)
            && Login(cfg, r3.store, identifier, other).response == InvalidCredentials
  {
    var u := s.users[i];
    var code := OtpGenerator(OtpLength, entropy);
    assert IsFirstMatch(s.users, ByEmail(u.email), i);
    var r1 := ForgotPassword(s, t0, u.email, entropy);
    var m := |s.verificationTokens|;
    assert r1.store.verificationTokens[m] == NewCode(u.id, entropy, Forgot, t0);
    assert IsOnlyMatch(r1.store.verificationTokens, ByOtp(code), m);
    assert UserRow(r1.store, u.id, i);
    var r2 := VerifyForgotOtp(r1.store, t1, code, ignored, resetToken);
    var q := |s.resetTokens|;
    assert r2.store.resetTokens[q] == ResetFormToken(u.id, resetToken, t1);
    assert IsOnlyMatch(r2.store.resetTokens, ByResetToken(resetToken), q);
    assert r2.store.users == s.users;
    assert UserRow(r2.store, u.id, i);
    var r3 := ResetForgotPassword(cfg, r2.store, t2, resetToken, newPassword);
    assert r3.store.users == s.users[i := u.(password := cfg.hasher.make(newPassword))];
    assert IsFirstMatch(r3.store.users, ByLogin(identifier), i);
    assert cfg.hasher.check(newPassword, r3.store.users[i].password);
  }
}
