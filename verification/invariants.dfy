/**
 Every handler keeps the store well formed: users stay in ascending id
 order, ids, usernames and emails stay unique across users, and every token
 and session row still points at an existing user. Registration is the only handler that adds a user, and it is
 the handler whose uniqueness checks make the invariant hold.
 */
module Invariants {
  import opened Rows
  import opened Accounts
  import opened Views

  /** Rewriting users in place without touching ids, usernames or emails keeps the user table's invariant. */
  lemma SameKeys(s: Store, s': Store)
    requires WellFormed(s)
    requires |s'.users| == |s.users|
    requires forall j :: 0 <= j < |s.users| ==>
               && s'.users[j].id == s.users[j].id
               && s'.users[j].username == s.users[j].username
               && s'.users[j].email == s.users[j].email
    requires forall t :: t in s'.verificationTokens ==> t in s.verificationTokens
    requires forall t :: t in s'.resetTokens ==> t in s.resetTokens || t.user in UserIds(s.users)
    requires forall t :: t in s'.sessions ==> t.user in UserIds(s.users)
    ensures WellFormed(s')
  {
  }

  lemma RegisterKeepsWellFormed(cfg: Config, s: Store, now: Time, entropy: nat, form: UserForm)
    requires WellFormed(s)
    ensures WellFormed(Register(cfg, s, now, entropy, form).store)
  {
  }

  lemma SendVerificationKeepsWellFormed(s: Store, now: Time, uid: UserId, entropy: nat)
    requires WellFormed(s)
    ensures WellFormed(SendVerification(s, now, uid, entropy).store)
  {
  }

  lemma VerifyOtpKeepsWellFormed(s: Store, now: Time, uid: UserId, otp: int)
    requires WellFormed(s)
    ensures WellFormed(VerifyOtp(s, now, uid, otp).store)
  {
    var r := VerifyOtp(s, now, uid, otp);
    if r.store != s {
      var k := Get(s.verificationTokens, OfUser(uid)).index;
      assert r.store.verificationTokens == RemoveAt(s.verificationTokens, k);
      forall t | t in r.store.verificationTokens
        ensures t in s.verificationTokens
      {
        assert t in multiset(r.store.verificationTokens);
      }
      SameKeys(s, r.store);
    }
  }

  lemma LoginKeepsWellFormed(cfg: Config, s: Store, identifier: string, password: string)
    requires WellFormed(s)
    ensures WellFormed(Login(cfg, s, identifier, password).store)
  {
  }

  lemma LogoutKeepsWellFormed(s: Store, uid: UserId, accessToken: string)
    requires WellFormed(s)
    ensures WellFormed(Logout(s, uid, accessToken).store)
  {
  }

  lemma GetAccessTokenKeepsWellFormed(s: Store, refreshToken: string, payload: Option<TokenPayload>, accessToken: string)
    requires WellFormed(s)
    ensures WellFormed(GetAccessToken(s, refreshToken, payload, accessToken).store)
  {
  }

  lemma ResetPasswordKeepsWellFormed(cfg: Config, s: Store, uid: UserId, current: string, newPassword: string)
    requires WellFormed(s)
    ensures WellFormed(ResetPassword(cfg, s, uid, current, newPassword).store)
  {
    var r := ResetPassword(cfg, s, uid, current, newPassword);
    if r.store != s {
      SameKeys(s, r.store);
    }
  }

  lemma ForgotPasswordKeepsWellFormed(s: Store, now: Time, email: string, entropy: nat)
    requires WellFormed(s)
    ensures WellFormed(ForgotPassword(s, now, email, entropy).store)
  {
  }

  lemma VerifyForgotOtpKeepsWellFormed(s: Store, now: Time, otp: int, p: string, resetToken: string)
    requires WellFormed(s)
    ensures WellFormed(VerifyForgotOtp(s, now, otp, p, resetToken).store)
  {
  }

  lemma ResetForgotPasswordKeepsWellFormed(cfg: Config, s: Store, now: Time, token: string, newPassword: string)
    requires WellFormed(s)
    ensures WellFormed(ResetForgotPassword(cfg, s, now, token, newPassword).store)
  {
    var r := ResetForgotPassword(cfg, s, now, token, newPassword);
    if r.store != s {
      forall x | x in r.store.resetTokens
        ensures x in s.resetTokens
      {
        assert x in multiset(r.store.resetTokens);
      }
      SameKeys(s, r.store);
    }
  }
}
