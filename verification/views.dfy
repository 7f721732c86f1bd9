/**
 The account-lifecycle handlers of `users/views.py`, each a pure transition
 from a store, the current time and the request's inputs to a response and the
 store it leaves behind. What the handlers obtain from outside — the
 authenticated user id, random draws, hashing, the password policy, token
 signing — arrives as parameters. Mail delivery is not modelled; only the token
 row a mail announces is.

 Each contract lists the handler's outcomes in the order the handler tests
 them, and says which outcomes leave the store untouched.
 */
module Views {
  import opened Rows
  import opened Otp
  import opened Accounts

  // The responses, with the status code and message the handlers return.
  const UsernameTaken := Reply(400, "username already exists")
  const EmailTaken := Reply(400, "email already exists")
  const WeakPassword := Reply(400, "Password is weak and must contain \n            at least 8 characters, 1 uppercase, 1 lowercase, \n            1 number and 1 special character")
  const AlreadyVerified := Reply(400, "Email already verified")
  const VerificationSent := Reply(200, "Verification email sent")
  const NoOtpFound := Reply(400, "No otp found")
  const OtpExpired := Reply(400, "OTP expired")
  const InvalidOtpType := Reply(400, "Invalid otp type")
  const EmailVerified := Reply(200, "Email verified")
  const InvalidCredentials := Reply(400, "Invalid credentials")
  const LogoutSuccessful := Reply(200, "Logout successful")
  const InvalidToken := Reply(400, "Invalid token")
  const InvalidCurrentPassword := Reply(400, "Invalid current password")
  const InvalidNewPassword := Reply(400, "Invalid new password")
  const PasswordChanged := Reply(200, "Reset password successful")
  const EmailSent := Reply(200, "Email sent")
  const EmailNotFound := Reply(400, "Email not found")
  const PasswordReset := Reply(200, "Password reset successful")

  /** The new verification token row a handler files for `uid`, its code drawn from `entropy`. */
  function NewCode(uid: UserId, entropy: nat, tokenType: TokenType, now: Time): VerificationToken
  {
    VerificationToken(uid, OtpGenerator(OtpLength, entropy), tokenType, now)
  }

  /**
   `register`: rejects a taken username, then a taken email, then a password
   the policy refuses; otherwise creates an unverified user with the hashed
   password and files one `verify` code for it.
   */
  function Register(cfg: Config, s: Store, now: Time, entropy: nat, form: UserForm): (r: Step)
    ensures !NoMatch(s.users, ByUsername(form.username)) ==> r == Step(UsernameTaken, s)
    ensures NoMatch(s.users, ByUsername(form.username)) && !NoMatch(s.users, ByEmail(form.email)) ==>
              r == Step(EmailTaken, s)
    ensures NoMatch(s.users, ByUsername(form.username)) && NoMatch(s.users, ByEmail(form.email))
            && !cfg.passwordPolicy(form.password) ==>
              r == Step(WeakPassword, s)
    ensures r.response.Registered? <==>
              NoMatch(s.users, ByUsername(form.username)) && NoMatch(s.users, ByEmail(form.email))
              && cfg.passwordPolicy(form.password)
    ensures r.response.Registered? ==>
              var u := r.response.created;
              && u.id !in UserIds(s.users)
              && u.username == form.username
              && u.email == form.email
              && u.password == cfg.hasher.make(form.password)
              && !u.isVerified
              && u.roles == {}
              && r.store.users == s.users + [u]
              && r.store.verificationTokens == s.verificationTokens + [NewCode(u.id, entropy, Verify, now)]
              && r.store.resetTokens == s.resetTokens
              && r.store.sessions == s.sessions
  {
    if !Get(s.users, ByUsername(form.username)).Missing? then Step(UsernameTaken, s)
    else if !Get(s.users, ByEmail(form.email)).Missing? then Step(EmailTaken, s)
    else if !cfg.passwordPolicy(form.password) then Step(WeakPassword, s)
    else
      var u := User(FreshUserId(s.users), form.username, form.email, cfg.hasher.make(form.password), false, {});
      Step(Registered(u), s.(users := s.users + [u],
                             verificationTokens := s.verificationTokens + [NewCode(u.id, entropy, Verify, now)]))
  }

  /**
   `send_verification`: for the authenticated user `uid`, refuses when the
   email is already verified, and otherwise files one more `verify` code,
   leaving every earlier code in place.
   */
  function SendVerification(s: Store, now: Time, uid: UserId, entropy: nat): (r: Step)
    ensures (forall i :: !UserRow(s, uid, i)) ==> r == Step(ServerError, s)
    ensures forall i :: UserRow(s, uid, i) && s.users[i].isVerified ==> r == Step(AlreadyVerified, s)
    ensures forall i :: UserRow(s, uid, i) && !s.users[i].isVerified ==>
              && r.response == VerificationSent
              && r.store == s.(verificationTokens := s.verificationTokens + [NewCode(uid, entropy, Verify, now)])
  {
    match Get(s.users, ById(uid))
    case Unique(i) =>
      assert UserRow(s, uid, i);
      if s.users[i].isVerified then Step(AlreadyVerified, s)
      else Step(VerificationSent, s.(verificationTokens := s.verificationTokens + [NewCode(uid, entropy, Verify, now)]))
    case _ => Step(ServerError, s)
  }

  /**
   `verify_otp`: looks up the one verification token of the authenticated
   user — by user only; the presented `otp` is never compared — then tests
   expiry (5 minutes, strict) before type. On acceptance the user becomes
   verified and that token is deleted; every refusal keeps the store.
   */
  function VerifyOtp(s: Store, now: Time, uid: UserId, otp: int): (r: Step)
    ensures (forall i :: !UserRow(s, uid, i)) ==> r == Step(ServerError, s)
    ensures (exists i :: UserRow(s, uid, i)) && NoMatch(s.verificationTokens, OfUser(uid)) ==>
              r == Step(NoOtpFound, s)
    ensures (exists i :: UserRow(s, uid, i)) && TwoMatches(s.verificationTokens, OfUser(uid)) ==>
              r == Step(ServerError, s)
    ensures forall i, k :: UserRow(s, uid, i) && IsOnlyMatch(s.verificationTokens, OfUser(uid), k)
                           && Expired(now, s.verificationTokens[k].createdAt, VerifyWindow) ==>
              r == Step(OtpExpired, s)
    ensures forall i, k :: UserRow(s, uid, i) && IsOnlyMatch(s.verificationTokens, OfUser(uid), k)
                           && !Expired(now, s.verificationTokens[k].createdAt, VerifyWindow)
                           && s.verificationTokens[k].tokenType != Verify ==>
              r == Step(InvalidOtpType, s)
    ensures forall i, k :: UserRow(s, uid, i) && IsOnlyMatch(s.verificationTokens, OfUser(uid), k)
                           && !Expired(now, s.verificationTokens[k].createdAt, VerifyWindow)
                           && s.verificationTokens[k].tokenType == Verify ==>
              && r.response == EmailVerified
              && r.store == s.(users := s.users[i := s.users[i].(isVerified := true)],
                               verificationTokens := RemoveAt(s.verificationTokens, k))
  {
    match Get(s.users, ById(uid))
    case Unique(i) =>
      assert UserRow(s, uid, i);
      (match Get(s.verificationTokens, OfUser(uid))
       case Missing => Step(NoOtpFound, s)
       case Several => Step(ServerError, s)
       case Unique(k) =>
         var t := s.verificationTokens[k];
         if Expired(now, t.createdAt, VerifyWindow) then Step(OtpExpired, s)
         else if t.tokenType != Verify then Step(InvalidOtpType, s)
         else Step(EmailVerified, s.(users := s.users[i := s.users[i].(isVerified := true)],
                                     verificationTokens := RemoveAt(s.verificationTokens, k))))
    case _ => Step(ServerError, s)
  }

  /**
   `login`: takes the first user (in a well-formed store, the one of least id;
   see `Accounts.FirstIsLeastId`) whose username or email equals the
   identifier and issues a session when the password checks against that
   user's hash. Every other case gets one and the same refusal.
   */
  function Login(cfg: Config, s: Store, identifier: string, password: string): (r: Step)
    ensures r.store == s
    ensures r.response.SessionIssued? || r.response == InvalidCredentials
    ensures r.response.SessionIssued? <==>
              exists i :: IsFirstMatch(s.users, ByLogin(identifier), i)
                          && cfg.hasher.check(password, s.users[i].password)
    ensures forall i :: IsFirstMatch(s.users, ByLogin(identifier), i) && r.response.SessionIssued? ==>
              r.response == SessionIssued(s.users[i].id, s.users[i].roles)
  {
    match First(s.users, ByLogin(identifier))
    case Some(i) =>
      if cfg.hasher.check(password, s.users[i].password) then Step(SessionIssued(s.users[i].id, s.users[i].roles), s)
      else Step(InvalidCredentials, s)
    case None => Step(InvalidCredentials, s)
  }

  /**
   `logout`: deletes exactly the session rows of `uid` paired with the
   presented access token, keeps every other row, and always succeeds.
   */
  function Logout(s: Store, uid: UserId, accessToken: string): (r: Step)
    ensures r.response == LogoutSuccessful
    ensures r.store.users == s.users
    ensures r.store.verificationTokens == s.verificationTokens
    ensures r.store.resetTokens == s.resetTokens
    ensures forall x :: x in r.store.sessions <==> x in s.sessions && !SessionOf(uid, accessToken)(x)
    ensures forall x :: !SessionOf(uid, accessToken)(x) ==>
              multiset(r.store.sessions)[x] == multiset(s.sessions)[x]
  {
    Step(LogoutSuccessful, s.(sessions := Delete(s.sessions, SessionOf(uid, accessToken))))
  }

  /**
   `.filter(...).update(access_token=...)` on the session table: every row
   matching `p` gets the new access token and keeps its owner and refresh
   token; every other row is left as it was; no row is added or removed.
   */
  function SetAccess(sessions: seq<SessionToken>, p: SessionToken -> bool, accessToken: string): (r: seq<SessionToken>)
    ensures |r| == |sessions|
    ensures forall j :: 0 <= j < |sessions| && p(sessions[j]) ==>
              && r[j].accessToken == accessToken
              && r[j].user == sessions[j].user
              && r[j].refreshToken == sessions[j].refreshToken
    ensures forall j :: 0 <= j < |sessions| && !p(sessions[j]) ==> r[j] == sessions[j]
  {
    seq(|sessions|, j requires 0 <= j < |sessions| =>
      if p(sessions[j]) then sessions[j].(accessToken := accessToken) else sessions[j])
  }

  /**
   `get_access_token`, store update only: `payload` is what verifying the
   refresh token produced (`None` when it is invalid, expired, or verification
   raised) and `accessToken` the newly signed access token. The session rows of
   that user holding that refresh token get the new access token; the refresh
   token itself is not rotated.
   */
  function GetAccessToken(s: Store, refreshToken: string, payload: Option<TokenPayload>, accessToken: string): (r: Step)
    ensures payload.None? ==> r == Step(InvalidToken, s)
    ensures payload.Some? ==> r.response == AccessRefreshed(accessToken, refreshToken)
    ensures r.store.users == s.users
    ensures r.store.verificationTokens == s.verificationTokens
    ensures r.store.resetTokens == s.resetTokens
    ensures |r.store.sessions| == |s.sessions|
    ensures forall j :: 0 <= j < |s.sessions| ==>
              && r.store.sessions[j].user == s.sessions[j].user
              && r.store.sessions[j].refreshToken == s.sessions[j].refreshToken
    ensures payload.Some? ==> forall j :: 0 <= j < |s.sessions| ==>
              if RefreshOf(payload.value.user, refreshToken)(s.sessions[j])
              then r.store.sessions[j].accessToken == accessToken
              else r.store.sessions[j] == s.sessions[j]
  {
    match payload
    case None => Step(InvalidToken, s)
    case Some(p) =>
      Step(AccessRefreshed(accessToken, refreshToken),
           s.(sessions := SetAccess(s.sessions, RefreshOf(p.user, refreshToken), accessToken)))
  }

  /**
   `reset_password`: for the authenticated user, refuses when the current
   password does not check, then when the new password already checks against
   the stored hash; otherwise stores the hash of the new password.
   */
  function ResetPassword(cfg: Config, s: Store, uid: UserId, currentPassword: string, newPassword: string): (r: Step)
    ensures (forall i :: !UserRow(s, uid, i)) ==> r == Step(ServerError, s)
    ensures forall i :: UserRow(s, uid, i) && !cfg.hasher.check(currentPassword, s.users[i].password) ==>
              r == Step(InvalidCurrentPassword, s)
    ensures forall i :: UserRow(s, uid, i) && cfg.hasher.check(currentPassword, s.users[i].password)
                        && cfg.hasher.check(newPassword, s.users[i].password) ==>
              r == Step(InvalidNewPassword, s)
    ensures forall i :: UserRow(s, uid, i) && cfg.hasher.check(currentPassword, s.users[i].password)
                        && !cfg.hasher.check(newPassword, s.users[i].password) ==>
              && r.response == PasswordChanged
              && r.store == s.(users := s.users[i := s.users[i].(password := cfg.hasher.make(newPassword))])
  {
    match Get(s.users, ById(uid))
    case Unique(i) =>
      assert UserRow(s, uid, i);
      var u := s.users[i];
      if !cfg.hasher.check(currentPassword, u.password) then Step(InvalidCurrentPassword, s)
      else if cfg.hasher.check(newPassword, u.password) then Step(InvalidNewPassword, s)
      else Step(PasswordChanged, s.(users := s.users[i := u.(password := cfg.hasher.make(newPassword))]))
    case _ => Step(ServerError, s)
  }

  /**
   `forgot_password`: files a `forgot` code for the first user with the given
   email, or refuses when there is none.
   */
  function ForgotPassword(s: Store, now: Time, email: string, entropy: nat): (r: Step)
    ensures NoMatch(s.users, ByEmail(email)) ==> r == Step(EmailNotFound, s)
    ensures forall i :: IsFirstMatch(s.users, ByEmail(email), i) ==>
              && r.response == EmailSent
              && r.store == s.(verificationTokens := s.verificationTokens + [NewCode(s.users[i].id, entropy, Forgot, now)])
  {
    match First(s.users, ByEmail(email))
    case Some(i) =>
      Step(EmailSent, s.(verificationTokens := s.verificationTokens + [NewCode(s.users[i].id, entropy, Forgot, now)]))
    case None => Step(EmailNotFound, s)
  }

  /**
   `verify_forgot_otp`: looks the code up by value across all users, tests
   expiry (2 minutes, strict) before type, then reads the code's owner (a
   missing owner raises), and on acceptance files a reset token (`resetToken`,
   the random draw) for that owner and deletes the code. `newPassword` is
   accepted and ignored.
   */
  function VerifyForgotOtp(s: Store, now: Time, otp: int, newPassword: string, resetToken: string): (r: Step)
    ensures NoMatch(s.verificationTokens, ByOtp(otp)) ==> r == Step(InvalidToken, s)
    ensures TwoMatches(s.verificationTokens, ByOtp(otp)) ==> r == Step(ServerError, s)
    ensures forall k :: IsOnlyMatch(s.verificationTokens, ByOtp(otp), k)
                        && Expired(now, s.verificationTokens[k].createdAt, ForgotWindow) ==>
              r == Step(OtpExpired, s)
    ensures forall k :: IsOnlyMatch(s.verificationTokens, ByOtp(otp), k)
                        && !Expired(now, s.verificationTokens[k].createdAt, ForgotWindow)
                        && s.verificationTokens[k].tokenType != Forgot ==>
              r == Step(InvalidOtpType, s)
    ensures forall k :: IsOnlyMatch(s.verificationTokens, ByOtp(otp), k)
                        && !Expired(now, s.verificationTokens[k].createdAt, ForgotWindow)
                        && s.verificationTokens[k].tokenType == Forgot
                        && (forall i :: !UserRow(s, s.verificationTokens[k].user, i)) ==>
              r == Step(ServerError, s)
    ensures forall k, i :: IsOnlyMatch(s.verificationTokens, ByOtp(otp), k)
                           && !Expired(now, s.verificationTokens[k].createdAt, ForgotWindow)
                           && s.verificationTokens[k].tokenType == Forgot
                           && UserRow(s, s.verificationTokens[k].user, i) ==>
              && r.response == ResetIssued(resetToken)
              && r.store == s.(verificationTokens := RemoveAt(s.verificationTokens, k),
                               resetTokens := s.resetTokens + [ResetFormToken(s.verificationTokens[k].user, resetToken, now)])
  {
    match Get(s.verificationTokens, ByOtp(otp))
    case Missing => Step(InvalidToken, s)
    case Several => Step(ServerError, s)
    case Unique(k) =>
      var t := s.verificationTokens[k];
      if Expired(now, t.createdAt, ForgotWindow) then Step(OtpExpired, s)
      else if t.tokenType != Forgot then Step(InvalidOtpType, s)
      else
        match Get(s.users, ById(t.user))
        case Unique(i) =>
          assert UserRow(s, t.user, i);
          Step(ResetIssued(resetToken), s.(verificationTokens := RemoveAt(s.verificationTokens, k),
                                           resetTokens := s.resetTokens + [ResetFormToken(t.user, resetToken, now)]))
        case _ => Step(ServerError, s)
  }

  /**
   `reset_forgot_password`: looks the reset token up, refuses it when unknown
   or older than 10 minutes (keeping it), and otherwise stores the hash of the
   new password for the token's owner and deletes the token.
   */
  function ResetForgotPassword(cfg: Config, s: Store, now: Time, token: string, newPassword: string): (r: Step)
    ensures NoMatch(s.resetTokens, ByResetToken(token)) ==> r == Step(InvalidToken, s)
    ensures TwoMatches(s.resetTokens, ByResetToken(token)) ==> r == Step(ServerError, s)
    ensures forall k :: IsOnlyMatch(s.resetTokens, ByResetToken(token), k)
                        && Expired(now, s.resetTokens[k].createdAt, ResetWindow) ==>
              r == Step(OtpExpired, s)
    ensures forall k :: IsOnlyMatch(s.resetTokens, ByResetToken(token), k)
                        && !Expired(now, s.resetTokens[k].createdAt, ResetWindow)
                        && (forall i :: !UserRow(s, s.resetTokens[k].user, i)) ==>
              r == Step(ServerError, s)
    ensures forall k, i :: IsOnlyMatch(s.resetTokens, ByResetToken(token), k)
                           && !Expired(now, s.resetTokens[k].createdAt, ResetWindow)
                           && UserRow(s, s.resetTokens[k].user, i) ==>
              && r.response == PasswordReset
              && r.store == s.(users := s.users[i := s.users[i].(password := cfg.hasher.make(newPassword))],
                               resetTokens := RemoveAt(s.resetTokens, k))
  {
    match Get(s.resetTokens, ByResetToken(token))
    case Missing => Step(InvalidToken, s)
    case Several => Step(ServerError, s)
    case Unique(k) =>
      var t := s.resetTokens[k];
      if Expired(now, t.createdAt, ResetWindow) then Step(OtpExpired, s)
      else
        match Get(s.users, ById(t.user))
        case Unique(i) =>
          assert UserRow(s, t.user, i);
          Step(PasswordReset, s.(users := s.users[i := s.users[i].(password := cfg.hasher.make(newPassword))],
                                 resetTokens := RemoveAt(s.resetTokens, k)))
        case _ => Step(ServerError, s)
  }
}
