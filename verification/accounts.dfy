/**
 The account data the handlers read and write: users, verification tokens
 (one-time codes tagged `verify` or `forgot`), reset-form tokens, and the
 session rows that tie a refresh token to its current access token. Also the
 configuration the handlers depend on (password hashing and the password
 policy, both supplied from outside), the responses they return, and the
 integrity the database keeps between requests.
 */
module Accounts {
  import opened Rows

  type UserId = nat

  /** A stored password: whatever `make_password` produced. */
  type Digest = string

  /** Wall-clock time in microseconds, the resolution of `datetime`. */
  type Time = int

  const Minute: int := 60_000_000

  /** How long each kind of credential is accepted after it was created. */
  const VerifyWindow: int := 5 * Minute
  const ForgotWindow: int := 2 * Minute
  const ResetWindow: int := 10 * Minute

  /** `now > created_at + timedelta(minutes=...)`: a credential exactly `window` old is still accepted. */
  predicate Expired(now: Time, createdAt: Time, window: int)
  {
    now > createdAt + window
  }

  datatype User = User(
    id: UserId,
    username: string,
    email: string,
    password: Digest,
    isVerified: bool,
    roles: set<string>)

  datatype TokenType = Verify | Forgot

  datatype VerificationToken = VerificationToken(user: UserId, otp: nat, tokenType: TokenType, createdAt: Time)

  datatype ResetFormToken = ResetFormToken(user: UserId, token: string, createdAt: Time)

  /** A stored session: the refresh token and the access token currently paired with it. */
  datatype SessionToken = SessionToken(user: UserId, accessToken: string, refreshToken: string)

  /** The four tables; `WellFormed` keeps `users` in ascending id order. */
  datatype Store = Store(
    users: seq<User>,
    verificationTokens: seq<VerificationToken>,
    resetTokens: seq<ResetFormToken>,
    sessions: seq<SessionToken>)

  /** `make_password` and `check_password`, which this model does not look inside. */
  datatype Hasher = Hasher(make: string -> Digest, check: (string, Digest) -> bool)

  /** The one property of the hasher the flows rely on: a password checks against its own hash. */
  ghost predicate Sound(h: Hasher)
  {
    forall p :: h.check(p, h.make(p))
  }

  /** Settings read from outside the handlers: hashing and `PASSWORD_REGEX` as a predicate. */
  datatype Config = Config(hasher: Hasher, passwordPolicy: string -> bool)

  /** The registration form. */
  datatype UserForm = UserForm(username: string, email: string, password: string)

  /**
   What `verify_token(refresh_token, "refresh")` decoded from a valid refresh
   token, as far as the store update reads it: the user id. The role only feeds
   the newly signed access token, which the handler receives ready-made.
   */
  datatype TokenPayload = TokenPayload(user: UserId)

  /** What a handler answers. */
  datatype Response =
    | Reply(code: nat, message: string)                         // a body carrying one human-readable message
    | Registered(created: User)                                 // 201 with the created user
    | SessionIssued(user: UserId, roles: set<string>)           // 200 with a fresh access/refresh pair
    | AccessRefreshed(accessToken: string, refreshToken: string) // 200 with the rotated access token
    | ResetIssued(token: string)                                // 200 "OTP verified successfully" with the reset token
    | ServerError                                               // an exception the handler does not catch

  /** A handler's answer together with the store it leaves behind. */
  datatype Step = Step(response: Response, store: Store)

  // The filters the handlers pass to the table operations.

  function ById(uid: UserId): User -> bool
  {
    (u: User) => u.id == uid
  }

  function ByUsername(name: string): User -> bool
  {
    (u: User) => u.username == name
  }

  function ByEmail(email: string): User -> bool
  {
    (u: User) => u.email == email
  }

  /** `Q(username=x) | Q(email=x)`. */
  function ByLogin(identifier: string): User -> bool
  {
    (u: User) => u.username == identifier || u.email == identifier
  }

  function OfUser(uid: UserId): VerificationToken -> bool
  {
    (t: VerificationToken) => t.user == uid
  }

  function ByOtp(otp: int): VerificationToken -> bool
  {
    (t: VerificationToken) => t.otp == otp
  }

  function ByResetToken(token: string): ResetFormToken -> bool
  {
    (t: ResetFormToken) => t.token == token
  }

  /** The session rows `logout` deletes. */
  function SessionOf(uid: UserId, accessToken: string): SessionToken -> bool
  {
    (t: SessionToken) => t.user == uid && t.accessToken == accessToken
  }

  /** The session rows a refresh updates. */
  function RefreshOf(uid: UserId, refreshToken: string): SessionToken -> bool
  {
    (t: SessionToken) => t.user == uid && t.refreshToken == refreshToken
  }

  /** The ids of all users. */
  function UserIds(users: seq<User>): set<UserId>
  {
    set u | u in users :: u.id
  }

  /** Row `i` is the user `User.objects.get(id=uid)` returns. */
  ghost predicate UserRow(s: Store, uid: UserId, i: int)
  {
    IsOnlyMatch(s.users, ById(uid), i)
  }

  /** An id above every existing one, as the table's id sequence hands out. */
  function FreshUserId(users: seq<User>): (r: UserId)
    ensures r > 0
    ensures forall u :: u in users ==> u.id < r
    decreases |users|
  {
    if |users| == 0 then 1
    else
      var rest := FreshUserId(users[1..]);
      assert forall u :: u in users ==> u == users[0] || u in users[1..];
      if users[0].id < rest then rest else users[0].id + 1
  }

  /** Ids, usernames and emails are each unique across users. */
  ghost predicate UniqueUsers(users: seq<User>)
  {
    forall i, j :: 0 <= i < j < |users| ==>
      && users[i].id != users[j].id
      && users[i].username != users[j].username
      && users[i].email != users[j].email
  }

  /**
   Users are held in strictly ascending id order, the order in which the table
   hands out ids and in which `.first()` reads rows.
   */
  ghost predicate IdsAscending(users: seq<User>)
  {
    forall i, j :: 0 <= i < j < |users| ==> users[i].id < users[j].id
  }

  /**
   The integrity the database keeps: the user table in id order with its
   unique columns, and every token and session row pointing at an existing user.
   */
  ghost predicate WellFormed(s: Store)
  {
    && IdsAscending(s.users)
    && UniqueUsers(s.users)
    && (forall t :: t in s.verificationTokens ==> t.user in UserIds(s.users))
    && (forall t :: t in s.resetTokens ==> t.user in UserIds(s.users))
    && (forall t :: t in s.sessions ==> t.user in UserIds(s.users))
  }

  /**
   In a well-formed store the first matching row by position is the matching
   user of least id, which is what `.filter().first()` returns.
   */
  lemma FirstIsLeastId(s: Store, p: User -> bool, k: int)
    requires WellFormed(s)
    requires 0 <= k < |s.users| && p(s.users[k])
    ensures IsFirstMatch(s.users, p, k) <==>
              forall j :: 0 <= j < |s.users| && p(s.users[j]) ==> s.users[k].id <= s.users[j].id
  {
  }

  /** In a well-formed store, `User.objects.get(id=uid)` succeeds exactly for existing ids. */
  lemma UserLookup(s: Store, uid: UserId)
    requires UniqueUsers(s.users)
    ensures uid in UserIds(s.users) <==> exists i :: UserRow(s, uid, i)
    ensures uid !in UserIds(s.users) <==> Get(s.users, ById(uid)).Missing?
  {
    if uid in UserIds(s.users) {
      var i :| 0 <= i < |s.users| && s.users[i].id == uid;
      assert UserRow(s, uid, i);
    }
  }
}
