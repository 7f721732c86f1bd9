# Account lifecycle of the quiz backend, as a state machine

This project models the account-lifecycle handlers of the backend's user
module (`users/views.py`): registration, email verification by a code below
10^6 (not zero-padded, so it may have fewer than six digits), login and
logout, access-token refresh, password change, and the three-step
forgotten-password flow. Each handler is a pure transition

    (configuration, store, now, request inputs) -> (response, store')

over an immutable store of four tables held as sequences: users (kept in
ascending id order by the invariant `WellFormed`, so that the first matching
row by position is the row `.first()` returns), verification tokens (a code
tagged `verify` or `forgot`, with its creation time), reset-form tokens, and
session rows pairing a refresh token with its current access token.

Files:

- `rows.dfy` (module `Rows`): the ORM calls the handlers make. `Get` is
  `.get()`, with its three endings (no row, one row, several rows); `First`
  is `.filter().first()`; `Delete` is `.filter().delete()`; `RemoveAt`
  deletes one looked-up row.
- `otp.dfy` (module `Otp`): `otp_generator`, with the random draw as a parameter.
- `accounts.dfy` (module `Accounts`): the data model, the responses, the
  configuration, and the integrity predicate `WellFormed`.
- `views.dfy` (module `Views`): the ten handlers, each with a contract that
  lists its outcomes in the order the handler tests them.
- `properties.dfy`, `invariants.dfy`, `flows.dfy`: lemmas relating several
  calls. They cover one-time use, window ends, ignored arguments, invariant
  preservation and the end-to-end flows.

The model follows the code, including where it departs from the documented
design:

- `verify_otp` finds the code by user alone and never compares the presented
  code. Any code verifies the email while the user's only token is fresh and
  of type `verify`.
- `verify_otp` also picks up a pending `forgot` token. Re-issuing never
  removes earlier codes. So a user with two pending codes gets a server error
  (`MultipleObjectsReturned`) from `verify_otp`.
- `verify_forgot_otp` finds the code by value across all users, and ignores
  its `new_password` field.
- Expiry is checked with a strict `>` (a credential exactly 5, 2 or 10 minutes
  old is still accepted). Expiry is checked before type. An expired credential
  is kept, not deleted.
- Login does not look at the verification flag.
- `register` checks a username only against usernames and an email only
  against emails, while `login` matches the identifier against both and takes
  the user of least id. A user whose username equals an earlier user's email
  can therefore never log in by username, and a user whose email equals an
  earlier user's username can never log in by email.
- `reset_password` decides "new password must differ" by checking the new
  password against the stored hash, not by comparing strings.
- The expiry message of `reset_forgot_password` is "OTP expired".

What comes from outside is a parameter:

- the authenticated user id;
- the current time, in microseconds;
- the random draw behind each code, reduced below `10^6` by `OtpGenerator`;
- the random reset-token string;
- the result of verifying a refresh token, and the newly signed access token;
- the hasher: a `make` and a `check` function, assumed only to satisfy
  `check(p, make(p))` (`Sound`), and only where a lemma says so;
- the password policy, as a predicate.

## Model

| member | source | states |
|---|---|---|
| Otp.OtpGenerator | users/views.py:27-28 | the code lies in `[0, 10^length)` |
| Otp.OtpGeneratorReachesEveryCode | users/views.py:27-28 | every value in `[0, 10^length)` is produced by some draw, so the model does not narrow the generator's range |
| Otp.CodesBelowAMillion | users/views.py:27-28 | a number is a code the handlers can mail (`otp_generator(6)`) exactly when it is below 1,000,000 |
| Rows.Get | users/views.py:94-96 | `.get()` ends in DoesNotExist exactly when no row matches, returns the only matching row, and raises exactly when two or more rows match |
| Rows.First | users/views.py:111-114 | `.filter().first()` returns the first matching row by position, or nothing exactly when no row matches |
| Accounts.FirstIsLeastId | users/views.py:111-114 | in a well-formed store the first matching user by position is exactly the matching user of least id, which is the row `.first()` returns in id order |
| Rows.Delete | users/views.py:128 | `.filter().delete()` removes every matching row and keeps every other row with its multiplicity |
| Rows.RemoveAt | users/views.py:104 | `instance.delete()` on a looked-up row removes exactly that one row (one fewer row, multiset minus that row) and keeps the others in order |
| Views.SetAccess | users/views.py:145-147 | `.filter(...).update(access_token=...)` keeps the row count; matching rows get the new access token with owner and refresh token kept; every other row is unchanged |
| Rows.DeleteIdempotent | users/views.py:128 | after a filtered delete no row matches the filter, and repeating the delete changes nothing |
| Accounts.FreshUserId | users/views.py:71 | a created user gets an id above every existing id, so it is fresh |
| Accounts.UserLookup | users/views.py:80 | with unique users (ids, usernames and emails), `User.objects.get(id=uid)` finds a row exactly when the id exists |
| Views.Register | users/views.py:57-74 | 400 with the store unchanged if the username exists (checked first), else if the email exists, else if the policy refuses the password; otherwise 201 and exactly one new unverified user with a fresh id, no roles and password `make(password)`, plus one `verify` code for that user; nothing else changes |
| Views.SendVerification | users/views.py:77-86 | 500 when the authenticated user is missing; 400 with the store unchanged for a verified user; otherwise 200 and one new `verify` code appended, every earlier code kept |
| Views.VerifyOtp | users/views.py:89-105 | 500 for a missing user; "No otp found" when the user has no token; 500 when the user has two or more; for the only token, "OTP expired" when strictly older than 5 minutes, whatever its type; then "Invalid otp type" when not `verify`; otherwise the user becomes verified and that token is deleted, nothing else changes; every refusal keeps the store |
| Properties.VerifyOtpIgnoresCode | users/views.py:90-94 | the outcome of `verify_otp` does not depend on the presented code |
| Properties.VerifyOtpWindowEnd | users/views.py:97-100 | a `verify` code exactly 5 minutes old is accepted; one a microsecond older is refused as expired and kept |
| Properties.VerifyOtpConsumes | users/views.py:94-104 | after a code is accepted, the next `verify_otp` for that user answers "No otp found" |
| Properties.ResendWhilePendingBlocksVerification | users/views.py:84-85 | resending while a code is pending leaves two codes, after which `verify_otp` fails with a server error |
| Views.Login | users/views.py:108-122 | issues a session for the first user whose username or email equals the identifier exactly when the password checks against that user's hash; every other case gets the one response "Invalid credentials"; the store never changes |
| Properties.RegisteredUserCanLogIn | users/views.py:111-116 | a just-registered, still unverified user logs in with the registered password, provided no earlier user's email equals the new username |
| Properties.UsernameShadowedByEmail | users/views.py:111-116 | when an earlier user's email equals the new username, registration can still succeed, but no login by that username ever gives the new user a session |
| Properties.EmailShadowedByUsername | users/views.py:111-116 | when an earlier user's username equals the new email, registration can still succeed, but no login by that email ever gives the new user a session |
| Views.Logout | users/views.py:125-129 | always 200; deletes exactly the session rows with this user id and access token, keeps every other row with its multiplicity, changes no other table |
| Properties.LogoutIdempotent | users/views.py:128-129 | after logout no row matches, and a second logout leaves the same store |
| Views.GetAccessToken | users/views.py:132-154 | "Invalid token" with the store unchanged when the refresh token does not verify; otherwise the user's rows holding that refresh token get the new access token, every other row is unchanged, and no refresh token or owner changes |
| Properties.RefreshThenLogoutRevokes | users/views.py:145-147 | after a refresh, logging out with the new access token removes every row of that user holding that refresh token |
| Views.ResetPassword | users/views.py:157-174 | 500 for a missing user; "Invalid current password" when the current password does not check; "Invalid new password" when the new one checks against the stored hash; otherwise only that user's password becomes `make(new)` |
| Properties.ResetPasswordRejectsSamePassword | users/views.py:166-171 | for every hasher, a new password equal to the current one is always refused and the store kept |
| Properties.LoginAfterPasswordChange | users/views.py:172-173 | after a password change, login with the new password succeeds and any password that does not check against the new hash fails |
| Views.ForgotPassword | users/views.py:177-190 | "Email not found" with the store unchanged when no user has the email; otherwise one `forgot` code for the first such user is appended |
| Views.VerifyForgotOtp | users/views.py:193-207 | "Invalid token" when no code has the value; 500 when two do; "OTP expired" when the only one is strictly older than 2 minutes; "Invalid otp type" when it is not `forgot`; 500 when the code's owner is missing; otherwise one reset token for the code's owner is appended and the code deleted; refusals keep the store |
| Properties.VerifyForgotOtpIgnoresPassword | users/views.py:194 | the `new_password` field does not affect the outcome |
| Properties.VerifyForgotOtpWindowEnd | users/views.py:199-202 | a `forgot` code exactly 2 minutes old is accepted when its owner exists; one a microsecond older is refused as expired and kept |
| Properties.VerifyForgotOtpConsumes | users/views.py:196-205 | presenting an accepted forgot-password code again answers "Invalid token" |
| Views.ResetForgotPassword | users/views.py:209-221 | "Invalid token" for an unknown token; 500 when two rows hold it; "OTP expired" with the token kept when it is strictly older than 10 minutes; 500 when the token's owner is missing; otherwise the owner's password becomes `make(new)` and the token is deleted |
| Properties.ResetForgotPasswordWindowEnd | users/views.py:215-216 | a reset token exactly 10 minutes old is accepted when its owner exists; one a microsecond older is refused and kept |
| Properties.ResetForgotPasswordConsumes | users/views.py:212-220 | a used reset token answers "Invalid token" when presented again |
| Invariants.RegisterKeepsWellFormed | users/views.py:59-73 | registration keeps users in ascending id order, ids, usernames and emails unique, and every token pointing at an existing user |
| Invariants.SendVerificationKeepsWellFormed | users/views.py:77-86 | resending verification keeps the store well formed |
| Invariants.VerifyOtpKeepsWellFormed | users/views.py:89-105 | verifying keeps the store well formed |
| Invariants.LoginKeepsWellFormed | users/views.py:108-122 | login keeps the store well formed |
| Invariants.LogoutKeepsWellFormed | users/views.py:125-129 | logout keeps the store well formed |
| Invariants.GetAccessTokenKeepsWellFormed | users/views.py:132-154 | a refresh keeps the store well formed |
| Invariants.ResetPasswordKeepsWellFormed | users/views.py:157-174 | a password change keeps the store well formed |
| Invariants.ForgotPasswordKeepsWellFormed | users/views.py:177-190 | requesting a forgot-password code keeps the store well formed |
| Invariants.VerifyForgotOtpKeepsWellFormed | users/views.py:193-207 | verifying a forgot-password code keeps the store well formed |
| Invariants.ResetForgotPasswordKeepsWellFormed | users/views.py:209-221 | resetting a forgotten password keeps the store well formed |
| Flows.RegisterThenVerify | users/views.py:57-105 | register, then present any code within 5 minutes: the new user is verified, and resending verification is refused with "Email already verified" |
| Flows.ForgotPasswordFlow | users/views.py:177-221 | forgot-password, code within 2 minutes, reset within 10 minutes: each step succeeds, then the new password logs in and a password not checking against its hash does not |

## Left out

- Mail delivery (`send_mail`, `verification_email`) is outbound I/O. Only the token row a mail announces is modelled. A failing delivery, which the source lets surface as a server error after the user or token row was written, is not modelled.
- Password hashing is foreign cryptography. `make_password`'s random salt is folded into the uninterpreted `make`, so the model hashes deterministically.
- `secrets.randbelow` and `secrets.token_urlsafe` are randomness. Their results are parameters.
- Token signing and authentication (`generate_token`, `verify_token`, `generate_access_token`, `AuthBearer`, `role_required`) come from `utils/authentication`, which is not part of this model. Whatever `generate_token` may store at login is therefore not modelled either: `Views.Login` leaves the store unchanged.
- `logout` and `reset_password` read the user id as `request.auth["user_id"]`, while the other handlers read `request.auth.user_id`. Which of the two works depends on `AuthBearer`, which is not part of this model; every handler receives the user id directly.
- `get_user` and `get_users` are read-only listings and are not modelled.
- `PASSWORD_REGEX` and `EMAIL_HOST_USER` come from settings, which are not part of this model. The policy is a predicate on the whole password.
- Request validation by the schema layer (`EmailStr`, the fields of `UserInSchema`) is not modelled; `users/schemas.py` and `users/models.py` are not part of this model. The registration form carries username, email and password. `created_at` is taken to be the time of the creating request.
- Response bodies keep only the status and the human-readable message. The `code` and `details` fields of some bodies, and the exception text in `get_access_token`'s handler, are not modelled.
- Views.GetAccessToken: any exception before the update is the `None` payload. That covers `verify_token` returning `None` or raising, a payload without `"user_id"` or `"role"`, and `generate_access_token` raising. Each gives 400 "Invalid token" with the store unchanged.
- Views.Logout: the contract states which rows remain and how often each occurs. It does not state that the remaining rows keep their order; no handler reads the session table's order.
- Accounts.FreshUserId: the database's id sequence is modelled as "one above every current id". That is fresh among the rows present, which is all the handlers rely on.
- Concurrent requests against the shared store, and ORM atomicity, are not modelled. Each handler is one atomic step.
- Time zones and naive-versus-aware datetimes are not modelled. Time is one integer clock.
- `admin/schemas.py` and the two `quiz_viva` migrations are declarative schema and generated DDL with no behaviour.
