# Contacts address book with JWT authentication — Dafny model

This project models the core of a FastAPI address-book service. Each user keeps their own contacts. Accounts are created by signup and confirmed by a token sent by email. Sessions are pairs of JWT access and refresh tokens.

The model covers:

- **Contacts repository** (`contacts.dfy`). Queries are functions over the `contacts` table, which is a sequence of rows in table order. Every query is scoped to the caller's id. The queries are: list with offset and limit, read by id, and search by first name, last name and email with `ILIKE '%term%'`. `create`, `update`, `remove` and the upcoming-birthdays loop are methods of a `ContactDirectory` class that owns the table.
  - The UNIQUE email constraint spans all owners, so a clashing insert or update fails with `IntegrityError`.
  - A Feb 29 birthday whose `date.replace(year=...)` raises `ValueError` fails the whole birthday request.
- **Users repository** (`users.dfy`). A `UserStore` class holds the `users` table. Its methods are `create_user`, `update_token`, `confirmed_email` and `update_avatar`. `get_user_by_email` is a function over the table.
- **Auth service** (`auth_service.dfy`):
  - the three token builders (access, refresh, email) and their three decoders, with the exact failure of each case;
  - password hashing;
  - `get_current_user` with its Redis look-aside cache, keyed `user:<email>` with a 900-second time to live.
- **Auth routes** (`auth_routes.dfy`): signup, login, refresh-token rotation, email confirmation and the request for a new confirmation email.
  - Each route that changes the table is a method proved equal to a function of the table before the request.
  - Lemmas chain the routes together: login then refresh; refresh then replay; signup then confirm then login.
- **Supporting modules**:
  - `calendar.dfy`: Python's `date`, with leap years, `+ timedelta(days=n)`, and the day number used to relate date order to day counts;
  - `like.dfy`: PostgreSQL `ILIKE`;
  - `jwt.dfy`: tokens as values;
  - `models.dfy` and `schemas.dfy`: rows and request/response shapes.

Behaviour of the code as written that the model keeps:

- **Tokens without a `scope` claim.** `decode_refresh_token` and `get_current_user` read `payload['scope']` outside any `KeyError` handler. An email-verification token, which has no scope, therefore makes them raise `KeyError`. That is a 500 response, not the 401 the handlers give other bad tokens.
- **The `email is None` check in `get_current_user` cannot fire.** python-jose already rejects a non-string `sub`. A missing `sub` raises `KeyError`.
- **`get_email_from_token` ignores the scope.** Any live access or refresh token confirms an email.
- **Unknown emails give 500 responses.** In `refresh_token`, a valid refresh token for an email with no user raises `AttributeError`. So does `request_email` for an unknown email, because it reads `user.confirmed` before checking `user` for None. The docstring of `request_email` promises an `HTTPException` instead; the model follows the code.
- **Refresh rotation within one second.** Tokens carry whole-second `iat`/`exp` and no nonce. A refresh in the same second as the token being refreshed re-issues the identical token, which then stays usable (`SameSecondRefreshKeepsToken`). Replaying a token used at a later second is refused, and the replay revokes the session (`ReplayRevokesSession`).
- **Signup without an avatar.** `UserDb.avatar` is a required string. A signup whose avatar lookup failed inserts the user and then fails response validation, which is a 500 response.
- **The user cache is never invalidated.** Within 900 seconds a cached user is returned even after the table has changed (`CachedUserOutlivesTableChanges`).

## Model

| member | source | states |
|---|---|---|
| Contacts.Owned | src/repository/contacts.py:144 | the owner's rows are exactly the table's rows with that owner id |
| Contacts.IndexOfContact | src/repository/contacts.py:44 | the `.first()` of the owner-and-id query: the first row with that id and owner, None iff there is none |
| Contacts.ReadContact | src/repository/contacts.py:44 | returns a row with the id only if the caller owns it; None exactly when the caller owns no row with that id |
| Contacts.AllContacts | src/repository/contacts.py:28 | the page is the owner's rows from position `skip`, at most `limit` of them, with the exact length and elements |
| Contacts.GetContacts | src/repository/contacts.py:182-190 | a row is returned iff it is the caller's and matches every given non-empty filter with ILIKE '%term%' |
| Contacts.GetContactsUnfiltered | src/repository/contacts.py:182-190 | with no filters the search returns exactly the owner's rows, in order |
| Contacts.SearchIsSubstringFilter | src/repository/contacts.py:184-189 | for terms without wildcard characters, a row is found iff each term occurs in its field ignoring case |
| Like.ILike | src/repository/contacts.py:185 | a match consumes at least one text character per `_`, escaped or plain pattern character, and exactly that many when the pattern has no `%` |
| Like.ContainsPattern | src/repository/contacts.py:185 | `ILIKE '%term%'` holds iff the term occurs in the text ignoring case, for a term without `%`, `_` or backslash |
| Like.LeadingPercent | src/repository/contacts.py:185 | a leading `%` matches iff the rest of the pattern matches some suffix of the text |
| Like.PlainPrefix | src/repository/contacts.py:185 | `term%` matches iff the text starts with the term, ignoring case |
| Contacts.ApplyUpdate | src/repository/contacts.py:90-102 | each field takes the body's value iff that value is not null; id, created_at and owner never change |
| Contacts.ApplyUpdateIdempotent | src/repository/contacts.py:90-102 | applying the same update twice equals applying it once; an all-null update is the identity |
| Contacts.RemoveKeepsKeys | src/repository/contacts.py:122-126 | deleting a row keeps ids and emails unique, and the deleted row is no longer in the table |
| Contacts.OwnedRemoveOther | src/repository/contacts.py:122-126 | deleting another owner's row leaves the owner's view unchanged |
| Contacts.OwnedReplaceOther | src/repository/contacts.py:88-106 | changing another owner's row leaves the owner's view unchanged |
| Contacts.OwnedAppend | src/repository/contacts.py:144 | the owner's view of a concatenation is the concatenation of the owner's views |
| Contacts.ContactDirectory.CreateContact | src/repository/contacts.py:60-70 | a taken email (any owner) fails with IntegrityError, changes no row and uses up one id of the sequence; otherwise exactly one row copying the body, owned by the caller, is appended and returned; other owners' views unchanged |
| Contacts.ContactDirectory.UpdateContact | src/repository/contacts.py:88-106 | a missing or foreign id gives None with no change; an email held by another row fails with IntegrityError; otherwise only that row changes, to ApplyUpdate of it |
| Contacts.ContactDirectory.RemoveContact | src/repository/contacts.py:122-126 | a missing or foreign id gives None with no change; otherwise exactly that row is removed and returned; other owners unaffected |
| Contacts.ReplaceYear | src/repository/contacts.py:149 | `replace(year=y)` succeeds iff the date with year y and the same month and day is valid, and then is that date |
| Contacts.ProjectedBirthday | src/repository/contacts.py:149-153 | a successful projection is a valid date with the birthday's month and day, on or after today, in this year or the next |
| Contacts.UpcomingBirthdaysOf | src/repository/contacts.py:140-161 | the loop's outcome contact by contact; its only failure is the uncaught ValueError of a `replace` |
| Contacts.UpcomingIn | src/repository/contacts.py:155-157 | a contact is kept iff it is in the input and its birthday is upcoming |
| Contacts.UpcomingBirthdaysOfMeaning | src/repository/contacts.py:146-161 | the request fails iff some owned contact's birthday cannot be projected; otherwise it returns the owned contacts with an upcoming birthday, in order |
| Contacts.UpcomingStep | src/repository/contacts.py:147-157 | one loop step appends the contact exactly when its projection lies in the window |
| Contacts.UpcomingFailure | src/repository/contacts.py:149-153 | one unprojectable contact fails the whole request with ValueError |
| Contacts.ProjectionSteps | src/repository/contacts.py:149-153 | helper for the loop proof: unfolds the two `replace` steps once the first has succeeded |
| Contacts.ProjectionFailsIff | src/repository/contacts.py:149-153 | projection fails iff the birthday is Feb 29 and today's year is common, or Feb 29 of this leap year has passed |
| Contacts.ProjectionIsNextOccurrence | src/repository/contacts.py:149-153 | a successful projection is the first date on or after today with the birthday's month and day |
| Contacts.UpcomingIffWithinEightDays | src/repository/contacts.py:140-157 | for every valid birthday, it is upcoming iff its month and day are those of one of today, today+1, ..., today+7 |
| Contacts.ComingWeekIsUpcoming | src/repository/contacts.py:140-157 | on any day, a birthday on one of the next eight days is upcoming, a Feb 29 included |
| Contacts.WeekDateProjects | src/repository/contacts.py:149-153 | no date of the coming week makes either `replace` raise: a Feb 29 within seven days lies in a leap year before it has passed |
| Contacts.BirthdayExamplesInJune | tests/repository/test_unit_repository_contacts.py:166-182 | birthdays 3, 6 and 7 days ahead are upcoming |
| Contacts.BirthdayExamplesOutsideWeek | tests/repository/test_unit_repository_contacts.py:166-207 | birthdays 1 and 10 days back, and 8, 10 and 15 days ahead, are not upcoming |
| Contacts.BirthdayExamplesAtYearEnds | src/repository/contacts.py:149-156 | a January birthday is upcoming at the end of December; Feb 29 fails on 2025-03-01 and 2024-03-01 and is upcoming on 2024-02-25 |
| Contacts.ContactDirectory.UpcomingBirthdays | src/repository/contacts.py:140-161 | the loop returns exactly UpcomingBirthdaysOf the caller's contacts |
| Calendar.NextDay | src/repository/contacts.py:141 | the next day is a valid date after the given one |
| Calendar.AddDays | src/repository/contacts.py:141 | `d + timedelta(days=n)` is a valid date not before d |
| Calendar.DaysInMonth | src/repository/contacts.py:149 | months have 28 to 31 days, and 29 exactly for February of a leap year |
| Calendar.OrdinalOrder | src/repository/contacts.py:152 | date order is day-number order, and equal day numbers mean equal dates |
| Calendar.AddDaysOrdinal | src/repository/contacts.py:141 | adding n days adds n to the day number |
| Calendar.WindowIsConsecutiveDays | src/repository/contacts.py:141-156 | `d <= p <= d + n days` iff p is d + k days for some k <= n |
| Calendar.EarlierStaysInWindow | src/repository/contacts.py:156 | a date between today and today + k days, for k <= 7, lies in the 7-day window |
| Models.NewUser | src/database/models.py:36-38 | a new user is unconfirmed and has no refresh token |
| Schemas.ContactBaseWithDefaults | src/schemas.py:6-12 | additional_info defaults to null |
| Schemas.FromOrm | src/schemas.py:15-18 | the response carries the row's fields, id, created_at and owner_id |
| Schemas.ParseUserModel | src/schemas.py:37-40 | a signup body is accepted iff the username has 5..16 characters and the password 6..10 |
| Schemas.UserDbFromOrm | src/schemas.py:43-51 | a user validates as UserDb iff its avatar is not null |
| Schemas.TokenModelWithDefaults | src/schemas.py:59-62 | token_type defaults to "bearer" |
| Users.GetUserByEmail | src/repository/users.py:19 | returns a row with that email, and None iff no row has it |
| Users.IndexOfEmail | src/repository/users.py:19 | the position found is the first row with that email |
| Users.GetUserByEmailFindsRow | src/repository/users.py:19 | with unique emails, each row is found by its own email |
| Users.ApplyEdit | src/repository/users.py:58-97 | each repository change sets exactly one column: refresh token, confirmed or avatar |
| Users.EditRow | src/repository/users.py:58-59 | the edit changes exactly the rows with that primary key |
| Users.EditRowKeepsKeys | src/database/models.py:31-33 | edits keep ids and emails, so both stay unique |
| Users.EditThenLookup | src/repository/users.py:58-99 | looking up after an edit finds the edited row for that user and the unchanged row otherwise |
| Users.UserFromBody | src/repository/users.py:39 | the new row copies username, email and password and takes the avatar given |
| Users.InsertThenLookup | src/repository/users.py:39-43 | after inserting a new email, the lookup finds the new row and every other lookup is unchanged |
| Users.UserStore.CreateUser | src/repository/users.py:33-43 | a taken email fails with IntegrityError, changes no row and uses up one id of the sequence; otherwise exactly one new unconfirmed row is appended and returned |
| Users.UserStore.UpdateToken | src/repository/users.py:58-59 | only the user's refresh token changes |
| Users.UserStore.ConfirmedEmail | src/repository/users.py:73-77 | unknown email raises ValueError and changes nothing; otherwise only that user becomes confirmed |
| Users.UserStore.UpdateAvatar | src/repository/users.py:94-99 | unknown email raises ValueError and changes nothing; otherwise only that user's avatar changes, and the updated user is returned |
| AuthService.HashPassword | src/services/auth.py:44-53 | the stored hash is never the plaintext password |
| AuthService.VerifyPassword | src/services/auth.py:31-42 | a plaintext stored in place of its hash does not verify |
| AuthService.HashVerifies | src/services/auth.py:42-53 | a hash verifies its own password and no other |
| AuthService.Lifetime | src/services/auth.py:68-71 | a missing or zero `expires_delta` (both falsy in Python) selects the default lifetime; any other value is the lifetime |
| AuthService.CreateAccessToken | src/services/auth.py:67-74 | a signed token with the subject, issued at now, expiring after the lifetime, scope "access_token" |
| AuthService.CreateRefreshToken | src/services/auth.py:89-96 | a signed token with the subject, issued at now, expiring after the lifetime (7 days by default), scope "refresh_token" |
| AuthService.CreateEmailToken | src/services/auth.py:174-178 | a signed token with the subject, issued at now, expiring after 7 days, with no scope claim |
| Jwt.Decode | src/services/auth.py:109 | `jwt.decode` returns the claims iff the signature verifies and the token has not expired (exp >= now) |
| AuthService.DecodeRefreshToken | src/services/auth.py:108-115 | yields the subject iff the token decodes, has scope refresh_token and has a sub |
| AuthService.AccessTokenSubject | src/services/auth.py:139-149 | yields the subject iff the token decodes, has scope access_token and has a sub |
| AuthService.GetEmailFromToken | src/services/auth.py:191-198 | yields the subject iff the token decodes and has a sub, whatever its scope |
| AuthService.AccessTokenRoundTrip | src/services/auth.py:67-74 | an access token yields its subject until issue time plus lifetime (15 minutes by default), then 401 |
| AuthService.RefreshTokenRoundTrip | src/services/auth.py:89-96 | a refresh token yields its subject until issue time plus lifetime (7 days by default), then 401 |
| AuthService.EmailTokenRoundTrip | src/services/auth.py:174-178 | an email token yields its subject for 7 days, then 422 |
| AuthService.ScopesKeepTokensApart | src/services/auth.py:110-113 | a live access token is "Invalid scope" as a refresh token, a refresh token is 401 as an access token, and an email token raises KeyError in both |
| AuthService.EmailDecoderIgnoresScope | src/services/auth.py:191-194 | live access and refresh tokens are accepted as email tokens |
| AuthService.ForgedTokensRefused | src/services/auth.py:114-115 | a token whose signature fails is refused by all three decoders |
| AuthService.CacheKeyInjective | src/services/auth.py:151 | distinct emails have distinct cache keys |
| AuthService.CacheGet | src/services/auth.py:151 | a key is found iff it is present and its time to live has not run out |
| AuthService.CurrentUser | src/services/auth.py:139-160 | a token error passes through with the cache unchanged; a live cache entry is returned without reading the table; on a miss the table's user is returned and cached for 900 s, and an absent user is 401 with the cache unchanged |
| AuthService.CurrentUserMatchesTable | src/services/auth.py:151-160 | while the cache agrees with the table, the result is the table's user (401 iff absent), and the cache keeps agreeing |
| AuthService.CachedUserOutlivesTableChanges | src/services/auth.py:151-159 | a user read from the table is returned again for 900 s, whatever the table holds by then |
| AuthService.CacheExpiryRereadsTable | src/services/auth.py:151-157 | once 900 s have passed since a user was cached, the next request answers from the table as it is then |
| AuthService.Auth.GetCurrentUser | src/services/auth.py:133-160 | result and new cache equal CurrentUser of the old cache and the table |
| AuthRoutes.SignupRow | src/routes/auth.py:42-43 | the inserted row stores the hash of the body's password and is unconfirmed |
| AuthRoutes.SignupSpec | src/routes/auth.py:39-45 | 409 iff the email exists, with no change; otherwise exactly SignupRow (hashed password, unconfirmed, the avatar given) is appended, and the response is 201 with the shown user and the signup detail iff the avatar is present, ResponseValidationError otherwise; an email to the new user is queued iff the response succeeds |
| AuthRoutes.Signup | src/routes/auth.py:39-45 | the response, table, id counter and queued email equal SignupSpec |
| AuthRoutes.TokensFor | src/routes/auth.py:74-75 | the pair's access and refresh tokens decode to the email at issue time; type "bearer" |
| AuthRoutes.LoginSpec | src/routes/auth.py:66-77 | the guards in order: unknown email is 401 "Invalid email", unconfirmed is 401 "Email not confirmed", a wrong password is 401 "Invalid password", each with no change; otherwise the token pair is returned and its refresh token is stored on exactly that user |
| AuthRoutes.Login | src/routes/auth.py:66-77 | the response and table equal LoginSpec |
| AuthRoutes.RefreshSpec | src/routes/auth.py:96-106 | decoder errors pass through unchanged; an unknown user is AttributeError with no change; a token other than the stored one is 401 "Invalid refresh token" and clears the stored token; otherwise a new pair is returned and its refresh token replaces the stored one |
| AuthRoutes.RefreshToken | src/routes/auth.py:96-106 | the response and table equal RefreshSpec |
| AuthRoutes.LoginThenRefresh | src/routes/auth.py:66-106 | login stores the returned refresh token, which refreshes for 7 days and is replaced by the new one |
| AuthRoutes.ReplayRevokesSession | src/routes/auth.py:99-101 | re-presenting a rotated token is 401 "Invalid refresh token", clears the stored token, and then the rotated-in token fails too |
| AuthRoutes.SameSecondRefreshKeepsToken | src/routes/auth.py:103-105 | a refresh in the login second re-issues the same token, which refreshes again |
| AuthRoutes.ConfirmSpec | src/routes/auth.py:124-131 | decoder errors pass through; an unknown user is 400 "Verification error"; a confirmed user gets "Your email is already confirmed" with no change; otherwise "Email confirmed" and only that user becomes confirmed |
| AuthRoutes.ConfirmedEmail | src/routes/auth.py:124-131 | the response and table equal ConfirmSpec |
| AuthRoutes.ConfirmIdempotent | src/routes/auth.py:128-131 | after a confirmation the user is confirmed, and reusing the token reports "already confirmed" and changes nothing |
| AuthRoutes.RequestEmail | src/routes/auth.py:157-163 | unknown email is AttributeError; a confirmed user gets "Your email is already confirmed" and no email; an email is queued iff the user exists and is unconfirmed |
| AuthRoutes.RequestEmailAfterConfirm | src/routes/auth.py:157-160 | after confirmation no email is queued and the user is told it is already confirmed |
| AuthRoutes.SignupConfirmLogin | src/routes/auth.py:39-131 | a new account gets "Email not confirmed" at login; the signup email token confirms it within 7 days, and then the signup password logs in |

## Left out

- Cryptography. JWT signing is a flag on the token value. bcrypt is an injective tag on the password (no salt, no cost factor).
- The Redis client, the avatar service (libgravatar), email sending and `pickle` are not executed:
  - the cache is a map from key to user and expiry time, and a cache hit returns the stored value;
  - the avatar URL is a parameter of signup;
  - a sent email is a returned `Mail` value.
- `RequestEmail` is a function rather than a method, because the route changes no table.
- Clocks. `datetime.utcnow()` and `date.today()` are a `now` / `today` parameter. The code calls `utcnow()` twice per token; one value is used for both.
- The `data` dict passed to the token builders is modelled as its `sub` only; no route passes anything else.
- Signup when the avatar is null: modelled as failing response validation, with the queued email never sent. Whether FastAPI runs the background task in that case is not modelled.
- `expires_delta` is a float number of seconds in the code; the model takes whole seconds.
- Sub-second clock precision is dropped, because python-jose truncates times to seconds.
- Years above 9999 (Python's `MAXYEAR`) are not rejected, and dates before year 1 are not modelled.
- `ILIKE` case folding covers ASCII letters only. PostgreSQL folds by locale.
- SQL row order without `ORDER BY` is taken to be table order.
- AllContacts: `skip` and `limit` are natural numbers. The negative values the code would pass to SQL are not modelled.
- Field formats that pydantic checks (`EmailStr`) and the 422 responses for malformed bodies are not modelled. The length constraints of `UserModel` are.
- The `print` calls in the birthday loop and in `create_user` are not modelled.
- The ORM session is not modelled: object identity, aliasing between loaded users and cached copies, and transactions. Each commit is one atomic update of the table. The cache's `set` and `expire` are one step.
- Contact columns other than `additional_info` are nullable in the schema, but the model takes them as present, because rows are only inserted from validated request bodies.
- Column widths are not modelled: `users.email` is `String(250)` and `users.refresh_token` is `String(225)` (src/database/models.py:33, 37). An email longer than 250 characters makes signup's commit fail, and a refresh token longer than 225 characters (an email of roughly 40 bytes or more) makes `update_token`'s commit fail. Both give a 500 response where LoginSpec, RefreshSpec, SignupSpec and SignupConfirmLogin state success.
- Token strings are identified with their claims. base64url decoding ignores the spare bits at the end of the signature, so several strings verify to the same claims. The refresh route compares the raw strings, so a variant of the stored token gets 401 and clears the session where RefreshSpec rotates it.
- The foreign key from `contacts.owner_id` to `users.id` is not modelled. Users and contacts live in separate stores, and no modelled operation deletes users.
- The contact routes (`src/routes/contacts.py`), which map None results to 404, are not part of this model.
- Contacts.ContactDirectory.CreateContact: requires a valid birthday date, because pydantic rejects any other before the call. The same holds for UpdateContact's birthday.
- Users.UserStore.UpdateToken: requires the user to be a row of the table, as an ORM object loaded from the session always is.
