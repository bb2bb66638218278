/**
  The `/auth` routes: signup, login, refresh-token rotation, email
  confirmation and the request for a new confirmation email. Each route that
  changes the `users` table is a method on a `UserStore`, proved equal to a
  function of the table before the request; the lemmas relate the routes to
  one another (login then refresh, refresh then replay, signup then confirm
  then login).
*/
module AuthRoutes {
  import opened Wrappers
  import opened Errors
  import opened Models
  import opened Schemas
  import opened Jwt
  import opened Users
  import opened AuthService

  /** A confirmation email handed to the background tasks: recipient and username. */
  datatype Mail = Mail(email: string, username: string)

  const SIGNUP_DETAIL := "User successfully created. Check your email for confirmation."

  // ---------------------------------------------------------------------
  // Signup

  /** The row signup inserts: the body with its password replaced by the hash. */
  function SignupRow(id: int, body: UserModel, avatar: Option<string>, now: int): (u: User)
    ensures u.email == body.email && u.username == body.username && VerifyPassword(body.password, u.password)
    ensures !u.confirmed && u.refreshToken == None && u.id == id && u.avatar == avatar
  {
    UserFromBody(id, body.(password := HashPassword(body.password)), avatar, now)
  }

  /**
    `signup` on a table whose next id is `nextId`: the response, the table
    afterwards and the confirmation email queued. A taken email is 409. The
    response model requires a string avatar, so a user created without one
    fails response validation (500) after it has been inserted, and the
    background task does not run.
  */
  function SignupSpec(us: seq<User>, nextId: int, body: UserModel, avatar: Option<string>, now: int)
    : (r: (Result<UserResponse, Failure>, seq<User>, Option<Mail>))
    ensures GetUserByEmail(us, body.email).Some? <==> r.0 == Err(Http(409, "Account already exists"))
    ensures GetUserByEmail(us, body.email).Some? ==> r.1 == us && r.2 == None
    ensures GetUserByEmail(us, body.email).None? ==> r.1 == us + [SignupRow(nextId, body, avatar, now)]
    ensures GetUserByEmail(us, body.email).None? ==>
              r.0 == match UserDbFromOrm(SignupRow(nextId, body, avatar, now))
                     case None => Err(Uncaught("ResponseValidationError"))
                     case Some(shown) => Ok(UserResponse(shown, SIGNUP_DETAIL))
    ensures GetUserByEmail(us, body.email).None? ==> (r.0.Ok? <==> avatar.Some?)
    ensures r.0.Ok? <==> r.2.Some?
    ensures r.2.Some? ==> r.2.value == Mail(body.email, body.username)
  {
    if GetUserByEmail(us, body.email).Some? then
      (Err(Http(409, "Account already exists")), us, None)
    else
      var u := SignupRow(nextId, body, avatar, now);
      match UserDbFromOrm(u)
      case None => (Err(Uncaught("ResponseValidationError")), us + [u], None)
      case Some(shown) => (Ok(UserResponse(shown, SIGNUP_DETAIL)), us + [u], Some(Mail(u.email, u.username)))
  }

  method Signup(store: UserStore, body: UserModel, avatar: Option<string>, now: int)
    returns (r: Result<UserResponse, Failure>, mail: Option<Mail>)
    requires store.Valid()
    modifies store
    ensures store.Valid()
    ensures (r, store.users, mail) == SignupSpec(old(store.users), old(store.nextId), body, avatar, now)
    ensures store.nextId == old(store.nextId) + (if |store.users| > |old(store.users)| then 1 else 0)
  {
    mail := None;
    var existing := GetUserByEmail(store.users, body.email);
    if existing.Some? {
      return Err(Http(409, "Account already exists")), None;
    }
    var hashed := body.(password := HashPassword(body.password));
    var created := store.CreateUser(hashed, avatar, now);
    var u := created.value;
    var shown := UserDbFromOrm(u);
    if shown.None? {
      return Err(Uncaught("ResponseValidationError")), None;
    }
    mail := Some(Mail(u.email, u.username));
    r := Ok(UserResponse(shown.value, SIGNUP_DETAIL));
  }

  // ---------------------------------------------------------------------
  // Login

  /** The token pair issued to `email` at `now`, with the default lifetimes. */
  function TokensFor(email: string, now: int): (m: TokenModel)
    ensures AccessTokenSubject(m.accessToken, now) == Ok(email)
    ensures DecodeRefreshToken(m.refreshToken, now) == Ok(email)
    ensures m.tokenType == "bearer"
  {
    TokenModelWithDefaults(CreateAccessToken(email, None, now), CreateRefreshToken(email, None, now))
  }

  /**
    `login`: the checks run in the order unknown email, unconfirmed email,
    wrong password, each a 401 with its own detail; on success the new
    refresh token is stored on the user.
  */
  function LoginSpec(us: seq<User>, email: string, password: string, now: int)
    : (r: (Result<TokenModel, Failure>, seq<User>))
    ensures r.0.Ok? <==> (GetUserByEmail(us, email).Some? && GetUserByEmail(us, email).value.confirmed
                          && VerifyPassword(password, GetUserByEmail(us, email).value.password))
    ensures r.0.Err? ==> r.1 == us
    ensures GetUserByEmail(us, email).None? ==> r.0 == Err(Http(401, "Invalid email"))
    ensures GetUserByEmail(us, email).Some? && !GetUserByEmail(us, email).value.confirmed ==>
              r.0 == Err(Http(401, "Email not confirmed"))
    ensures GetUserByEmail(us, email).Some? && GetUserByEmail(us, email).value.confirmed
            && !VerifyPassword(password, GetUserByEmail(us, email).value.password) ==>
              r.0 == Err(Http(401, "Invalid password"))
    ensures r.0.Ok? ==> r.0.value == TokensFor(email, now)
    ensures r.0.Ok? ==> r.1 == EditRow(us, GetUserByEmail(us, email).value.id, SetToken(Some(TokensFor(email, now).refreshToken)))
  {
    match GetUserByEmail(us, email)
    case None => (Err(Http(401, "Invalid email")), us)
    case Some(u) =>
      if !u.confirmed then (Err(Http(401, "Email not confirmed")), us)
      else if !VerifyPassword(password, u.password) then (Err(Http(401, "Invalid password")), us)
      else
        var tokens := TokensFor(u.email, now);
        (Ok(tokens), EditRow(us, u.id, SetToken(Some(tokens.refreshToken))))
  }

  method Login(store: UserStore, email: string, password: string, now: int) returns (r: Result<TokenModel, Failure>)
    requires store.Valid()
    modifies store
    ensures store.Valid() && store.nextId == old(store.nextId)
    ensures (r, store.users) == LoginSpec(old(store.users), email, password, now)
  {
    var user := GetUserByEmail(store.users, email);
    if user.None? {
      return Err(Http(401, "Invalid email"));
    }
    var u := user.value;
    if !u.confirmed {
      return Err(Http(401, "Email not confirmed"));
    }
    if !VerifyPassword(password, u.password) {
      return Err(Http(401, "Invalid password"));
    }
    var accessToken := CreateAccessToken(u.email, None, now);
    var refreshToken := CreateRefreshToken(u.email, None, now);
    store.UpdateToken(u, Some(refreshToken));
    r := Ok(TokenModelWithDefaults(accessToken, refreshToken));
  }

  // ---------------------------------------------------------------------
  // Refresh-token rotation

  /**
    `refresh_token`: decoder errors pass through; a token for an email with
    no user makes `user.refresh_token` raise `AttributeError`; a token other
    than the one stored clears the stored token and is 401; otherwise a new
    pair is issued and the new refresh token replaces the stored one.
  */
  function RefreshSpec(us: seq<User>, token: Token, now: int): (r: (Result<TokenModel, Failure>, seq<User>))
    ensures DecodeRefreshToken(token, now).Err? ==> r == (Err(DecodeRefreshToken(token, now).error), us)
    ensures r.0.Ok? <==> (DecodeRefreshToken(token, now).Ok?
                          && GetUserByEmail(us, DecodeRefreshToken(token, now).value).Some?
                          && GetUserByEmail(us, DecodeRefreshToken(token, now).value).value.refreshToken == Some(token))
    ensures r.0.Ok? ==> r.0.value == TokensFor(DecodeRefreshToken(token, now).value, now)
    ensures DecodeRefreshToken(token, now).Ok? ==>
              var email := DecodeRefreshToken(token, now).value;
              match GetUserByEmail(us, email)
              case None => r == (Err(Uncaught("AttributeError")), us)
              case Some(u) =>
                if u.refreshToken != Some(token) then
                  r == (Err(Http(401, "Invalid refresh token")), EditRow(us, u.id, SetToken(None)))
                else
                  r.0.Ok? && r.1 == EditRow(us, u.id, SetToken(Some(r.0.value.refreshToken)))
  {
    match DecodeRefreshToken(token, now)
    case Err(e) => (Err(e), us)
    case Ok(email) =>
      match GetUserByEmail(us, email)
      case None => (Err(Uncaught("AttributeError")), us)
      case Some(u) =>
        if u.refreshToken != Some(token) then
          (Err(Http(401, "Invalid refresh token")), EditRow(us, u.id, SetToken(None)))
        else
          var tokens := TokensFor(email, now);
          (Ok(tokens), EditRow(us, u.id, SetToken(Some(tokens.refreshToken))))
  }

  method RefreshToken(store: UserStore, token: Token, now: int) returns (r: Result<TokenModel, Failure>)
    requires store.Valid()
    modifies store
    ensures store.Valid() && store.nextId == old(store.nextId)
    ensures (r, store.users) == RefreshSpec(old(store.users), token, now)
  {
    var email := DecodeRefreshToken(token, now);
    if email.Err? {
      return Err(email.error);
    }
    var user := GetUserByEmail(store.users, email.value);
    if user.None? {
      return Err(Uncaught("AttributeError"));
    }
    if user.value.refreshToken != Some(token) {
      store.UpdateToken(user.value, None);
      return Err(Http(401, "Invalid refresh token"));
    }
    var accessToken := CreateAccessToken(email.value, None, now);
    var refreshToken := CreateRefreshToken(email.value, None, now);
    store.UpdateToken(user.value, Some(refreshToken));
    r := Ok(TokenModelWithDefaults(accessToken, refreshToken));
  }

  /** The stored refresh token of the user with this email. */
  function StoredToken(us: seq<User>, email: string): Option<Token> {
    match GetUserByEmail(us, email)
    case None => None
    case Some(u) => u.refreshToken
  }

  /**
    After a successful login the stored token is the one returned, and that
    token refreshes the session for seven days, storing the new one.
  */
  lemma LoginThenRefresh(us: seq<User>, email: string, password: string, t1: int, t2: int)
    requires LoginSpec(us, email, password, t1).0.Ok?
    requires t1 <= t2 <= t1 + REFRESH_LIFETIME
    ensures var (r1, us1) := LoginSpec(us, email, password, t1);
            && StoredToken(us1, email) == Some(r1.value.refreshToken)
            && var (r2, us2) := RefreshSpec(us1, r1.value.refreshToken, t2);
               && r2 == Ok(TokensFor(email, t2))
               && StoredToken(us2, email) == Some(r2.value.refreshToken)
  {
    var u := GetUserByEmail(us, email).value;
    var (r1, us1) := LoginSpec(us, email, password, t1);
    EditThenLookup(us, u.id, SetToken(Some(r1.value.refreshToken)), email);
    var u1 := GetUserByEmail(us1, email).value;
    EditThenLookup(us1, u1.id, SetToken(Some(TokensFor(email, t2).refreshToken)), email);
  }

  /**
    Rotation: once a refresh token has been used at a later second than it
    was issued, presenting it again is 401 "Invalid refresh token" and clears
    the stored token, after which the token issued by the rotation is
    refused too.
  */
  lemma ReplayRevokesSession(us: seq<User>, used: Token, t1: int, t2: int, t3: int)
    requires RefreshSpec(us, used, t1).0.Ok?
    requires used.claims.iat != t1
    requires DecodeRefreshToken(used, t2).Ok?
    ensures var (r1, us1) := RefreshSpec(us, used, t1);
            var email := DecodeRefreshToken(used, t1).value;
            var (r2, us2) := RefreshSpec(us1, used, t2);
            && r2 == Err(Http(401, "Invalid refresh token"))
            && StoredToken(us2, email) == None
            && RefreshSpec(us2, r1.value.refreshToken, t3).0.Err?
  {
    var email := DecodeRefreshToken(used, t1).value;
    var (r1, us1) := RefreshSpec(us, used, t1);
    var u := GetUserByEmail(us, email).value;
    EditThenLookup(us, u.id, SetToken(Some(r1.value.refreshToken)), email);
    var u1 := GetUserByEmail(us1, email).value;
    assert r1.value.refreshToken.claims.iat == t1;
    var (r2, us2) := RefreshSpec(us1, used, t2);
    EditThenLookup(us1, u1.id, SetToken(None), email);
  }

  /**
    The rotation does not protect a token used within the second it was
    issued: tokens carry whole-second times and no nonce, so the refresh
    re-issues the very same token, and it can be replayed.
  */
  lemma SameSecondRefreshKeepsToken(us: seq<User>, email: string, password: string, t: int)
    requires LoginSpec(us, email, password, t).0.Ok?
    ensures var (r1, us1) := LoginSpec(us, email, password, t);
            var (r2, us2) := RefreshSpec(us1, r1.value.refreshToken, t);
            && r2.Ok? && r2.value.refreshToken == r1.value.refreshToken
            && RefreshSpec(us2, r1.value.refreshToken, t).0.Ok?
  {
    LoginThenRefresh(us, email, password, t, t);
    var (r1, us1) := LoginSpec(us, email, password, t);
    var (r2, us2) := RefreshSpec(us1, r1.value.refreshToken, t);
    var u1 := GetUserByEmail(us1, email).value;
    EditThenLookup(us1, u1.id, SetToken(Some(r2.value.refreshToken)), email);
  }

  // ---------------------------------------------------------------------
  // Email confirmation

  /**
    `confirmed_email/{token}`: decoder errors pass through; an email with no
    user is 400 "Verification error"; a confirmed user gets a message and no
    change; otherwise the user is marked confirmed.
  */
  function ConfirmSpec(us: seq<User>, token: Token, now: int): (r: (Result<string, Failure>, seq<User>))
    ensures GetEmailFromToken(token, now).Err? ==> r == (Err(GetEmailFromToken(token, now).error), us)
    ensures r.0.Ok? <==> GetEmailFromToken(token, now).Ok? && GetUserByEmail(us, GetEmailFromToken(token, now).value).Some?
    ensures r.0 == Ok("Email confirmed") || r.1 == us
    ensures GetEmailFromToken(token, now).Ok? ==>
              match GetUserByEmail(us, GetEmailFromToken(token, now).value)
              case None => r == (Err(Http(400, "Verification error")), us)
              case Some(u) =>
                if u.confirmed then r == (Ok("Your email is already confirmed"), us)
                else r == (Ok("Email confirmed"), EditRow(us, u.id, Confirm))
  {
    match GetEmailFromToken(token, now)
    case Err(e) => (Err(e), us)
    case Ok(email) =>
      match GetUserByEmail(us, email)
      case None => (Err(Http(400, "Verification error")), us)
      case Some(u) =>
        if u.confirmed then (Ok("Your email is already confirmed"), us)
        else (Ok("Email confirmed"), EditRow(us, u.id, Confirm))
  }

  method ConfirmedEmail(store: UserStore, token: Token, now: int) returns (r: Result<string, Failure>)
    requires store.Valid()
    modifies store
    ensures store.Valid() && store.nextId == old(store.nextId)
    ensures (r, store.users) == ConfirmSpec(old(store.users), token, now)
  {
    var email := GetEmailFromToken(token, now);
    if email.Err? {
      return Err(email.error);
    }
    var user := GetUserByEmail(store.users, email.value);
    if user.None? {
      return Err(Http(400, "Verification error"));
    }
    if user.value.confirmed {
      return Ok("Your email is already confirmed");
    }
    var _ := store.ConfirmedEmail(email.value);
    r := Ok("Email confirmed");
  }

  /**
    Confirmation is idempotent: the first successful use of a token leaves
    the user confirmed, and using it again reports so and changes nothing.
  */
  lemma ConfirmIdempotent(us: seq<User>, token: Token, now: int, later: int)
    requires ConfirmSpec(us, token, now).0.Ok?
    requires GetEmailFromToken(token, later).Ok?
    ensures var (r1, us1) := ConfirmSpec(us, token, now);
            var email := GetEmailFromToken(token, now).value;
            && GetUserByEmail(us1, email).Some? && GetUserByEmail(us1, email).value.confirmed
            && ConfirmSpec(us1, token, later) == (Ok("Your email is already confirmed"), us1)
  {
    var email := GetEmailFromToken(token, now).value;
    var u := GetUserByEmail(us, email).value;
    EditThenLookup(us, u.id, Confirm, email);
  }

  // ---------------------------------------------------------------------
  // Request for a confirmation email

  /**
    `request_email`: changes nothing in the table. `user.confirmed` is read
    before `user` is checked for None, so an unknown email raises `AttributeError`; a
    confirmed user gets a message and no email; otherwise an email is queued.
  */
  function RequestEmail(us: seq<User>, email: string): (r: (Result<string, Failure>, Option<Mail>))
    ensures r.0.Err? <==> GetUserByEmail(us, email).None?
    ensures r.0.Err? ==> r.0.error == Uncaught("AttributeError")
    ensures r.1.Some? <==> GetUserByEmail(us, email).Some? && !GetUserByEmail(us, email).value.confirmed
    ensures r.1.Some? ==> r.1.value.email == email && r.0 == Ok("Check your email for confirmation.")
    ensures GetUserByEmail(us, email).Some? && GetUserByEmail(us, email).value.confirmed ==>
              r == (Ok("Your email is already confirmed"), None)
  {
    match GetUserByEmail(us, email)
    case None => (Err(Uncaught("AttributeError")), None)
    case Some(u) =>
      if u.confirmed then (Ok("Your email is already confirmed"), None)
      else (Ok("Check your email for confirmation."), Some(Mail(u.email, u.username)))
  }

  // ---------------------------------------------------------------------
  // The account life cycle

  /**
    A new account cannot log in until it is confirmed, even with the right
    password; the email token sent at signup confirms it within seven days,
    after which the signup password logs in.
  */
  lemma SignupConfirmLogin(us: seq<User>, nextId: int, body: UserModel, avatar: Option<string>, t1: int, t2: int, t3: int)
    requires GetUserByEmail(us, body.email).None?
    requires t1 <= t2 <= t1 + EMAIL_LIFETIME
    ensures var (_, us1, _) := SignupSpec(us, nextId, body, avatar, t1);
            && LoginSpec(us1, body.email, body.password, t2).0 == Err(Http(401, "Email not confirmed"))
            && var (c, us2) := ConfirmSpec(us1, CreateEmailToken(body.email, t1), t2);
               && c == Ok("Email confirmed")
               && LoginSpec(us2, body.email, body.password, t3).0 == Ok(TokensFor(body.email, t3))
  {
    var u := SignupRow(nextId, body, avatar, t1);
    var (_, us1, _) := SignupSpec(us, nextId, body, avatar, t1);
    assert us1 == us + [u];
    InsertThenLookup(us, u);
    EditThenLookup(us1, u.id, Confirm, body.email);
  }

  /** A request for a second confirmation email is answered only while the account is unconfirmed. */
  lemma RequestEmailAfterConfirm(us: seq<User>, token: Token, now: int)
    requires ConfirmSpec(us, token, now).0.Ok?
    ensures var email := GetEmailFromToken(token, now).value;
            RequestEmail(ConfirmSpec(us, token, now).1, email) == (Ok("Your email is already confirmed"), None)
  {
    var email := GetEmailFromToken(token, now).value;
    var u := GetUserByEmail(us, email).value;
    EditThenLookup(us, u.id, Confirm, email);
  }
}
