/**
  The authentication service: password hashing, the three kinds of token
  (access, refresh, email verification), their decoders, and the current-user
  dependency with its look-aside cache of users keyed by email.
*/
module AuthService {
  import opened Wrappers
  import opened Errors
  import opened Models
  import opened Jwt
  import opened Users

  /** `timedelta(minutes=15)`, the default access-token lifetime. */
  const ACCESS_LIFETIME := 900
  /** `timedelta(days=7)`, the default refresh-token lifetime. */
  const REFRESH_LIFETIME := 604800
  /** `timedelta(days=7)`, the email-token lifetime. */
  const EMAIL_LIFETIME := 604800
  /** `r.expire(key, 900)` on every cached user. */
  const CACHE_TTL := 900

  const ACCESS_SCOPE := "access_token"
  const REFRESH_SCOPE := "refresh_token"

  /**
    The password hash. bcrypt's salt and cost are not modelled: the hash is
    the password under a tag, which keeps the one property the callers rely
    on, that a hash verifies exactly its own password.
  */
  function HashPassword(password: string): (h: string)
    ensures h != password
  {
    "$2b$" + password
  }

  /** `pwd_context.verify(plain, hashed)`. */
  predicate VerifyPassword(plain: string, hashed: string)
    ensures VerifyPassword(plain, hashed) ==> hashed != plain
  {
    hashed == HashPassword(plain)
  }

  lemma HashVerifies(password: string, other: string)
    ensures VerifyPassword(password, HashPassword(password))
    ensures VerifyPassword(other, HashPassword(password)) <==> other == password
  {
    if VerifyPassword(other, HashPassword(password)) {
      assert other == HashPassword(other)[4..] == HashPassword(password)[4..] == password;
    }
  }

  /** `if expires_delta: ... else: ...`: a missing or zero delta selects the default. */
  function Lifetime(expiresDelta: Option<int>, default: int): (r: int)
    ensures expiresDelta.None? || expiresDelta == Some(0) ==> r == default
    ensures expiresDelta.Some? && expiresDelta.value != 0 ==> r == expiresDelta.value
  {
    if expiresDelta.Some? && expiresDelta.value != 0 then expiresDelta.value else default
  }

  /** `create_access_token({"sub": sub}, expires_delta)` issued at `now`. */
  function CreateAccessToken(sub: string, expiresDelta: Option<int>, now: int): (t: Token)
    ensures t.signed && t.claims.sub == Some(sub) && t.claims.scope == Some(ACCESS_SCOPE)
    ensures t.claims.iat == now && t.claims.exp == now + Lifetime(expiresDelta, ACCESS_LIFETIME)
  {
    Encode(Claims(Some(sub), now, now + Lifetime(expiresDelta, ACCESS_LIFETIME), Some(ACCESS_SCOPE)))
  }

  /** `create_refresh_token({"sub": sub}, expires_delta)` issued at `now`. */
  function CreateRefreshToken(sub: string, expiresDelta: Option<int>, now: int): (t: Token)
    ensures t.signed && t.claims.sub == Some(sub) && t.claims.scope == Some(REFRESH_SCOPE)
    ensures t.claims.iat == now && t.claims.exp == now + Lifetime(expiresDelta, REFRESH_LIFETIME)
  {
    Encode(Claims(Some(sub), now, now + Lifetime(expiresDelta, REFRESH_LIFETIME), Some(REFRESH_SCOPE)))
  }

  /** `create_email_token({"sub": sub})` issued at `now`: it carries no scope. */
  function CreateEmailToken(sub: string, now: int): (t: Token)
    ensures t.signed && t.claims.sub == Some(sub) && t.claims.scope == None
    ensures t.claims.iat == now && t.claims.exp == now + EMAIL_LIFETIME
  {
    Encode(Claims(Some(sub), now, now + EMAIL_LIFETIME, None))
  }

  const CREDENTIALS := Http(401, "Could not validate credentials")

  /**
    `decode_refresh_token`. A token that does not decode is 401; a token
    without `scope` (an email token) raises `KeyError` on `payload['scope']`,
    which `except JWTError` does not catch; another scope is 401 "Invalid
    scope for token"; a refresh token without `sub` raises `KeyError`.
  */
  function DecodeRefreshToken(t: Token, now: int): (r: Result<string, Failure>)
    ensures r.Ok? <==> Decode(t, now).Some? && t.claims.scope == Some(REFRESH_SCOPE) && t.claims.sub.Some?
    ensures r.Ok? ==> r.value == t.claims.sub.value
  {
    match Decode(t, now)
    case None => Err(CREDENTIALS)
    case Some(c) =>
      match c.scope
      case None => Err(Uncaught("KeyError"))
      case Some(scope) =>
        if scope == REFRESH_SCOPE then
          match c.sub
          case None => Err(Uncaught("KeyError"))
          case Some(email) => Ok(email)
        else Err(Http(401, "Invalid scope for token"))
  }

  /**
    The token half of `get_current_user`: the email an access token names.
    Every rejection is the 401 credentials error except a token without
    `scope` or without `sub`, whose `KeyError` is not caught. (python-jose
    itself rejects a `sub` that is not a string, so the `email is None`
    test cannot fire.)
  */
  function AccessTokenSubject(t: Token, now: int): (r: Result<string, Failure>)
    ensures r.Ok? <==> Decode(t, now).Some? && t.claims.scope == Some(ACCESS_SCOPE) && t.claims.sub.Some?
    ensures r.Ok? ==> r.value == t.claims.sub.value
  {
    match Decode(t, now)
    case None => Err(CREDENTIALS)
    case Some(c) =>
      match c.scope
      case None => Err(Uncaught("KeyError"))
      case Some(scope) =>
        if scope == ACCESS_SCOPE then
          match c.sub
          case None => Err(Uncaught("KeyError"))
          case Some(email) => Ok(email)
        else Err(CREDENTIALS)
  }

  /**
    `get_email_from_token`: the `sub` of any token that decodes, whatever its
    scope; 422 when it does not decode; `KeyError` when it has no `sub`.
  */
  function GetEmailFromToken(t: Token, now: int): (r: Result<string, Failure>)
    ensures r.Ok? <==> Decode(t, now).Some? && t.claims.sub.Some?
    ensures r.Ok? ==> r.value == t.claims.sub.value
  {
    match Decode(t, now)
    case None => Err(Http(422, "Invalid token for email verification"))
    case Some(c) =>
      match c.sub
      case None => Err(Uncaught("KeyError"))
      case Some(email) => Ok(email)
  }

  /**
    An access token names its subject exactly until its expiry time, and is
    the 401 credentials error afterwards.
  */
  lemma AccessTokenRoundTrip(sub: string, expiresDelta: Option<int>, issued: int, now: int)
    ensures var t := CreateAccessToken(sub, expiresDelta, issued);
            AccessTokenSubject(t, now)
            == if now <= issued + Lifetime(expiresDelta, ACCESS_LIFETIME) then Ok(sub) else Err(CREDENTIALS)
  {
  }

  /** The same for refresh tokens, with a default lifetime of seven days. */
  lemma RefreshTokenRoundTrip(sub: string, expiresDelta: Option<int>, issued: int, now: int)
    ensures var t := CreateRefreshToken(sub, expiresDelta, issued);
            DecodeRefreshToken(t, now)
            == if now <= issued + Lifetime(expiresDelta, REFRESH_LIFETIME) then Ok(sub) else Err(CREDENTIALS)
  {
  }

  /** An email token yields its email for seven days, and 422 afterwards. */
  lemma EmailTokenRoundTrip(sub: string, issued: int, now: int)
    ensures GetEmailFromToken(CreateEmailToken(sub, issued), now)
            == if now <= issued + EMAIL_LIFETIME then Ok(sub) else Err(Http(422, "Invalid token for email verification"))
  {
  }

  /**
    Scopes keep the two session tokens apart while they are valid: an access
    token is refused as a refresh token and a refresh token as an access
    token. An email token carries no scope and makes both decoders raise.
  */
  lemma ScopesKeepTokensApart(sub: string, expiresDelta: Option<int>, issued: int, now: int)
    requires issued <= now
    requires now <= issued + Lifetime(expiresDelta, ACCESS_LIFETIME)
    requires now <= issued + Lifetime(expiresDelta, REFRESH_LIFETIME)
    ensures DecodeRefreshToken(CreateAccessToken(sub, expiresDelta, issued), now) == Err(Http(401, "Invalid scope for token"))
    ensures AccessTokenSubject(CreateRefreshToken(sub, expiresDelta, issued), now) == Err(CREDENTIALS)
    ensures now <= issued + EMAIL_LIFETIME ==>
              && DecodeRefreshToken(CreateEmailToken(sub, issued), now) == Err(Uncaught("KeyError"))
              && AccessTokenSubject(CreateEmailToken(sub, issued), now) == Err(Uncaught("KeyError"))
  {
  }

  /**
    The email-verification decoder does not look at the scope: a live access
    or refresh token confirms an email as well as an email token does.
  */
  lemma EmailDecoderIgnoresScope(sub: string, expiresDelta: Option<int>, issued: int, now: int)
    ensures now <= issued + Lifetime(expiresDelta, ACCESS_LIFETIME) ==>
              GetEmailFromToken(CreateAccessToken(sub, expiresDelta, issued), now) == Ok(sub)
    ensures now <= issued + Lifetime(expiresDelta, REFRESH_LIFETIME) ==>
              GetEmailFromToken(CreateRefreshToken(sub, expiresDelta, issued), now) == Ok(sub)
  {
  }

  /** A token whose signature does not verify is refused by every decoder. */
  lemma ForgedTokensRefused(c: Claims, now: int)
    ensures DecodeRefreshToken(Token(c, false), now) == Err(CREDENTIALS)
    ensures AccessTokenSubject(Token(c, false), now) == Err(CREDENTIALS)
    ensures GetEmailFromToken(Token(c, false), now) == Err(Http(422, "Invalid token for email verification"))
  {
  }

  /** A cached user and the time at which Redis drops the key. */
  datatype CacheEntry = CacheEntry(user: User, expiresAt: int)

  /** `f"user:{email}"`. */
  function CacheKey(email: string): string {
    "user:" + email
  }

  lemma CacheKeyInjective(a: string, b: string)
    ensures CacheKey(a) == CacheKey(b) <==> a == b
  {
    if CacheKey(a) == CacheKey(b) {
      assert a == CacheKey(a)[5..] == CacheKey(b)[5..] == b;
    }
  }

  /** `r.get(key)` at time `now`: a key is gone once its time to live has run out. */
  function CacheGet(cache: map<string, CacheEntry>, key: string, now: int): (r: Option<User>)
    ensures r.Some? <==> key in cache && now < cache[key].expiresAt
    ensures r.Some? ==> r.value == cache[key].user
  {
    if key in cache && now < cache[key].expiresAt then Some(cache[key].user) else None
  }

  /**
    `get_current_user` as a function of the cache and the table: the result
    and the cache afterwards. On a miss the user is read from the table and
    cached for `CACHE_TTL` seconds; a hit does not read the table.
  */
  function CurrentUser(cache: map<string, CacheEntry>, us: seq<User>, t: Token, now: int)
    : (r: (Result<User, Failure>, map<string, CacheEntry>))
    ensures AccessTokenSubject(t, now).Err? ==> r == (Err(AccessTokenSubject(t, now).error), cache)
    ensures r.0.Ok? ==> AccessTokenSubject(t, now).Ok?
    ensures AccessTokenSubject(t, now).Ok? ==>
              var email := AccessTokenSubject(t, now).value;
              match CacheGet(cache, CacheKey(email), now)
              case Some(u) => r == (Ok(u), cache)
              case None =>
                match GetUserByEmail(us, email)
                case None => r == (Err(CREDENTIALS), cache)
                case Some(u) => r == (Ok(u), cache[CacheKey(email) := CacheEntry(u, now + CACHE_TTL)])
  {
    match AccessTokenSubject(t, now)
    case Err(e) => (Err(e), cache)
    case Ok(email) =>
      var key := CacheKey(email);
      match CacheGet(cache, key, now)
      case Some(u) => (Ok(u), cache)
      case None =>
        match GetUserByEmail(us, email)
        case None => (Err(CREDENTIALS), cache)
        case Some(u) => (Ok(u), cache[key := CacheEntry(u, now + CACHE_TTL)])
  }

  /** Every live cache entry holds the current row of the email it is keyed by. */
  ghost predicate CacheAgrees(cache: map<string, CacheEntry>, us: seq<User>, now: int) {
    forall email :: CacheGet(cache, CacheKey(email), now).Some? ==>
      CacheGet(cache, CacheKey(email), now) == GetUserByEmail(us, email)
  }

  /**
    While the cache agrees with the table, the current user is the table's
    row for the token's email, it is the 401 credentials error exactly when
    there is no such row, and the cache still agrees afterwards.
  */
  lemma CurrentUserMatchesTable(cache: map<string, CacheEntry>, us: seq<User>, t: Token, now: int)
    requires CacheAgrees(cache, us, now)
    requires AccessTokenSubject(t, now).Ok?
    ensures var email := AccessTokenSubject(t, now).value;
            var (r, after) := CurrentUser(cache, us, t, now);
            && (r.Ok? <==> GetUserByEmail(us, email).Some?)
            && (r.Ok? ==> r.value == GetUserByEmail(us, email).value)
            && (r.Err? ==> r.error == CREDENTIALS)
            && CacheAgrees(after, us, now)
  {
    var email := AccessTokenSubject(t, now).value;
    var (r, after) := CurrentUser(cache, us, t, now);
    forall e | CacheGet(after, CacheKey(e), now).Some?
      ensures CacheGet(after, CacheKey(e), now) == GetUserByEmail(us, e)
    {
      CacheKeyInjective(e, email);
    }
  }

  /**
    The cache is never invalidated when the table changes: once a request
    has read a user from the table, a request with the same token within the
    time to live returns that same user, whatever the table holds by then.
  */
  lemma CachedUserOutlivesTableChanges(cache: map<string, CacheEntry>, us: seq<User>, later: seq<User>, t: Token, now: int, now2: int)
    requires now <= now2 < now + CACHE_TTL
    requires AccessTokenSubject(t, now2).Ok?
    requires CurrentUser(cache, us, t, now).0.Ok?
    ensures var (r1, cache1) := CurrentUser(cache, us, t, now);
            var (r2, cache2) := CurrentUser(cache1, later, t, now2);
            CacheGet(cache, CacheKey(AccessTokenSubject(t, now).value), now).None? ==> r2 == r1
  {
  }

  /**
    The staleness is bounded by the time to live: once `CACHE_TTL` seconds
    have passed since a user was read from the table and cached, the next
    request reads the table again, and sees the table as it is by then.
  */
  lemma CacheExpiryRereadsTable(cache: map<string, CacheEntry>, us: seq<User>, later: seq<User>, t: Token, now: int, now2: int)
    requires now + CACHE_TTL <= now2
    requires AccessTokenSubject(t, now2).Ok?
    requires CurrentUser(cache, us, t, now).0.Ok?
    requires CacheGet(cache, CacheKey(AccessTokenSubject(t, now).value), now).None?
    ensures var (_, cache1) := CurrentUser(cache, us, t, now);
            var email := AccessTokenSubject(t, now2).value;
            var (r2, _) := CurrentUser(cache1, later, t, now2);
            && (r2.Ok? <==> GetUserByEmail(later, email).Some?)
            && (r2.Ok? ==> r2.value == GetUserByEmail(later, email).value)
  {
  }

  /** The authentication service; its state is the Redis cache of users. */
  class Auth {
    var cache: map<string, CacheEntry>

    constructor ()
      ensures cache == map[]
    {
      cache := map[];
    }

    /**
      `get_current_user`: decodes the access token, then answers from the
      cache, or reads the user from the table and caches it for 900 seconds.
    */
    method GetCurrentUser(t: Token, store: UserStore, now: int) returns (r: Result<User, Failure>)
      modifies this
      ensures (r, cache) == CurrentUser(old(cache), store.users, t, now)
    {
      var subject := AccessTokenSubject(t, now);
      if subject.Err? {
        return Err(subject.error);
      }
      var email := subject.value;
      var cached := CacheGet(cache, CacheKey(email), now);
      if cached.Some? {
        return Ok(cached.value);
      }
      var user := GetUserByEmail(store.users, email);
      if user.None? {
        return Err(CREDENTIALS);
      }
      cache := cache[CacheKey(email) := CacheEntry(user.value, now + CACHE_TTL)];
      r := Ok(user.value);
    }
  }
}
