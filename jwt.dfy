/**
  JSON Web Tokens as values. Signing and verification are not modelled: a
  token is the claims it carries plus whether its signature verifies under
  the server's secret key. Encoding is deterministic (python-jose writes
  `iat` and `exp` as whole seconds and adds no nonce), so equal values give
  equal token strings. The converse is not modelled: a token is identified
  with its value, although several strings can verify to the same claims.
*/
module Jwt {
  import opened Wrappers

  /** The payload: `sub` and `scope` may be absent, times are Unix seconds. */
  datatype Claims = Claims(sub: Option<string>, iat: int, exp: int, scope: Option<string>)

  datatype Token = Token(claims: Claims, signed: bool)

  /** `jwt.encode(claims, SECRET_KEY, algorithm=ALGORITHM)`. */
  function Encode(c: Claims): Token {
    Token(c, true)
  }

  /**
    `jwt.decode(token, SECRET_KEY, algorithms=[ALGORITHM])` at time `now`:
    None stands for a raised `JWTError` (bad signature, or `exp < now`).
  */
  function Decode(t: Token, now: int): (r: Option<Claims>)
    ensures r.Some? <==> t.signed && now <= t.claims.exp
    ensures r.Some? ==> r.value == t.claims
  {
    if t.signed && now <= t.claims.exp then Some(t.claims) else None
  }
}
