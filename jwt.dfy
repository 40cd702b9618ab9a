/**
 * `jsonwebtoken`'s `sign` and `verify`, kept symbolic: a token records the
 * payload, the key it was signed with and its expiry. The two keys,
 * `JWT_SECRET` and `JWT_REFRESH_SECRET`, are distinct, so a token signed with
 * one never verifies with the other.
 */
module Jwt {
  import opened Wrappers
  import opened Schema

  datatype Secret = JwtSecret | JwtRefreshSecret

  /** The claims the resolvers sign, `{ id, role }`; after `isAuth` they are `ctx.user`. */
  datatype Claims = Claims(id: string, role: Role)

  /** `jwt.verify` returns either a decoded object or, for a token whose payload was a string, that string. */
  datatype Payload = ClaimsPayload(claims: Claims) | TextPayload(text: string)

  /** What a client presents: a signed token, or any other text. */
  datatype Token = Signed(payload: Payload, secret: Secret, expiresAt: int) | Malformed(text: string)

  /** `expiresIn: "15m"` for access tokens and `"7d"` for refresh tokens, in milliseconds. */
  const AccessTokenLifetime := 15 * 60 * 1000
  const RefreshTokenLifetime := 7 * 24 * 60 * 60 * 1000

  /** `jwt.sign(payload, secret, { expiresIn: lifetime })` at time `now`. */
  function Sign(payload: Payload, secret: Secret, now: int, lifetime: int): (t: Token)
    ensures t.Signed? && t.payload == payload && t.secret == secret
  {
    Signed(payload, secret, now + lifetime)
  }

  /** `jwt.verify(token, secret)` at time `now`, with the library's error messages. */
  function Verify(token: Token, secret: Secret, now: int): Result<Payload> {
    match token
    case Malformed(_) => Err("jwt malformed")
    case Signed(payload, key, expiresAt) =>
      if key != secret then Err("invalid signature")
      else if now >= expiresAt then Err("jwt expired")
      else Ok(payload)
  }

  /** A signed token verifies with its own key, and yields its payload, exactly until it expires. */
  lemma SignThenVerify(payload: Payload, secret: Secret, key: Secret, issued: int, lifetime: int, now: int)
    ensures Verify(Sign(payload, secret, issued, lifetime), key, now).Ok? <==> key == secret && now < issued + lifetime
    ensures Verify(Sign(payload, secret, issued, lifetime), key, now).Ok? ==>
      Verify(Sign(payload, secret, issued, lifetime), key, now).value == payload
  {
  }
}
