/**
 * src/middleware/middleware.ts: the `isAuth` guard in front of every resolver
 * that needs a caller.
 */
module Middleware {
  import opened Wrappers
  import opened Jwt

  /**
   * `isAuth`: the `auth` header must be present and non-empty and must verify
   * with `JWT_SECRET`; the decoded payload becomes `ctx.user`.
   */
  function IsAuth(header: Option<Token>, now: int): (r: Result<Payload>)
    ensures header.None? || header == Some(Malformed("")) ==> r == Err("Authorization header is  missing")
    ensures header.Some? && header != Some(Malformed("")) ==>
      (r.Ok? <==> Verify(header.value, JwtSecret, now).Ok?)
    ensures r.Err? && header.Some? && header != Some(Malformed("")) ==> r.message == "Authorization failed"
    ensures r.Ok? ==> header.value.Signed? && header.value.secret == JwtSecret && now < header.value.expiresAt
    ensures r.Ok? ==> header.Some? && header.value.Signed? && r.value == header.value.payload
  {
    if header.None? || header == Some(Malformed("")) then Err("Authorization header is  missing")
    else match Verify(header.value, JwtSecret, now)
      case Ok(payload) => Ok(payload)
      case Err(_) => Err("Authorization failed")
  }

  /** A refresh token never passes the guard: it is signed with the other key. */
  lemma RefreshTokenIsNotAccess(claims: Claims, issued: int, now: int)
    ensures IsAuth(Some(Sign(ClaimsPayload(claims), JwtRefreshSecret, issued, RefreshTokenLifetime)), now)
      == Err("Authorization failed")
  {
  }
}
