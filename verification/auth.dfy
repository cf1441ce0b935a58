/** Token extraction and request authentication (src/lib/auth.ts). Signing and verifying a
    JSON Web Token are opaque: a token is its payload and expiry, and turning the bearer
    string back into one (the signature check) is the `decode` parameter. */
module Auth {
  import opened Wrappers
  import opened Text

  /** The payload of a token. Admin tokens carry `userId`, `email` and role "admin"; agent
      tokens carry `agentId`, `userId` (the owning admin), `email`, `name`, role "agent" and
      `adminEmail`. Handlers read each field as it may or may not be there. */
  datatype Claims = Claims(
    userId: string, agentId: Option<string>, email: string, name: Option<string>,
    role: Option<string>, adminEmail: Option<string>)

  /** A signed token: its payload and its expiry, in seconds since the epoch. */
  datatype SignedToken = SignedToken(payload: Claims, expiresAt: int)

  /** `expiresIn: '24h'`, in seconds. */
  const TokenLifetime: int := 24 * 60 * 60

  /** `signToken`: the payload, expiring 24 hours after `now`. */
  function SignToken(payload: Claims, now: int): (t: SignedToken)
    ensures t.payload == payload && t.expiresAt - now == 86400
  {
    SignedToken(payload, now + TokenLifetime)
  }

  /** `verifyToken`: the payload of a token whose signature checks out (`decode` succeeds)
      and that has not expired at `now`; every failure gives the same `None`. */
  function VerifyToken(decode: string -> Option<SignedToken>, token: string, now: int): (r: Option<Claims>)
    ensures r.Some? <==> decode(token).Some? && now < decode(token).value.expiresAt
    ensures r.Some? ==> r.value == decode(token).value.payload
  {
    match decode(token)
    case None => None
    case Some(t) => if now < t.expiresAt then Some(t.payload) else None
  }

  const BearerPrefix: string := "Bearer "

  /** `getTokenFromRequest`: the `authorization` header without its scheme, when the scheme
      is exactly "Bearer " (case-sensitive); otherwise nothing. */
  function GetTokenFromRequest(authHeader: Option<string>): (r: Option<string>)
    ensures r.Some? <==> authHeader.Some? && StartsWith(authHeader.value, "Bearer ")
    ensures r.Some? ==> authHeader.value == "Bearer " + r.value
  {
    if Truthy(authHeader) && StartsWith(authHeader.value, BearerPrefix) then
      var t := authHeader.value[7..];
      assert authHeader.value == authHeader.value[..7] + t;
      Some(Substring(authHeader.value, 7))
    else None
  }

  /** Extraction undoes "Bearer " + token. */
  lemma BearerRoundTrip(token: string)
    ensures GetTokenFromRequest(Some("Bearer " + token)) == Some(token)
  {
    assert ("Bearer " + token)[..7] == "Bearer ";
    assert ("Bearer " + token)[7..] == token;
  }

  /** `authenticateRequest`: nothing when no token is extracted or the token is the empty
      string (falsy); otherwise whatever `verifyToken` says. */
  function AuthenticateRequest(authHeader: Option<string>, decode: string -> Option<SignedToken>, now: int): (r: Option<Claims>)
    ensures GetTokenFromRequest(authHeader).None? ==> r.None?
    ensures GetTokenFromRequest(authHeader) == Some("") ==> r.None?
    ensures Truthy(GetTokenFromRequest(authHeader)) ==> r == VerifyToken(decode, GetTokenFromRequest(authHeader).value, now)
    ensures r.Some? ==>
      (exists token :: authHeader == Some("Bearer " + token) && token != "" && VerifyToken(decode, token, now) == r)
  {
    var token := GetTokenFromRequest(authHeader);
    if !Truthy(token) then None
    else VerifyToken(decode, token.value, now)
  }

  /** A token signed at `issuedAt` and presented as "Bearer <token>" authenticates as its
      payload exactly until 24 hours have passed, provided the signature check recognises it. */
  lemma SignedTokenAuthenticates(claims: Claims, issuedAt: int, token: string, decode: string -> Option<SignedToken>, now: int)
    requires token != "" && decode(token) == Some(SignToken(claims, issuedAt))
    ensures AuthenticateRequest(Some("Bearer " + token), decode, now)
      == if now < issuedAt + 86400 then Some(claims) else None
  {
    BearerRoundTrip(token);
  }

  /** A missing header, another scheme, a bad signature and an expired token are all the
      same `None`. */
  lemma FailuresIndistinguishable(authHeader: Option<string>, decode: string -> Option<SignedToken>, now: int)
    requires authHeader.None? || !StartsWith(authHeader.value, "Bearer ")
      || decode(authHeader.value[7..]).None?
      || now >= decode(authHeader.value[7..]).value.expiresAt
    ensures AuthenticateRequest(authHeader, decode, now) == None
  {
    if authHeader.Some? && StartsWith(authHeader.value, "Bearer ") {
      assert authHeader.value == "Bearer " + authHeader.value[7..];
    }
  }
}
