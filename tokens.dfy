/** The claims a login token carries, and the token as an opaque value built from them. */
module Tokens {
  import opened Wrappers
  import Guids
  import Roles

  /** `ClaimTypes.Name`, `ClaimTypes.Role`, `ClaimTypes.NameIdentifier`. */
  datatype ClaimType = NameClaim | RoleClaim | NameIdentifierClaim

  datatype Claim = Claim(kind: ClaimType, value: string)

  /** The `Jwt:*` configuration entries, taken as opaque strings. */
  datatype JwtConfig = JwtConfig(key: string, issuer: string, audience: string, expiresInMinutes: string)

  /** A token: its claims, issuer and audience; signature and expiry are not modelled. */
  datatype Token = Jwt(claims: seq<Claim>, issuer: string, audience: string)

  /** The value of the first claim of a type, as `ClaimsPrincipal.FindFirst` reads it. */
  function Find(claims: seq<Claim>, kind: ClaimType): (r: Option<string>)
    ensures r.Some? <==> exists i :: 0 <= i < |claims| && claims[i].kind == kind
  {
    if claims == [] then None
    else if claims[0].kind == kind then Some(claims[0].value)
    else Find(claims[1..], kind)
  }

  /** The subject of a login token: name, role name and id text, one claim each. */
  function Claims(name: string, role: Roles.Role, id: Guids.Guid): (c: seq<Claim>)
    ensures |c| == 3
    ensures Find(c, NameClaim) == Some(name)
    ensures Find(c, RoleClaim) == Some(Roles.Name(role))
    ensures Find(c, NameIdentifierClaim) == Some(Guids.ToString(id))
  {
    var c := [Claim(NameClaim, name), Claim(RoleClaim, Roles.Name(role)), Claim(NameIdentifierClaim, Guids.ToString(id))];
    assert Find(c[2..], NameIdentifierClaim) == Some(Guids.ToString(id));
    assert c[1..][1..] == c[2..];
    c
  }

  /** Distinct subjects get distinct claim lists. */
  lemma ClaimsIdentify(n1: string, r1: Roles.Role, i1: Guids.Guid, n2: string, r2: Roles.Role, i2: Guids.Guid)
    requires Claims(n1, r1, i1) == Claims(n2, r2, i2)
    ensures n1 == n2 && r1 == r2 && i1 == i2
  {
    assert Claims(n1, r1, i1)[1] == Claims(n2, r2, i2)[1];
    assert Claims(n1, r1, i1)[2] == Claims(n2, r2, i2)[2];
    Roles.NameInjective(r1, r2);
    Guids.ToStringInjective(i1, i2);
  }

  /** `tokenHandler.CreateToken` on the descriptor built from the configuration. */
  function Issue(claims: seq<Claim>, config: JwtConfig): (t: Token)
    ensures t.claims == claims
    ensures t.issuer == config.issuer && t.audience == config.audience
  {
    Jwt(claims, config.issuer, config.audience)
  }
}
