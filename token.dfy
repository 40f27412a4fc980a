/** The group-scoped token claims (no session id, a fixed thirty-day
    lifetime), built before signing. Signing and decoding are not modelled. */
module Token {
  import opened Base
  import opened Entities
  import JwtToken

  /** Thirty days in seconds. */
  const TOKEN_LIFETIME: int := 30 * 24 * 60 * 60

  datatype ResourceClaim = ResourceClaim(
    clientId: Uuid,
    clientName: string,
    groupName: string,
    identifiers: map<string, string>)

  datatype TokenUser = TokenUser(
    sub: Uuid,
    firstName: string,
    lastName: string,
    email: string,
    phone: string,
    resource: Option<ResourceClaim>)

  datatype Claims = Claims(
    exp: int,
    iat: int,
    sub: Uuid,
    firstName: string,
    lastName: string,
    email: string,
    phone: string,
    resource: Option<ResourceClaim>)

  function ResourceOf(client: Client, group: ResourceGroup, resources: seq<Resource>): ResourceClaim {
    ResourceClaim(client.id, client.name, group.name, JwtToken.Identifiers(resources))
  }

  /** `Resource::from`: the same insertion loop as the access token's. */
  method ResourceFrom(client: Client, group: ResourceGroup, resources: seq<Resource>) returns (r: ResourceClaim)
    ensures r == ResourceOf(client, group, resources)
    ensures r.clientId == client.id && r.clientName == client.name && r.groupName == group.name
    ensures r.identifiers.Keys == JwtToken.Names(resources)
  {
    var identifiers := JwtToken.CollectIdentifiers(resources);
    r := ResourceClaim(client.id, client.name, group.name, identifiers);
  }

  /** `TokenUser::from` */
  function TokenUserOf(user: User, client: Client, group: ResourceGroup, resources: seq<Resource>): TokenUser {
    TokenUser(user.id, user.firstName, user.lastName.GetOr(""), user.email, user.phone.GetOr(""),
              Some(ResourceOf(client, group, resources)))
  }

  /** `TokenUser::from_claim` */
  function FromClaim(c: Claims): TokenUser {
    TokenUser(c.sub, c.firstName, c.lastName, c.email, c.phone, c.resource)
  }

  /** `Claims::new`, issued at `now`. */
  function NewClaims(user: User, client: Client, group: ResourceGroup, resources: seq<Resource>, now: int): Claims {
    var u := TokenUserOf(user, client, group, resources);
    Claims(AsUnsigned64(now + TOKEN_LIFETIME), AsUnsigned64(now), u.sub, u.firstName, u.lastName, u.email, u.phone, u.resource)
  }

  // ---------------------------------------------------------------------------

  /** The token user blanks a missing last name or phone and always carries
      the resource claim of the group. */
  lemma TokenUserFields(user: User, client: Client, group: ResourceGroup, resources: seq<Resource>)
    ensures var u := TokenUserOf(user, client, group, resources);
      && u.sub == user.id
      && (user.lastName.None? ==> u.lastName == "") && (user.lastName.Some? ==> u.lastName == user.lastName.value)
      && (user.phone.None? ==> u.phone == "") && (user.phone.Some? ==> u.phone == user.phone.value)
      && u.resource.Some? && u.resource.value.groupName == group.name
      && u.resource.value.clientId == client.id && u.resource.value.clientName == client.name
      && u.resource.value.identifiers.Keys == JwtToken.Names(resources)
  {
  }

  /** A token issued at a non-negative time expires 2,592,000 seconds later. */
  lemma ClaimsLastThirtyDays(user: User, client: Client, group: ResourceGroup, resources: seq<Resource>, now: int)
    requires 0 <= now
    ensures var c := NewClaims(user, client, group, resources, now);
      c.iat == now && c.exp == c.iat + 2592000
  {
  }

  /** Reading the user back out of the claims gives the user the claims were built from. */
  lemma ClaimsRoundTrip(user: User, client: Client, group: ResourceGroup, resources: seq<Resource>, now: int)
    ensures FromClaim(NewClaims(user, client, group, resources, now)) == TokenUserOf(user, client, group, resources)
  {
  }
}
