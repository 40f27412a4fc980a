/** The access-token claims of a session, built before signing. Signing and
    decoding are not modelled: a token is its claims. */
module JwtToken {
  import opened Base
  import opened Entities

  /** The `resource` claim: the client, the group name and the resources as a name→value map. */
  datatype ResourceClaim = ResourceClaim(
    clientId: Uuid,
    clientName: string,
    groupName: Option<string>,
    identifiers: map<string, string>)

  datatype JwtUser = JwtUser(
    sub: Uuid,
    sid: Uuid,
    firstName: string,
    lastName: string,
    email: string,
    phone: string,
    resource: Option<ResourceClaim>)

  /** `exp` and `iat` are `usize` seconds. */
  datatype Claims = Claims(
    exp: int,
    iat: int,
    sub: Uuid,
    sid: Uuid,
    iss: string,
    firstName: string,
    lastName: string,
    email: string,
    phone: string,
    resource: Option<ResourceClaim>)

  function Names(rs: seq<Resource>): set<string> {
    set r | r in rs :: r.name
  }

  /** The map that inserting each resource's (name, value), first to last, builds:
      every name present, each bound to the value of its last occurrence. */
  function Identifiers(rs: seq<Resource>): (m: map<string, string>)
    ensures m.Keys == Names(rs)
  {
    if rs == [] then map[]
    else
      var init, last := rs[..|rs| - 1], rs[|rs| - 1];
      NamesSnoc(rs);
      Identifiers(init)[last.name := last.value]
  }

  /** A resource whose name no later resource repeats gives its value to that name. */
  lemma {:induction false} IdentifiersLastOccurrence(rs: seq<Resource>, i: nat)
    requires i < |rs| && forall j :: i < j < |rs| ==> rs[j].name != rs[i].name
    ensures rs[i].name in Identifiers(rs) && Identifiers(rs)[rs[i].name] == rs[i].value
  {
    var n := |rs| - 1;
    if i < n {
      var init := rs[..n];
      assert init[i] == rs[i];
      assert forall j :: i < j < n ==> init[j].name != init[i].name by {
        forall j | i < j < n ensures init[j].name != init[i].name {
          assert init[j] == rs[j];
        }
      }
      IdentifiersLastOccurrence(init, i);
      assert rs[n].name != rs[i].name;
      assert Identifiers(rs) == Identifiers(init)[rs[n].name := rs[n].value];
    }
  }

  lemma NamesSnoc(rs: seq<Resource>)
    requires rs != []
    ensures Names(rs) == Names(rs[..|rs| - 1]) + {rs[|rs| - 1].name}
  {
    var init, last := rs[..|rs| - 1], rs[|rs| - 1];
    assert rs == init + [last];
    assert forall r :: r in rs <==> r in init || r == last;
  }

  /** Inserting one more resource overwrites its name. */
  lemma IdentifiersSnoc(rs: seq<Resource>, i: nat)
    requires i < |rs|
    ensures Identifiers(rs[..i + 1]) == Identifiers(rs[..i])[rs[i].name := rs[i].value]
  {
    assert rs[..i + 1][..i] == rs[..i];
  }

  /** The `for` loop of `Resource::from`, inserting into a fresh map. */
  method CollectIdentifiers(resources: seq<Resource>) returns (identifiers: map<string, string>)
    ensures identifiers == Identifiers(resources)
  {
    identifiers := map[];
    for i := 0 to |resources|
      invariant identifiers == Identifiers(resources[..i])
    {
      IdentifiersSnoc(resources, i);
      identifiers := identifiers[resources[i].name := resources[i].value];
    }
    assert resources[..|resources|] == resources;
  }

  function ResourceOf(client: Client, resources: seq<Resource>, groupName: Option<string>): ResourceClaim {
    ResourceClaim(client.id, client.name, groupName, Identifiers(resources))
  }

  /** `Resource::from` */
  method ResourceFrom(client: Client, resources: seq<Resource>, groupName: Option<string>) returns (r: ResourceClaim)
    ensures r == ResourceOf(client, resources, groupName)
    ensures r.clientId == client.id && r.clientName == client.name && r.groupName == groupName
    ensures r.identifiers.Keys == Names(resources)
  {
    var identifiers := CollectIdentifiers(resources);
    r := ResourceClaim(client.id, client.name, groupName, identifiers);
  }

  /** `JwtUser::from` */
  function JwtUserOf(user: User, client: Client, resources: seq<Resource>, groupName: Option<string>, session: Session): JwtUser {
    JwtUser(user.id, session.id, user.firstName, user.lastName.GetOr(""), user.email, user.phone.GetOr(""),
            Some(ResourceOf(client, resources, groupName)))
  }

  /** `JwtUser::from_claim` */
  function FromClaim(c: Claims): JwtUser {
    JwtUser(c.sub, c.sid, c.firstName, c.lastName, c.email, c.phone, c.resource)
  }

  /** `Claims::new`, with the clock reading `now` and the configured host `iss`. */
  function NewClaims(user: User, client: Client, resources: seq<Resource>, groupName: Option<string>, session: Session,
                     now: int, iss: string): Claims {
    var u := JwtUserOf(user, client, resources, groupName, session);
    Claims(AsUnsigned64(session.expires), AsUnsigned64(now), u.sub, u.sid, iss,
           u.firstName, u.lastName, u.email, u.phone, u.resource)
  }

  // ---------------------------------------------------------------------------

  /** A name given several times keeps the value of its last occurrence. */
  lemma LastDuplicateWins(rs: seq<Resource>, i: nat, j: nat)
    requires i < j < |rs| && rs[i].name == rs[j].name
    requires forall k :: j < k < |rs| ==> rs[k].name != rs[j].name
    ensures Identifiers(rs)[rs[i].name] == rs[j].value
  {
    IdentifiersLastOccurrence(rs, j);
  }

  /** The user claim names the user and the session, blanks a missing last
      name or phone, and always carries a resource claim for the client. */
  lemma JwtUserFields(user: User, client: Client, resources: seq<Resource>, groupName: Option<string>, session: Session)
    ensures var u := JwtUserOf(user, client, resources, groupName, session);
      && u.sub == user.id && u.sid == session.id
      && (user.lastName.None? ==> u.lastName == "") && (user.lastName.Some? ==> u.lastName == user.lastName.value)
      && (user.phone.None? ==> u.phone == "") && (user.phone.Some? ==> u.phone == user.phone.value)
      && u.resource.Some? && u.resource.value.clientId == client.id && u.resource.value.clientName == client.name
      && u.resource.value.groupName == groupName && u.resource.value.identifiers.Keys == Names(resources)
  {
  }

  /** The access token expires with its session, is issued now (both as
      unsigned casts of the timestamps) and copies the user claim's fields. */
  lemma ClaimsFollowSession(user: User, client: Client, resources: seq<Resource>, groupName: Option<string>, session: Session,
                            now: int, iss: string)
    requires 0 <= now && 0 <= session.expires
    ensures var c := NewClaims(user, client, resources, groupName, session, now, iss);
      var u := JwtUserOf(user, client, resources, groupName, session);
      && c.exp == session.expires && c.iat == now && c.sub == user.id && c.sid == session.id && c.iss == iss
      && c.firstName == u.firstName && c.lastName == u.lastName && c.email == u.email
      && c.phone == u.phone && c.resource == u.resource
  {
  }

  /** Reading the user back out of the claims gives the user the claims were built from. */
  lemma ClaimsRoundTrip(user: User, client: Client, resources: seq<Resource>, groupName: Option<string>, session: Session,
                        now: int, iss: string)
    ensures FromClaim(NewClaims(user, client, resources, groupName, session, now, iss))
         == JwtUserOf(user, client, resources, groupName, session)
  {
  }
}
