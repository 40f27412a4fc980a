/** Session and refresh-token services: refresh-token rotation, session
    admission (the concurrency cap, the resource selection and the session
    insert) and the active-row lookups. */
module AuthService {
  import opened Base
  import opened Entities
  import opened Store
  import JwtToken

  /** The refresh-token claims: the token row's id, and the realm and client
      it was issued for. Their encoding (`api_token.rs`) is not part of this model. */
  datatype RefreshTokenClaims = RefreshTokenClaims(sub: Uuid, rli: Uuid, cli: Uuid)

  function RefreshClaimsOf(t: RefreshToken, client: Client): RefreshTokenClaims {
    RefreshTokenClaims(t.id, client.realmId, client.id)
  }

  /** What a login or refresh returns: the access token's claims, the user, and
      the session, realm and client ids; the refresh token when one was issued. */
  datatype LoginResponse = LoginResponse(
    accessToken: JwtToken.Claims,
    user: User,
    sessionId: Uuid,
    realmId: Uuid,
    clientId: Uuid,
    refreshToken: Option<RefreshTokenClaims>)

  // ---------------------------------------------------------------------------
  // Refresh-token rotation

  predicate AtReuseLimit(t: RefreshToken, client: Client) {
    t.reUsedCount >= client.refreshTokenReuseLimit
  }

  /** The token row a refresh leaves: a replacement with a new id and a zero
      count at or over the client's reuse limit, else the same row counted once more. */
  function Rotated(t: RefreshToken, client: Client, freshId: Uuid): (n: RefreshToken)
    ensures IsI32(t.reUsedCount) && IsI32(client.refreshTokenReuseLimit) ==> IsI32(n.reUsedCount)
  {
    if AtReuseLimit(t, client) then RefreshToken(freshId, t.userId, Some(client.id), client.realmId, 0, None)
    else RefreshToken(t.id, t.userId, t.clientId, t.realmId, t.reUsedCount + 1, None)
  }

  datatype Rotation = Rotation(result: Result<RefreshToken>, tokens: map<Uuid, RefreshToken>)

  /** The refresh-token table after the refresh: delete then insert at the
      limit; below it an update by id, which fails when the row is gone. */
  function RotationOf(tokens: map<Uuid, RefreshToken>, t: RefreshToken, client: Client, freshId: Uuid): Rotation {
    var n := Rotated(t, client, freshId);
    if AtReuseLimit(t, client) then Rotation(Ok(n), (tokens - {t.id})[freshId := n])
    else if t.id in tokens then Rotation(Ok(n), tokens[t.id := n])
    else Rotation(Err(Db(RecordNotUpdated)), tokens)
  }

  /** `handle_refresh_token` */
  method HandleRefreshToken(db: Database, t: RefreshToken, client: Client, freshId: Uuid) returns (r: Result<RefreshTokenClaims>)
    requires freshId !in db.refreshTokens
    modifies db`refreshTokens
    ensures var rot := RotationOf(old(db.refreshTokens), t, client, freshId);
      && db.refreshTokens == rot.tokens
      && r == if rot.result.Ok? then Ok(RefreshClaimsOf(rot.result.value, client)) else Err(rot.result.error)
  {
    var model: RefreshToken;
    if t.reUsedCount >= client.refreshTokenReuseLimit {
      db.refreshTokens := db.refreshTokens - {t.id};
      model := RefreshToken(freshId, t.userId, Some(client.id), client.realmId, 0, None);
      db.refreshTokens := db.refreshTokens[freshId := model];
    } else {
      model := RefreshToken(t.id, t.userId, t.clientId, t.realmId, t.reUsedCount + 1, None);
      if t.id !in db.refreshTokens {
        return Err(Db(RecordNotUpdated));
      }
      db.refreshTokens := db.refreshTokens[t.id := model];
    }
    r := Ok(RefreshClaimsOf(model, client));
  }

  /** At or over the limit the presented id disappears and a new, unlocked,
      zero-count token for the same user and the client's realm takes its place. */
  lemma RotationAtLimitReplaces(tokens: map<Uuid, RefreshToken>, t: RefreshToken, client: Client, freshId: Uuid)
    requires AtReuseLimit(t, client) && freshId !in tokens && t.id in tokens
    ensures var rot := RotationOf(tokens, t, client, freshId);
      && rot.result.Ok?
      && rot.result.value == RefreshToken(freshId, t.userId, Some(client.id), client.realmId, 0, None)
      && t.id !in rot.tokens && freshId in rot.tokens && rot.tokens[freshId] == rot.result.value
  {
  }

  /** Below the limit the token keeps its id, user, client and realm, its
      count goes up by exactly one and its lock is cleared. */
  lemma RotationBelowLimitCounts(tokens: map<Uuid, RefreshToken>, t: RefreshToken, client: Client, freshId: Uuid)
    requires !AtReuseLimit(t, client) && t.id in tokens
    ensures var rot := RotationOf(tokens, t, client, freshId);
      && rot.result.Ok?
      && rot.result.value.id == t.id && rot.result.value.userId == t.userId
      && rot.result.value.clientId == t.clientId && rot.result.value.realmId == t.realmId
      && rot.result.value.reUsedCount == t.reUsedCount + 1 && rot.result.value.lockedAt.None?
      && rot.tokens.Keys == tokens.Keys && rot.tokens[t.id] == rot.result.value
  {
  }

  /** Either branch leaves exactly one row for the token's chain (the presented
      id or the new one), holding the returned token, and no other row changes. */
  lemma RotationKeepsOneTokenPerChain(tokens: map<Uuid, RefreshToken>, t: RefreshToken, client: Client, freshId: Uuid)
    requires t.id in tokens && freshId !in tokens
    ensures var rot := RotationOf(tokens, t, client, freshId);
      && rot.result.Ok?
      && ((t.id in rot.tokens) != (freshId in rot.tokens))
      && rot.result.value.id in rot.tokens && rot.tokens[rot.result.value.id] == rot.result.value
      && |rot.tokens| == |tokens|
      && forall id :: id != t.id && id != freshId ==>
           (id in rot.tokens <==> id in tokens) && (id in tokens ==> rot.tokens[id] == tokens[id])
  {
    var rot := RotationOf(tokens, t, client, freshId);
    if AtReuseLimit(t, client) {
      assert rot.tokens.Keys == (tokens.Keys - {t.id}) + {freshId};
      assert |tokens.Keys - {t.id}| == |tokens.Keys| - 1;
    } else {
      assert rot.tokens.Keys == tokens.Keys;
    }
  }

  /** The token a chain of refreshes leaves, one new id per refresh. */
  function Refreshes(t: RefreshToken, client: Client, ids: seq<Uuid>): RefreshToken {
    if ids == [] then t
    else Rotated(Refreshes(t, client, ids[..|ids| - 1]), client, ids[|ids| - 1])
  }

  /** While the count stays within the limit, every refresh keeps the id and counts one more use. */
  lemma {:induction false} RefreshesKeepIdWithinLimit(t: RefreshToken, client: Client, ids: seq<Uuid>)
    requires t.reUsedCount + |ids| <= client.refreshTokenReuseLimit
    ensures Refreshes(t, client, ids).id == t.id
    ensures Refreshes(t, client, ids).reUsedCount == t.reUsedCount + |ids|
    ensures Refreshes(t, client, ids).userId == t.userId
  {
    if ids != [] {
      RefreshesKeepIdWithinLimit(t, client, ids[..|ids| - 1]);
    }
  }

  /** A new token (count 0) of a client with reuse limit L survives L refreshes
      under its own id and is replaced on refresh L + 1. */
  lemma FreshTokenRotatesAfterLimitRefreshes(t: RefreshToken, client: Client, ids: seq<Uuid>)
    requires t.reUsedCount == 0 && 0 <= client.refreshTokenReuseLimit
    requires |ids| == client.refreshTokenReuseLimit + 1
    ensures var limit := client.refreshTokenReuseLimit;
      && Refreshes(t, client, ids[..limit]).id == t.id
      && Refreshes(t, client, ids) == RefreshToken(ids[limit], t.userId, Some(client.id), client.realmId, 0, None)
  {
    var limit := client.refreshTokenReuseLimit;
    RefreshesKeepIdWithinLimit(t, client, ids[..limit]);
    assert ids[..|ids| - 1] == ids[..limit];
  }

  // ---------------------------------------------------------------------------
  // Session admission

  /** The sessions of (client, user) that have not expired at `now`. */
  function LiveSessionIds(sessions: map<Uuid, Session>, clientId: Uuid, userId: Uuid, now: int): set<Uuid> {
    set id | id in sessions && sessions[id].clientId == clientId && sessions[id].userId == userId && sessions[id].expires > now
  }

  /** The count of live sessions has reached `max_concurrent_sessions as u64`
      (a negative maximum wraps to a huge one). */
  predicate AtSessionCap(sessions: map<Uuid, Session>, client: Client, user: User, now: int) {
    |LiveSessionIds(sessions, client.id, user.id, now)| >= AsUnsigned64(client.maxConcurrentSessions)
  }

  /** The rows the resource query returns: the user's and the client's, in the
      given group or else the default ones, and unlocked. */
  predicate Selected(r: Resource, user: User, client: Client, groupKey: Option<Uuid>) {
    && Is(r.userId, Some(user.id)) && Is(r.clientId, Some(client.id))
    && (match groupKey
        case Some(k) => r.groupKey == k
        case None => r.isDefault == Some(true))
    && Unlocked(r.lockedAt)
  }

  function SelectedResources(rows: seq<Resource>, user: User, client: Client, groupKey: Option<Uuid>): seq<Resource> {
    Filter(rows, (r: Resource) => Selected(r, user, client, groupKey))
  }

  /** The session row a successful admission inserts. */
  function NewSession(id: Uuid, user: User, client: Client, info: SessionInfo, refreshTokenId: Option<Uuid>, now: int): Session {
    Session(id, user.id, client.id, info, refreshTokenId, now + client.sessionLifetime)
  }

  /** The resource query, built filter by filter as the query builder is. */
  method QueryResources(db: Database, user: User, client: Client, groupKey: Option<Uuid>) returns (resources: seq<Resource>)
    ensures resources == SelectedResources(db.resources, user, client, groupKey)
    ensures forall x :: x in resources <==> x in db.resources && Selected(x, user, client, groupKey)
  {
    var query: Resource -> bool := (r: Resource) => Is(r.userId, Some(user.id)) && Is(r.clientId, Some(client.id));
    var owned := query;
    match groupKey {
      case Some(k) =>
        query := (r: Resource) => owned(r) && r.groupKey == k;
      case None =>
        query := (r: Resource) => owned(r) && r.isDefault == Some(true);
    }
    var chosen := query;
    resources := Filter(db.resources, (r: Resource) => chosen(r) && Unlocked(r.lockedAt));
    FilterExtensional(db.resources, (r: Resource) => chosen(r) && Unlocked(r.lockedAt),
                      (r: Resource) => Selected(r, user, client, groupKey));
  }

  /** `create_session` of the session service. The group name it hands to the
      token is not bound in that function; here it is the parameter `groupName`. */
  method CreateSession(db: Database, client: Client, user: User, groupKey: Option<Uuid>, groupName: Option<string>,
                       info: SessionInfo, refreshTokenId: Option<Uuid>, now: int, iss: string, freshId: Uuid)
    returns (r: Result<LoginResponse>)
    requires freshId !in db.sessions
    modifies db`sessions
    ensures AtSessionCap(old(db.sessions), client, user, now) ==>
      r == Err(Authenticate(MaxConcurrentSessions)) && db.sessions == old(db.sessions)
    ensures !AtSessionCap(old(db.sessions), client, user, now) ==>
      var s := NewSession(freshId, user, client, info, refreshTokenId, now);
      && db.sessions == old(db.sessions)[freshId := s]
      && r == Ok(LoginResponse(JwtToken.NewClaims(user, client, SelectedResources(db.resources, user, client, groupKey), groupName, s, now, iss),
                               user, freshId, user.realmId, client.id, None))
  {
    var sessions := |LiveSessionIds(db.sessions, client.id, user.id, now)|;
    if sessions >= AsUnsigned64(client.maxConcurrentSessions) {
      return Err(Authenticate(MaxConcurrentSessions));
    }
    var resources := QueryResources(db, user, client, groupKey);
    var session := NewSession(freshId, user, client, info, refreshTokenId, now);
    db.sessions := db.sessions[freshId := session];
    var accessToken := JwtToken.NewClaims(user, client, resources, groupName, session, now, iss);
    r := Ok(LoginResponse(accessToken, user, session.id, user.realmId, client.id, None));
  }

  /** Admitting a session that is live at `now` raises the live count of its
      (client, user) by exactly one and leaves every other pair's count alone. */
  lemma AdmissionAddsOneLiveSession(sessions: map<Uuid, Session>, s: Session, now: int, clientId: Uuid, userId: Uuid)
    requires s.id !in sessions && s.expires > now
    ensures s.clientId == clientId && s.userId == userId ==>
      |LiveSessionIds(sessions[s.id := s], clientId, userId, now)| == |LiveSessionIds(sessions, clientId, userId, now)| + 1
    ensures s.clientId != clientId || s.userId != userId ==>
      LiveSessionIds(sessions[s.id := s], clientId, userId, now) == LiveSessionIds(sessions, clientId, userId, now)
  {
    if s.clientId == clientId && s.userId == userId {
      assert LiveSessionIds(sessions[s.id := s], clientId, userId, now) == LiveSessionIds(sessions, clientId, userId, now) + {s.id};
    }
  }

  /** The cap holds across admissions: when the cap is a non-negative i32 and
      the live count is within it, a successful admission keeps it within. */
  lemma AdmissionRespectsCap(sessions: map<Uuid, Session>, client: Client, user: User, s: Session, now: int)
    requires 0 <= client.maxConcurrentSessions
    requires !AtSessionCap(sessions, client, user, now)
    requires s.id !in sessions && s.clientId == client.id && s.userId == user.id
    ensures |LiveSessionIds(sessions[s.id := s], client.id, user.id, now)| <= client.maxConcurrentSessions
  {
    if s.expires > now {
      AdmissionAddsOneLiveSession(sessions, s, now, client.id, user.id);
    } else {
      assert LiveSessionIds(sessions[s.id := s], client.id, user.id, now) == LiveSessionIds(sessions, client.id, user.id, now);
    }
  }

  /** Every selected resource belongs to the user and client and is unlocked,
      and lies in the requested group, or is a default one when none is requested. */
  lemma SelectionIsScoped(rows: seq<Resource>, user: User, client: Client, groupKey: Option<Uuid>, r: Resource)
    requires r in SelectedResources(rows, user, client, groupKey)
    ensures r in rows && r.userId == Some(user.id) && r.clientId == Some(client.id) && r.lockedAt.None?
    ensures groupKey.Some? ==> r.groupKey == groupKey.value
    ensures groupKey.None? ==> r.isDefault == Some(true)
  {
  }

  // ---------------------------------------------------------------------------
  // Lookups

  /** `get_active_session_by_id` */
  function GetActiveSessionById(sessions: map<Uuid, Session>, id: Uuid): (r: Result<Session>)
    ensures r.Ok? <==> id in sessions
    ensures r.Ok? ==> r.value == sessions[id]
    ensures r.Err? ==> r.error == NotFound(SessionNotFound)
  {
    if id !in sessions then Err(NotFound(SessionNotFound)) else Ok(sessions[id])
  }

  /** `get_active_sessions_by_user_and_client_id`: the unexpired sessions of the pair. */
  function GetActiveSessionsByUserAndClientId(sessions: map<Uuid, Session>, userId: Uuid, clientId: Uuid, now: int): (r: set<Session>)
    ensures forall s :: s in r <==> s in sessions.Values && s.userId == userId && s.clientId == clientId && s.expires > now
  {
    set id | id in LiveSessionIds(sessions, clientId, userId, now) :: sessions[id]
  }

  /** `get_active_resource_by_gu`: the unlocked resources of a group key. A
      missing key (`= NULL`) matches no row. */
  function GetActiveResourceByGu(rows: seq<Resource>, groupKey: Option<Uuid>): (r: Result<seq<Resource>>)
    ensures r.Ok? ==> |r.value| > 0 && forall x :: x in r.value <==> x in rows && groupKey == Some(x.groupKey) && Unlocked(x.lockedAt)
    ensures r.Err? ==> (r.error == NotFound(ResourceNotFound) &&
      forall x :: x in rows && groupKey == Some(x.groupKey) ==> !Unlocked(x.lockedAt))
  {
    var found := Filter(rows, (x: Resource) => groupKey == Some(x.groupKey) && Unlocked(x.lockedAt));
    if |found| == 0 then Err(NotFound(ResourceNotFound)) else Ok(found)
  }

  /** `get_active_refresh_token_by_id` */
  function GetActiveRefreshTokenById(tokens: map<Uuid, RefreshToken>, id: Uuid): (r: Result<RefreshToken>)
    ensures id !in tokens ==> r == Err(NotFoundAny)
    ensures id in tokens && !Unlocked(tokens[id].lockedAt) ==> r == Err(Authenticate(Locked))
    ensures r.Ok? <==> id in tokens && Unlocked(tokens[id].lockedAt)
    ensures r.Ok? ==> r.value == tokens[id]
  {
    if id !in tokens then Err(NotFoundAny)
    else if tokens[id].lockedAt.Some? then Err(Authenticate(Locked))
    else Ok(tokens[id])
  }

  /** `get_active_group_by_name`: the first group of the client with that name
      that the user belongs to (`memberships` holds the (user, group) pairs). */
  function GetActiveGroupByName(groups: seq<Group>, memberships: set<(Uuid, Uuid)>, name: string, userId: Uuid, clientId: Uuid)
    : (r: Result<Group>)
    ensures r.Ok? ==> r.value in groups && r.value.clientId == clientId && r.value.name == name
                      && (userId, r.value.id) in memberships && Unlocked(r.value.lockedAt)
    ensures r == Err(NotFound(GroupNotFound)) <==>
      forall k :: 0 <= k < |groups| ==> !(groups[k].clientId == clientId && groups[k].name == name && (userId, groups[k].id) in memberships)
    ensures r.Err? ==> r.error in {NotFound(GroupNotFound), Authenticate(Locked)}
    ensures r == Err(Authenticate(Locked)) ==>
      exists k :: 0 <= k < |groups| && groups[k].clientId == clientId && groups[k].name == name
                  && (userId, groups[k].id) in memberships && groups[k].lockedAt.Some?
  {
    var group := FirstWhere(groups, (g: Group) => g.clientId == clientId && g.name == name && (userId, g.id) in memberships);
    if group.None? then Err(NotFound(GroupNotFound))
    else if group.value.lockedAt.Some? then Err(Authenticate(Locked))
    else Ok(group.value)
  }

  /** The first matching group alone decides: Locked exactly when it is
      locked, and otherwise that group itself, whatever later groups hold. */
  lemma GroupByNameFirstMatchDecides(groups: seq<Group>, memberships: set<(Uuid, Uuid)>, name: string, userId: Uuid, clientId: Uuid, j: nat)
    requires j < |groups| && groups[j].clientId == clientId && groups[j].name == name && (userId, groups[j].id) in memberships
    requires forall k :: 0 <= k < j ==> !(groups[k].clientId == clientId && groups[k].name == name && (userId, groups[k].id) in memberships)
    ensures GetActiveGroupByName(groups, memberships, name, userId, clientId) ==
      if groups[j].lockedAt.Some? then Err(Authenticate(Locked)) else Ok(groups[j])
  {
    var first := FirstWhere(groups, (g: Group) => g.clientId == clientId && g.name == name && (userId, g.id) in memberships);
    assert first == Some(groups[j]);
  }
}
