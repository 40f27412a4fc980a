/** The authentication handlers: the login check chains, the transaction that
    issues a session (and a refresh token when the client uses them), logout,
    registration, introspection and the refresh-token exchange.

    Role checks, password verification and token signature verification are
    passed in as their verdicts. A token given to a handler is its claims. */
module AuthHandlers {
  import opened Base
  import opened Entities
  import opened Store
  import JwtToken
  import AuthService
  import opened UserService

  // ---------------------------------------------------------------------------
  // Check chains

  /** What a login may go on with: the user, their resource group and the client. */
  datatype Admitted = Admitted(user: User, group: ResourceGroup, client: Client)

  /** Every record present and unlocked, and the password right. */
  predicate Admissible(row: Option<(User, Option<ResourceGroup>)>, passwordOk: bool, client: Option<Client>) {
    && row.Some? && Unlocked(row.value.0.lockedAt)
    && row.value.1.Some? && Unlocked(row.value.1.value.lockedAt)
    && passwordOk
    && client.Some? && Unlocked(client.value.lockedAt)
  }

  /** A client row that is missing, then one that is locked, fails. */
  function ActiveClient(client: Option<Client>): (r: Result<Client>)
    ensures client.None? ==> r == Err(NotFoundAny)
    ensures r.Ok? <==> client.Some? && Unlocked(client.value.lockedAt)
    ensures r.Ok? ==> r.value == client.value
    ensures r.Err? ==> r.error in {NotFoundAny, Authenticate(Locked)}
  {
    if client.None? then Err(NotFoundAny)
    else if client.value.lockedAt.Some? then Err(Authenticate(Locked))
    else Ok(client.value)
  }

  /** `login`, up to the session transaction: the row, then the password, then
      the user's lock, the group and its lock, then the client and its lock. */
  function LoginChecks(row: Option<(User, Option<ResourceGroup>)>, passwordOk: bool, client: Option<Client>): (r: Result<Admitted>)
    ensures row.None? ==> r == Err(NotFoundAny)
    ensures row.Some? && !passwordOk ==> r == Err(Authenticate(WrongCredentials))
    ensures row.Some? && passwordOk && ActiveUserAndGroup(row).Err? ==> r == Err(ActiveUserAndGroup(row).error)
    ensures row.Some? && passwordOk && ActiveUserAndGroup(row).Ok? && ActiveClient(client).Err? ==> r == Err(ActiveClient(client).error)
    ensures r.Ok? ==> r.value == Admitted(row.value.0, row.value.1.value, client.value)
  {
    if row.None? then Err(NotFoundAny)
    else if !passwordOk then Err(Authenticate(WrongCredentials))
    else match ActiveUserAndGroup(row)
      case Err(e) => Err(e)
      case Ok((user, group)) =>
        match ActiveClient(client)
        case Err(e) => Err(e)
        case Ok(c) => Ok(Admitted(user, group, c))
  }

  /** `admin_login`, up to the session transaction: the caller's access first,
      then the row, the user's lock, the group and its lock, and only then the
      password; then the client, its lock and the user's live sessions on it. */
  function AdminLoginChecks(hasAccess: bool, row: Option<(User, Option<ResourceGroup>)>, passwordOk: bool, client: Option<Client>,
                            sessions: map<Uuid, Session>, now: int): (r: Result<Admitted>)
    ensures !hasAccess ==> r == Err(Authenticate(ActionForbidden))
    ensures hasAccess && ActiveUserAndGroup(row).Err? ==> r == Err(ActiveUserAndGroup(row).error)
    ensures hasAccess && ActiveUserAndGroup(row).Ok? && !passwordOk ==> r == Err(Authenticate(WrongCredentials))
    ensures hasAccess && ActiveUserAndGroup(row).Ok? && passwordOk && ActiveClient(client).Err? ==> r == Err(ActiveClient(client).error)
    ensures (hasAccess && ActiveUserAndGroup(row).Ok? && passwordOk && ActiveClient(client).Ok? &&
             AuthService.AtSessionCap(sessions, client.value, row.value.0, now)) ==> r == Err(Authenticate(MaxConcurrentSessions))
    ensures r.Ok? ==> r.value == Admitted(row.value.0, row.value.1.value, client.value)
  {
    if !hasAccess then Err(Authenticate(ActionForbidden))
    else match ActiveUserAndGroup(row)
      case Err(e) => Err(e)
      case Ok((user, group)) =>
        if !passwordOk then Err(Authenticate(WrongCredentials))
        else match ActiveClient(client)
          case Err(e) => Err(e)
          case Ok(c) =>
            if AuthService.AtSessionCap(sessions, c, user, now) then Err(Authenticate(MaxConcurrentSessions))
            else Ok(Admitted(user, group, c))
  }

  /** Both chains let through exactly the admissible logins (admin_login also
      needs the session count under the cap). */
  lemma ChainsAdmitExactlyAdmissible(row: Option<(User, Option<ResourceGroup>)>, passwordOk: bool, client: Option<Client>,
                                     sessions: map<Uuid, Session>, now: int)
    ensures LoginChecks(row, passwordOk, client).Ok? <==> Admissible(row, passwordOk, client)
    ensures AdminLoginChecks(true, row, passwordOk, client, sessions, now).Ok? <==>
      Admissible(row, passwordOk, client) && !AuthService.AtSessionCap(sessions, client.value, row.value.0, now)
  {
  }

  /** The two chains disagree on a locked user with a wrong password: login
      reports the password, admin_login the lock. */
  lemma LockedUserWithWrongPassword(row: Option<(User, Option<ResourceGroup>)>, client: Option<Client>, sessions: map<Uuid, Session>, now: int)
    requires row.Some? && !Unlocked(row.value.0.lockedAt)
    ensures LoginChecks(row, false, client) == Err(Authenticate(WrongCredentials))
    ensures AdminLoginChecks(true, row, false, client, sessions, now) == Err(Authenticate(Locked))
  {
  }

  // ---------------------------------------------------------------------------
  // Issuing a session

  function NewRefreshToken(id: Uuid, user: User, client: Client): RefreshToken {
    RefreshToken(id, user.id, Some(client.id), client.realmId, 0, None)
  }

  /** The unlocked resources of a group (the query's `group_id` is the resource's group key). */
  function GroupResources(rows: seq<Resource>, group: ResourceGroup): (rs: seq<Resource>)
    ensures forall x :: x in rs <==> x in rows && x.groupKey == group.id && Unlocked(x.lockedAt)
  {
    Filter(rows, (x: Resource) => x.groupKey == group.id && Unlocked(x.lockedAt))
  }

  datatype Attempt = Attempt(result: Result<AuthService.LoginResponse>, sessions: map<Uuid, Session>)

  /** The handler's `create_session` on the session table: the cap, then the
      group's unlocked resources, then the insert. */
  function SessionAttempt(sessions: map<Uuid, Session>, resources: seq<Resource>, client: Client, user: User, group: ResourceGroup,
                          info: SessionInfo, refreshTokenId: Option<Uuid>, now: int, iss: string, sessionId: Uuid): Attempt
  {
    if AuthService.AtSessionCap(sessions, client, user, now) then Attempt(Err(Authenticate(MaxConcurrentSessions)), sessions)
    else
      var rs := GroupResources(resources, group);
      if |rs| == 0 then Attempt(Err(Authenticate(Locked)), sessions)
      else
        var s := AuthService.NewSession(sessionId, user, client, info, refreshTokenId, now);
        var claims := JwtToken.NewClaims(user, client, rs, Some(group.name), s, now, iss);
        Attempt(Ok(AuthService.LoginResponse(claims, user, sessionId, user.realmId, client.id, None)), sessions[sessionId := s])
  }

  /** `create_session` of the handlers. */
  method CreateSession(db: Database, client: Client, user: User, group: ResourceGroup, info: SessionInfo,
                       refreshTokenId: Option<Uuid>, now: int, iss: string, sessionId: Uuid)
    returns (r: Result<AuthService.LoginResponse>)
    requires sessionId !in db.sessions
    modifies db`sessions
    ensures Attempt(r, db.sessions) == SessionAttempt(old(db.sessions), db.resources, client, user, group, info, refreshTokenId, now, iss, sessionId)
  {
    var sessions := |AuthService.LiveSessionIds(db.sessions, client.id, user.id, now)|;
    if sessions >= AsUnsigned64(client.maxConcurrentSessions) {
      return Err(Authenticate(MaxConcurrentSessions));
    }
    var resources := Filter(db.resources, (x: Resource) => x.groupKey == group.id && Unlocked(x.lockedAt));
    if |resources| == 0 {
      return Err(Authenticate(Locked));
    }
    var session := AuthService.NewSession(sessionId, user, client, info, refreshTokenId, now);
    db.sessions := db.sessions[sessionId := session];
    var accessToken := JwtToken.NewClaims(user, client, resources, Some(group.name), session, now, iss);
    r := Ok(AuthService.LoginResponse(accessToken, user, session.id, user.realmId, client.id, None));
  }

  datatype Issued = Issued(result: Result<AuthService.LoginResponse>, sessions: map<Uuid, Session>, tokens: map<Uuid, RefreshToken>)

  /** The transaction of `create_session_and_refresh_token`: a refresh token
      when the client uses them, then the session; on failure nothing is kept
      and the error comes back as the text of a database error. */
  function Issue(sessions: map<Uuid, Session>, tokens: map<Uuid, RefreshToken>, resources: seq<Resource>, user: User, client: Client,
                 group: ResourceGroup, info: SessionInfo, now: int, iss: string, tokenId: Uuid, sessionId: Uuid): Issued
  {
    var rtId := if client.useRefreshToken then Some(tokenId) else None;
    var attempt := SessionAttempt(sessions, resources, client, user, group, info, rtId, now, iss, sessionId);
    if attempt.result.Err? then Issued(Err(Db(Custom(attempt.result.error))), sessions, tokens)
    else
      var t := NewRefreshToken(tokenId, user, client);
      var refreshToken := if client.useRefreshToken then Some(AuthService.RefreshClaimsOf(t, client)) else None;
      Issued(Ok(attempt.result.value.(refreshToken := refreshToken)), attempt.sessions,
             if client.useRefreshToken then tokens[tokenId := t] else tokens)
  }

  /** `create_session_and_refresh_token` of the handlers. */
  method CreateSessionAndRefreshToken(db: Database, user: User, client: Client, group: ResourceGroup, info: SessionInfo,
                                      now: int, iss: string, tokenId: Uuid, sessionId: Uuid)
    returns (r: Result<AuthService.LoginResponse>)
    requires tokenId !in db.refreshTokens && sessionId !in db.sessions
    modifies db`sessions, db`refreshTokens
    ensures Issued(r, db.sessions, db.refreshTokens) ==
      Issue(old(db.sessions), old(db.refreshTokens), db.resources, user, client, group, info, now, iss, tokenId, sessionId)
  {
    var savedSessions, savedTokens := db.sessions, db.refreshTokens;
    var refreshTokenModel: Option<RefreshToken> := None;
    if client.useRefreshToken {
      var model := NewRefreshToken(tokenId, user, client);
      db.refreshTokens := db.refreshTokens[tokenId := model];
      refreshTokenModel := Some(model);
    }
    var rtId := if refreshTokenModel.Some? then Some(refreshTokenModel.value.id) else None;
    var session := CreateSession(db, client, user, group, info, rtId, now, iss, sessionId);
    if session.Err? {
      // the transaction rolls back
      db.sessions, db.refreshTokens := savedSessions, savedTokens;
      return Err(Db(Custom(session.error)));
    }
    var refreshToken := if refreshTokenModel.Some? then Some(AuthService.RefreshClaimsOf(refreshTokenModel.value, client)) else None;
    r := Ok(session.value.(refreshToken := refreshToken));
  }

  /** The session cap is checked first, then a group without unlocked
      resources fails with Locked; a failed attempt inserts nothing. */
  lemma SessionAttemptOrder(sessions: map<Uuid, Session>, resources: seq<Resource>, client: Client, user: User, group: ResourceGroup,
                            info: SessionInfo, refreshTokenId: Option<Uuid>, now: int, iss: string, sessionId: Uuid)
    ensures var a := SessionAttempt(sessions, resources, client, user, group, info, refreshTokenId, now, iss, sessionId);
      && (AuthService.AtSessionCap(sessions, client, user, now) ==> a.result == Err(Authenticate(MaxConcurrentSessions)))
      && ((!AuthService.AtSessionCap(sessions, client, user, now) &&
           (forall x :: x in resources ==> x.groupKey != group.id || !Unlocked(x.lockedAt))) ==> a.result == Err(Authenticate(Locked)))
      && (a.result.Err? ==> a.sessions == sessions)
  {
  }

  /** A successful issue adds exactly the session, live until now + lifetime,
      pointing at the refresh token when one is created; a refresh token (count
      0, unlocked) is created and returned exactly when the client uses them. */
  lemma IssueCreatesTokenIffClientUsesThem(sessions: map<Uuid, Session>, tokens: map<Uuid, RefreshToken>, resources: seq<Resource>,
                                           user: User, client: Client, group: ResourceGroup, info: SessionInfo, now: int, iss: string,
                                           tokenId: Uuid, sessionId: Uuid)
    requires tokenId !in tokens && sessionId !in sessions
    ensures var i := Issue(sessions, tokens, resources, user, client, group, info, now, iss, tokenId, sessionId);
      i.result.Ok? ==>
        && (i.result.value.refreshToken.Some? <==> client.useRefreshToken)
        && i.sessions.Keys == sessions.Keys + {sessionId}
        && (forall id :: id in sessions ==> i.sessions[id] == sessions[id])
        && i.sessions[sessionId].expires == now + client.sessionLifetime
        && i.sessions[sessionId].refreshTokenId == (if client.useRefreshToken then Some(tokenId) else None)
        && i.result.value.sessionId == sessionId
        && (client.useRefreshToken ==> && i.tokens == tokens[tokenId := i.tokens[tokenId]]
                                        && i.tokens[tokenId].reUsedCount == 0 && Unlocked(i.tokens[tokenId].lockedAt)
                                        && i.tokens[tokenId].userId == user.id && i.tokens[tokenId].realmId == client.realmId
                                        && i.result.value.refreshToken.value.sub == tokenId)
        && (!client.useRefreshToken ==> i.tokens == tokens)
  {
    var i := Issue(sessions, tokens, resources, user, client, group, info, now, iss, tokenId, sessionId);
    if i.result.Ok? {
      var rtId := if client.useRefreshToken then Some(tokenId) else None;
      var s := AuthService.NewSession(sessionId, user, client, info, rtId, now);
      assert i.sessions == sessions[sessionId := s];
      if client.useRefreshToken {
        assert i.tokens == tokens[tokenId := NewRefreshToken(tokenId, user, client)];
      }
    }
  }

  /** A failed issue changes neither table and reports the inner error as a database error. */
  lemma IssueRollsBack(sessions: map<Uuid, Session>, tokens: map<Uuid, RefreshToken>, resources: seq<Resource>,
                       user: User, client: Client, group: ResourceGroup, info: SessionInfo, now: int, iss: string,
                       tokenId: Uuid, sessionId: Uuid)
    ensures var i := Issue(sessions, tokens, resources, user, client, group, info, now, iss, tokenId, sessionId);
      i.result.Err? ==> i.sessions == sessions && i.tokens == tokens && i.result.error.Db? && i.result.error.db.Custom?
  {
  }

  // ---------------------------------------------------------------------------
  // Login

  /** `verify_password` on the fetched user. */
  function PasswordOk(row: Option<(User, Option<ResourceGroup>)>, verify: User -> bool): bool {
    row.Some? && verify(row.value.0)
  }

  /** `login`. `verify` is the password check against the given password. */
  method Login(db: Database, realmId: Uuid, clientId: Uuid, email: string, verify: User -> bool, info: SessionInfo,
               now: int, iss: string, tokenId: Uuid, sessionId: Uuid)
    returns (r: Result<AuthService.LoginResponse>)
    requires tokenId !in db.refreshTokens && sessionId !in db.sessions
    modifies db`sessions, db`refreshTokens
    ensures var row := UserWithGroup(db.users, db.groups, ByEmail(email), realmId, clientId);
      var chain := LoginChecks(row, PasswordOk(row, verify), ClientById(db.clients, clientId));
      && (chain.Err? ==> r == Err(chain.error) && db.sessions == old(db.sessions) && db.refreshTokens == old(db.refreshTokens))
      && (chain.Ok? ==>
            Issued(r, db.sessions, db.refreshTokens) ==
            Issue(old(db.sessions), old(db.refreshTokens), db.resources, chain.value.user, chain.value.client, chain.value.group,
                  info, now, iss, tokenId, sessionId))
  {
    var row := UserWithGroup(db.users, db.groups, ByEmail(email), realmId, clientId);
    var client := ClientById(db.clients, clientId);
    var chain := LoginChecks(row, PasswordOk(row, verify), client);
    if chain.Err? {
      return Err(chain.error);
    }
    var a := chain.value;
    r := CreateSessionAndRefreshToken(db, a.user, a.client, a.group, info, now, iss, tokenId, sessionId);
  }

  /** `admin_login`. `hasAccess` is the caller's client-admin access. */
  method AdminLogin(db: Database, hasAccess: bool, realmId: Uuid, clientId: Uuid, email: string, verify: User -> bool,
                    info: SessionInfo, now: int, iss: string, tokenId: Uuid, sessionId: Uuid)
    returns (r: Result<AuthService.LoginResponse>)
    requires tokenId !in db.refreshTokens && sessionId !in db.sessions
    modifies db`sessions, db`refreshTokens
    ensures var row := UserWithGroup(db.users, db.groups, ByEmail(email), realmId, clientId);
      var chain := AdminLoginChecks(hasAccess, row, PasswordOk(row, verify), ClientById(db.clients, clientId), old(db.sessions), now);
      && (chain.Err? ==> r == Err(chain.error) && db.sessions == old(db.sessions) && db.refreshTokens == old(db.refreshTokens))
      && (chain.Ok? ==>
            Issued(r, db.sessions, db.refreshTokens) ==
            Issue(old(db.sessions), old(db.refreshTokens), db.resources, chain.value.user, chain.value.client, chain.value.group,
                  info, now, iss, tokenId, sessionId))
  {
    if !hasAccess {
      return Err(Authenticate(ActionForbidden));
    }
    var row := UserWithGroup(db.users, db.groups, ByEmail(email), realmId, clientId);
    var client := ClientById(db.clients, clientId);
    var chain := AdminLoginChecks(hasAccess, row, PasswordOk(row, verify), client, db.sessions, now);
    if chain.Err? {
      return Err(chain.error);
    }
    var a := chain.value;
    r := CreateSessionAndRefreshToken(db, a.user, a.client, a.group, info, now, iss, tokenId, sessionId);
  }

  /** admin_login refuses a full client before the transaction, with the bare
      error; login reaches the same cap inside it and reports it as a database error. */
  lemma CapErrorDiffers(sessions: map<Uuid, Session>, tokens: map<Uuid, RefreshToken>, resources: seq<Resource>,
                        row: Option<(User, Option<ResourceGroup>)>, client: Option<Client>, info: SessionInfo, now: int, iss: string,
                        tokenId: Uuid, sessionId: Uuid)
    requires Admissible(row, true, client)
    requires AuthService.AtSessionCap(sessions, client.value, row.value.0, now)
    ensures AdminLoginChecks(true, row, true, client, sessions, now) == Err(Authenticate(MaxConcurrentSessions))
    ensures var a := LoginChecks(row, true, client).value;
      Issue(sessions, tokens, resources, a.user, a.client, a.group, info, now, iss, tokenId, sessionId).result
        == Err(Db(Custom(Authenticate(MaxConcurrentSessions))))
  {
  }

  // ---------------------------------------------------------------------------
  // Registration

  /** `register`: only a master-realm or current-realm admin (`authorized`) may register a user. */
  method Register(db: Database, authorized: bool, realmId: Uuid, clientId: Uuid, payload: CreateUserRequest, hash: Option<string>,
                  userId: Uuid, groupId: Uuid, resourceIds: seq<Uuid>, accepted: seq<bool>, lockCheck: Option<int> -> bool)
    returns (r: Result<User>)
    requires |resourceIds| == |payload.identifiers| == |accepted|
    requires forall i, j :: 0 <= i < j < |resourceIds| ==> resourceIds[i] != resourceIds[j]
    requires forall k :: 0 <= k < |resourceIds| ==> resourceIds[k] !in Ids(db.resources)
    modifies db`users, db`groups, db`resources
    ensures !authorized ==> r == Err(Authenticate(ActionForbidden)) && db.users == old(db.users) && db.groups == old(db.groups)
                            && db.resources == old(db.resources)
    ensures authorized && hash.None? ==> r == Err(PasswordHash) && db.users == old(db.users) && db.groups == old(db.groups)
                                         && db.resources == old(db.resources)
    ensures authorized && hash.Some? ==>
      var user := NewUser(userId, realmId, payload, hash.value);
      && r == Ok(user)
      && db.users == old(db.users) + [user]
      && db.groups == old(db.groups) + [NewGroup(groupId, user, clientId, payload)]
      && db.resources == old(db.resources) + IdentifierRows(payload.identifiers, resourceIds, accepted, groupId)
  {
    if authorized {
      r := InsertUser(db, realmId, clientId, payload, hash, userId, groupId, resourceIds, accepted, lockCheck);
    } else {
      r := Err(Authenticate(ActionForbidden));
    }
  }

  // ---------------------------------------------------------------------------
  // Logout

  datatype LogoutResponse = LogoutResponse(ok: bool, userId: Uuid, sessionId: Uuid)

  /** The outcome of verifying a presented token: its claims, or a rejection. */
  datatype TokenVerdict = Verified(claims: JwtToken.Claims) | Rejected

  /** The sessions of (client, user). */
  function SessionsOf(sessions: map<Uuid, Session>, clientId: Uuid, userId: Uuid): set<Uuid> {
    set id | id in sessions && sessions[id].clientId == clientId && sessions[id].userId == userId
  }

  /** The table after `delete_many` on (client, user). */
  function WithoutSessionsOf(sessions: map<Uuid, Session>, clientId: Uuid, userId: Uuid): (out: map<Uuid, Session>)
    ensures out.Keys == sessions.Keys - SessionsOf(sessions, clientId, userId)
    ensures forall id :: id in out ==> out[id] == sessions[id]
  {
    map id | id in sessions && !(sessions[id].clientId == clientId && sessions[id].userId == userId) :: sessions[id]
  }

  /** The token a logout request acts on: the access token when one is given, else the refresh token. */
  function ChosenToken(accessToken: Option<TokenVerdict>, refreshToken: Option<TokenVerdict>): (t: Option<TokenVerdict>)
    ensures accessToken.Some? ==> t == accessToken
    ensures accessToken.None? ==> t == refreshToken
  {
    if accessToken.Some? then accessToken else refreshToken
  }

  /** `logout_current_session`: ends the caller's own session. */
  method LogoutCurrentSession(db: Database, caller: JwtToken.JwtUser) returns (r: LogoutResponse)
    modifies db`sessions
    ensures db.sessions == old(db.sessions) - {caller.sid}
    ensures r == LogoutResponse(caller.sid in old(db.sessions), caller.sub, caller.sid)
  {
    var removed := caller.sid in db.sessions;
    db.sessions := db.sessions - {caller.sid};
    r := LogoutResponse(removed, caller.sub, caller.sid);
  }

  /** `logout`: an admin ends the session named by the chosen token. */
  method Logout(db: Database, caller: JwtToken.JwtUser, authorized: bool, accessToken: Option<TokenVerdict>,
                refreshToken: Option<TokenVerdict>) returns (r: Result<LogoutResponse>)
    modifies db`sessions
    ensures var t := ChosenToken(accessToken, refreshToken);
      && (!authorized ==> r == Err(Authenticate(ActionForbidden)) && db.sessions == old(db.sessions))
      && (authorized && t.None? ==> r == Err(Authenticate(NoResource)) && db.sessions == old(db.sessions))
      && (authorized && t == Some(Rejected) ==> r == Err(Authenticate(InvalidToken)) && db.sessions == old(db.sessions))
      && (authorized && t.Some? && t.value.Verified? ==>
            var sid := t.value.claims.sid;
            db.sessions == old(db.sessions) - {sid} && r == Ok(LogoutResponse(sid in old(db.sessions), caller.sub, caller.sid)))
  {
    if !authorized {
      return Err(Authenticate(ActionForbidden));
    }
    var token := ChosenToken(accessToken, refreshToken);
    match token {
      case None =>
        return Err(Authenticate(NoResource));
      case Some(Rejected) =>
        return Err(Authenticate(InvalidToken));
      case Some(Verified(claims)) =>
        var removed := claims.sid in db.sessions;
        db.sessions := db.sessions - {claims.sid};
        r := Ok(LogoutResponse(removed, caller.sub, caller.sid));
    }
  }

  /** `logout_my_all_sessions`: ends every session of the caller on the client. */
  method LogoutMyAllSessions(db: Database, caller: JwtToken.JwtUser, clientId: Uuid) returns (r: LogoutResponse)
    modifies db`sessions
    ensures db.sessions == WithoutSessionsOf(old(db.sessions), clientId, caller.sub)
    ensures r == LogoutResponse(|SessionsOf(old(db.sessions), clientId, caller.sub)| > 0, caller.sub, caller.sid)
  {
    var removed := SessionsOf(db.sessions, clientId, caller.sub);
    db.sessions := WithoutSessionsOf(db.sessions, clientId, caller.sub);
    r := LogoutResponse(|removed| > 0, caller.sub, caller.sid);
  }

  /** `logout_all`: an admin ends every session on the client of the user the chosen token names. */
  method LogoutAll(db: Database, caller: JwtToken.JwtUser, authorized: bool, clientId: Uuid, accessToken: Option<TokenVerdict>,
                   refreshToken: Option<TokenVerdict>) returns (r: Result<LogoutResponse>)
    modifies db`sessions
    ensures var t := ChosenToken(accessToken, refreshToken);
      && (!authorized ==> r == Err(Authenticate(ActionForbidden)) && db.sessions == old(db.sessions))
      && (authorized && t.None? ==> r == Err(Authenticate(NoResource)) && db.sessions == old(db.sessions))
      && (authorized && t == Some(Rejected) ==> r == Err(Authenticate(InvalidToken)) && db.sessions == old(db.sessions))
      && (authorized && t.Some? && t.value.Verified? ==>
            var sub := t.value.claims.sub;
            && db.sessions == WithoutSessionsOf(old(db.sessions), clientId, sub)
            && r == Ok(LogoutResponse(|SessionsOf(old(db.sessions), clientId, sub)| > 0, caller.sub, caller.sid)))
  {
    if !authorized {
      return Err(Authenticate(ActionForbidden));
    }
    var token := ChosenToken(accessToken, refreshToken);
    match token {
      case None =>
        return Err(Authenticate(NoResource));
      case Some(Rejected) =>
        return Err(Authenticate(InvalidToken));
      case Some(Verified(claims)) =>
        var removed := SessionsOf(db.sessions, clientId, claims.sub);
        db.sessions := WithoutSessionsOf(db.sessions, clientId, claims.sub);
        r := Ok(LogoutResponse(|removed| > 0, caller.sub, caller.sid));
    }
  }

  /** Deleting by (client, user) reports success exactly when some session of
      the pair existed, and afterwards none is left while all others remain. */
  lemma DeleteManyReportsRemoval(sessions: map<Uuid, Session>, clientId: Uuid, userId: Uuid)
    ensures |SessionsOf(sessions, clientId, userId)| > 0 <==>
      exists id :: id in sessions && sessions[id].clientId == clientId && sessions[id].userId == userId
    ensures forall id :: id in WithoutSessionsOf(sessions, clientId, userId) ==>
      !(sessions[id].clientId == clientId && sessions[id].userId == userId)
    ensures forall id :: id in sessions && !(sessions[id].clientId == clientId && sessions[id].userId == userId) ==>
      id in WithoutSessionsOf(sessions, clientId, userId)
  {
    if exists id :: id in sessions && sessions[id].clientId == clientId && sessions[id].userId == userId {
      var id :| id in sessions && sessions[id].clientId == clientId && sessions[id].userId == userId;
      assert id in SessionsOf(sessions, clientId, userId);
    }
  }

  // ---------------------------------------------------------------------------
  // Introspection

  datatype IntrospectResponse = IntrospectResponse(
    active: bool,
    clientId: Uuid,
    firstName: string,
    lastName: Option<string>,
    sub: Uuid,
    tokenType: string,
    exp: int,
    iat: int,
    iss: string,
    clientName: string,
    resourceGroup: string,
    resources: seq<string>)

  function ResourceNames(rs: seq<Resource>): (names: seq<string>)
    ensures |names| == |rs| && forall k :: 0 <= k < |rs| ==> names[k] == rs[k].name
  {
    seq(|rs|, k requires 0 <= k < |rs| => rs[k].name)
  }

  /** The user's first unlocked resource group of the realm and client. */
  function ActiveGroupOf(groups: seq<ResourceGroup>, realmId: Uuid, clientId: Uuid, userId: Uuid): Option<ResourceGroup> {
    FirstWhere(groups, (g: ResourceGroup) => g.realmId == realmId && g.clientId == clientId && g.userId == userId && Unlocked(g.lockedAt))
  }

  /** `introspect` on a token whose claims decoded: the token must carry a
      resource claim for the path's client; its session, the session's unlocked
      user and client and an unlocked group of theirs must all exist. */
  function Introspect(db: Database, authorized: bool, claims: JwtToken.Claims, realmId: Uuid, clientId: Uuid, iss: string)
    : (r: Result<IntrospectResponse>)
    reads db
    ensures !authorized ==> r == Err(Authenticate(ActionForbidden))
    ensures authorized ==> r != Err(Authenticate(ActionForbidden))
    ensures authorized && (claims.resource.None? || claims.resource.value.clientId != clientId) ==> r == Err(Authenticate(NoResource))
    ensures r.Err? ==> r.error in {Authenticate(ActionForbidden), Authenticate(NoResource)}
    ensures r.Ok? ==>
      && authorized && claims.resource.Some? && claims.resource.value.clientId == clientId
      && claims.sid in db.sessions
      && var s := db.sessions[claims.sid];
      && r.value.active && r.value.sub == s.userId && r.value.clientId == s.clientId
      && r.value.exp == claims.exp && r.value.iat == claims.iat && r.value.tokenType == "bearer"
      && (exists k :: 0 <= k < |db.users| && db.users[k].id == s.userId && Unlocked(db.users[k].lockedAt))
  {
    if !authorized then Err(Authenticate(ActionForbidden))
    else if claims.resource.None? || claims.resource.value.clientId != clientId then Err(Authenticate(NoResource))
    else if claims.sid !in db.sessions then Err(Authenticate(NoResource))
    else
      var session := db.sessions[claims.sid];
      var user := ActiveUserById(db.users, session.userId);
      if user.None? then Err(Authenticate(NoResource))
      else
        var client := ActiveClientById(db.clients, session.clientId);
        if client.None? then Err(Authenticate(NoResource))
        else
          var group := ActiveGroupOf(db.groups, realmId, client.value.id, user.value.id);
          if group.None? then Err(Authenticate(NoResource))
          else
            var resources := GroupResources(db.resources, group.value);
            Ok(IntrospectResponse(true, client.value.id, user.value.firstName, Some(user.value.lastName.GetOr("")), user.value.id,
                                  "bearer", claims.exp, claims.iat, iss, client.value.name, group.value.name, ResourceNames(resources)))
  }

  /** The token is active exactly when the caller may introspect, the claim is
      for the path's client, and the session, its unlocked user, its unlocked
      client and an unlocked group of theirs in the path's realm all exist. */
  lemma {:induction false} IntrospectActiveIff(db: Database, authorized: bool, claims: JwtToken.Claims, realmId: Uuid, clientId: Uuid, iss: string)
    ensures Introspect(db, authorized, claims, realmId, clientId, iss).Ok? <==>
      && authorized && claims.resource.Some? && claims.resource.value.clientId == clientId
      && claims.sid in db.sessions
      && var s := db.sessions[claims.sid];
      && (exists k :: 0 <= k < |db.users| && db.users[k].id == s.userId && Unlocked(db.users[k].lockedAt))
      && (exists k :: 0 <= k < |db.clients| && db.clients[k].id == s.clientId && Unlocked(db.clients[k].lockedAt))
      && (exists k :: 0 <= k < |db.groups| && db.groups[k].realmId == realmId && db.groups[k].clientId == s.clientId
                       && db.groups[k].userId == s.userId && Unlocked(db.groups[k].lockedAt))
  {
    if authorized && claims.resource.Some? && claims.resource.value.clientId == clientId && claims.sid in db.sessions {
      var s := db.sessions[claims.sid];
      var user := ActiveUserById(db.users, s.userId);
      var client := ActiveClientById(db.clients, s.clientId);
      if user.Some? && client.Some? {
        assert user.value.id == s.userId;
        assert client.value.id == s.clientId;
      }
    }
  }

  /** An introspection that succeeds lists the names of the unlocked resources
      of an unlocked group of the session's user, client and the path's realm. */
  lemma IntrospectListsGroupResources(db: Database, claims: JwtToken.Claims, realmId: Uuid, clientId: Uuid, iss: string)
    requires Introspect(db, true, claims, realmId, clientId, iss).Ok?
    ensures var r := Introspect(db, true, claims, realmId, clientId, iss).value;
      exists g :: g in db.groups && g.realmId == realmId && g.clientId == r.clientId && g.userId == r.sub && Unlocked(g.lockedAt)
                  && r.resourceGroup == g.name && r.resources == ResourceNames(GroupResources(db.resources, g))
  {
    var s := db.sessions[claims.sid];
    var user := ActiveUserById(db.users, s.userId).value;
    var client := ActiveClientById(db.clients, s.clientId).value;
    var g := ActiveGroupOf(db.groups, realmId, client.id, user.id).value;
    assert g in db.groups;
  }

  // ---------------------------------------------------------------------------
  // Refresh-token exchange

  /** What a refresh may go on with. */
  datatype RefreshGrant = RefreshGrant(token: RefreshToken, client: Client, user: User, group: ResourceGroup)

  /** `refresh_token` up to its transaction, on claims that decoded: access,
      then the claims' realm and client against the path, the active token, the
      active client, then the token's user and group as in the user service. */
  function RefreshChecks(db: Database, hasAccess: bool, presented: AuthService.RefreshTokenClaims, realmId: Uuid, clientId: Uuid)
    : (r: Result<RefreshGrant>)
    reads db
    ensures !hasAccess ==> r == Err(Authenticate(ActionForbidden))
    ensures hasAccess && (presented.rli != realmId || presented.cli != clientId) ==> r == Err(Authenticate(InvalidToken))
    ensures hasAccess && presented.rli == realmId && presented.cli == clientId && ActiveRefreshTokenById(db.refreshTokens, presented.sub).None?
            ==> r == Err(NotFoundAny)
    ensures r.Ok? ==>
      && presented.rli == realmId && presented.cli == clientId
      && presented.sub in db.refreshTokens && r.value.token == db.refreshTokens[presented.sub] && Unlocked(r.value.token.lockedAt)
      && r.value.client.id == clientId && Unlocked(r.value.client.lockedAt) && r.value.client in db.clients
      && r.value.user.id == r.value.token.userId && Unlocked(r.value.user.lockedAt) && r.value.user in db.users
      && r.value.group in db.groups && r.value.group.userId == r.value.user.id && Unlocked(r.value.group.lockedAt)
      && r.value.group.realmId == r.value.client.realmId && r.value.group.clientId == clientId
  {
    if !hasAccess then Err(Authenticate(ActionForbidden))
    else if presented.rli != realmId || presented.cli != clientId then Err(Authenticate(InvalidToken))
    else
      var token := ActiveRefreshTokenById(db.refreshTokens, presented.sub);
      if token.None? then Err(NotFoundAny)
      else
        var client := ActiveClientById(db.clients, presented.cli);
        if client.None? then Err(Authenticate(InvalidToken))
        else
          var row := UserWithGroup(db.users, db.groups, ById(token.value.userId), client.value.realmId, client.value.id);
          match ActiveUserAndGroup(row)
          case Err(e) => Err(e)
          case Ok((u, g)) => Ok(RefreshGrant(token.value, client.value, u, g))
  }

  /** Every refresh-token row is stored under its own id. */
  predicate KeyedById(tokens: map<Uuid, RefreshToken>) {
    forall id :: id in tokens ==> tokens[id].id == id
  }

  /** The two `unwrap`s inside the transaction hold: the session can be admitted. */
  predicate RefreshWontPanic(db: Database, hasAccess: bool, presented: AuthService.RefreshTokenClaims, realmId: Uuid, clientId: Uuid, now: int)
    reads db
  {
    var chain := RefreshChecks(db, hasAccess, presented, realmId, clientId);
    chain.Ok? ==>
      && !AuthService.AtSessionCap(db.sessions, chain.value.client, chain.value.user, now)
      && |GroupResources(db.resources, chain.value.group)| > 0
  }

  datatype RefreshTokenResponse = RefreshTokenResponse(
    accessToken: JwtToken.Claims,
    refreshToken: AuthService.RefreshTokenClaims,
    expiresIn: int)

  /** `exp - now as usize` in wrapping `usize` arithmetic. */
  function ExpiresIn(exp: int, now: int): int {
    (exp - AsUnsigned64(now)) % TWO_TO_64
  }

  /** `refresh_token`. `presented` are the decoded claims and `presentedExp` their expiry. */
  method Refresh(db: Database, hasAccess: bool, presented: AuthService.RefreshTokenClaims, presentedExp: int, realmId: Uuid,
                 clientId: Uuid, info: SessionInfo, now: int, iss: string, tokenId: Uuid, sessionId: Uuid)
    returns (r: Result<RefreshTokenResponse>)
    requires tokenId !in db.refreshTokens && sessionId !in db.sessions
    requires KeyedById(db.refreshTokens)
    requires RefreshWontPanic(db, hasAccess, presented, realmId, clientId, now)
    modifies db`sessions, db`refreshTokens
    ensures var chain := old(RefreshChecks(db, hasAccess, presented, realmId, clientId));
      && (chain.Err? ==> r == Err(chain.error) && db.sessions == old(db.sessions) && db.refreshTokens == old(db.refreshTokens))
      && (chain.Ok? ==>
            var g := chain.value;
            var n := AuthService.Rotated(g.token, g.client, tokenId);
            var s := AuthService.NewSession(sessionId, g.user, g.client, info, Some(n.id), now);
            && AuthService.RotationOf(old(db.refreshTokens), g.token, g.client, tokenId) == AuthService.Rotation(Ok(n), db.refreshTokens)
            && db.sessions == old(db.sessions)[sessionId := s]
            && r == Ok(RefreshTokenResponse(
                 JwtToken.NewClaims(g.user, g.client, GroupResources(db.resources, g.group), Some(g.group.name), s, now, iss),
                 AuthService.RefreshClaimsOf(n, g.client),
                 ExpiresIn(presentedExp, now))))
  {
    var chain := RefreshChecks(db, hasAccess, presented, realmId, clientId);
    if chain.Err? {
      return Err(chain.error);
    }
    var g := chain.value;
    var claims := AuthService.HandleRefreshToken(db, g.token, g.client, tokenId);
    var session := CreateSession(db, g.client, g.user, g.group, info, Some(claims.value.sub), now, iss, sessionId);
    r := Ok(RefreshTokenResponse(session.value.accessToken, claims.value, ExpiresIn(presentedExp, now)));
  }

  /** For a token that expires at or after `now` (both within `usize`), the
      reported lifetime is the seconds left. */
  lemma ExpiresInCountsDown(exp: int, now: int)
    requires 0 <= now <= exp < TWO_TO_64
    ensures ExpiresIn(exp, now) == exp - now
  {
  }
}
