# Shield session and resource core, modelled in Dafny

Shield is an identity service. Users belong to realms and log in to clients.
A login passes an ordered check chain:

- the user and their resource group exist and are unlocked;
- the password is right;
- the client exists and is unlocked;
- the client's cap on concurrent sessions is not reached.

A successful login opens a session and signs an access token. The token
carries the group's resources as a name → value map. When the client uses
refresh tokens, a refresh token is also issued. Each exchange of a refresh
token either keeps it (counting one more use) or, once the client's reuse
limit is reached, replaces it with a fresh one.

Resource rows carry a default flag. A before-save hook on the resource table
keeps one default group per (user, client): writing `true` demotes the other
groups, and writing `false` when no other group is default is forced back to
`true`. The user handlers update and delete resource groups and resources.
Each handler is guarded by role, realm and default-key checks.

The model keeps one sequential store, `Store.Database`. The users, clients,
resource groups and resources are `seq` fields, and the sessions and refresh
tokens are `map` fields keyed by id. The handlers and services are methods
that change these fields and state their new contents through specification
functions. The check chains, the derivations and the claim construction are
functions and lemmas.

In the model:

- ids are an abstract type;
- timestamps are integers, and the clock is a parameter `now`;
- a fresh id is a parameter that the precondition requires to be unused;
- each collaborator whose body is not part of this model enters as its
  verdict: password check, token decoding, role checks, `is_default_*`
  checks and the lock constraint.

Modules:

- `Base`: results, errors, the `as u64` cast.
- `Entities`: rows, active models, filters.
- `Store`: the database and its lookups.
- `ResourceHook`: the resource table's before-save hook and save.
- `JwtToken`, `Token`: claim construction before signing.
- `AuthService`: refresh rotation, session admission, lookups.
- `UserService`: registration rows and the user/group chain.
- `KeyComboValidator`: realm-membership predicates.
- `AuthHandlers`: login, session issue, logout, introspection, refresh.
- `UserHandlers`: user, group and resource edits.

## Model

| member | source | states |
|---|---|---|
| Base.AsUnsigned64 | src/services/auth.rs:158 | a non-negative value is kept; a 64-bit signed value maps into [0, 2^64), and a negative one lands in the upper half |
| Entities.FilterSplits | src/handlers/user.rs:212-236 | the rows with a key and the rows without it partition the table, so the two counts add up to its length |
| ResourceHook.Demoted | entity/src/middlewares/resource.rs:19-25 | same length; a row of the same user and client but another group key gets `is_default = false`, and every other row is unchanged |
| ResourceHook.BeforeSave | entity/src/middlewares/resource.rs:8-45 | the returned model and the new resource table are those of the hook's rule on the old table |
| ResourceHook.UpdateById | entity/src/middlewares/resource.rs:8-45 | an update keeps the table's length; each row with the model's id gets the model's Set columns, and the others are unchanged |
| ResourceHook.Save | entity/src/middlewares/resource.rs:8-45 | a save runs the hook, then inserts or overlays the row; a refused hook leaves the table as it was |
| ResourceHook.TrueWriteDemotesOthers | entity/src/middlewares/resource.rs:16-25 | a `true` write returns the model unchanged and demotes exactly the other-group rows of (user, client); rows with the same key or of other users or clients are untouched |
| ResourceHook.FalseWriteForcedWhenNoOtherDefault | entity/src/middlewares/resource.rs:26-40 | a `false` write with no other default group comes back as `true` and changes no row |
| ResourceHook.FalseWriteKeptWhenOtherDefault | entity/src/middlewares/resource.rs:27-41 | a `false` write while another group is default is kept and changes no row |
| ResourceHook.NotSetPassesThrough | entity/src/middlewares/resource.rs:16-44 | a flag that is not Set leaves the table and the model unchanged |
| ResourceHook.RefusedLockAborts | entity/src/middlewares/resource.rs:12-14 | a Set lock that the constraint refuses aborts with the lock error and changes nothing |
| ResourceHook.InsertAndUpdateAgree | entity/src/middlewares/resource.rs:8 | insert and update run the same rule |
| ResourceHook.TrueSaveLeavesOneDefaultGroup | entity/src/middlewares/resource.rs:16-41 | after a successful `true` save, (user, client) has at least one default row and every default row of the pair has the written group key |
| ResourceHook.SaveKeepsADefault | entity/src/middlewares/resource.rs:16-41 | after any successful save that sets the flag, some row of (user, client) is default |
| JwtToken.Identifiers | src/packages/jwt_token.rs:28-31 | the map's keys are exactly the resource names |
| JwtToken.IdentifiersLastOccurrence | src/packages/jwt_token.rs:28-31 | a resource whose name no later resource repeats gives its value to that name (later inserts overwrite earlier ones) |
| JwtToken.CollectIdentifiers | src/packages/jwt_token.rs:28-31 | the loop builds exactly the identifier map |
| JwtToken.ResourceFrom | src/packages/jwt_token.rs:27-39 | client id and name come from the client, the group name is passed through, and the identifier keys are the resource names |
| JwtToken.LastDuplicateWins | src/packages/jwt_token.rs:28-31 | of two resources with one name, the later value wins |
| JwtToken.JwtUserFields | src/packages/jwt_token.rs:64-72 | `sub` is the user id, `sid` the session id, the resource claim is always present, and a missing last name or phone becomes "" |
| JwtToken.ClaimsFollowSession | src/packages/jwt_token.rs:110-123 | `exp` is the session's expiry, `iat` is now, `iss` is the issuer, and `sub`, `sid`, first and last name, email, phone and resource are the user claim's own fields |
| JwtToken.ClaimsRoundTrip | src/packages/jwt_token.rs:75-85 | `from_claim` of the new claims gives back the `JwtUser` they were built from |
| Token.ResourceFrom | src/packages/token.rs:25-37 | client id and name come from the client, the group name is the resource group's, and the identifier keys are the resource names |
| Token.TokenUserFields | src/packages/token.rs:54-63 | `sub` is the user id, the resource claim is always present, and a missing last name or phone becomes "" |
| Token.ClaimsLastThirtyDays | src/packages/token.rs:93-94 | `iat` is now and `exp` is 2,592,000 s later, from one clock reading (the code reads the clock twice, see "## Left out") |
| Token.ClaimsRoundTrip | src/packages/token.rs:65-74 | `from_claim` of the new claims gives back the `TokenUser` they were built from |
| AuthService.Rotated | src/services/auth.rs:27-49 | the reused count stays within `i32` when the count and the limit do |
| AuthService.HandleRefreshToken | src/services/auth.rs:22-53 | the new refresh-token table and the returned claims are those of the rotation rule on the old table |
| AuthService.RotationAtLimitReplaces | src/services/auth.rs:27-38 | at or over the limit, the old id is removed and a fresh token is added with count 0, no lock, the same user and the client's id and realm |
| AuthService.RotationBelowLimitCounts | src/services/auth.rs:40-49 | below the limit the id, user, client and realm stay, the count rises by one, and the lock is cleared |
| AuthService.RotationKeepsOneTokenPerChain | src/services/auth.rs:27-52 | either branch leaves exactly one token of the chain, changes no other row, and returns the claims of the resulting row |
| AuthService.RefreshesKeepIdWithinLimit | src/services/auth.rs:40-49 | refreshes that stay within the limit keep the id and the user and add one to the count per refresh |
| AuthService.FreshTokenRotatesAfterLimitRefreshes | src/services/auth.rs:27-49 | a fresh token keeps its id for `limit` refreshes and gets a new id with count 0 on the next |
| AuthService.QueryResources | src/services/auth.rs:163-175 | the query returns exactly the table's rows that match the selection rule |
| AuthService.CreateSession | src/services/auth.rs:142-212 | at the cap it fails with MaxConcurrentSessions and inserts nothing; otherwise it inserts one session expiring at now + lifetime, and the claims are built from that session and the selected resources |
| AuthService.AdmissionAddsOneLiveSession | src/services/auth.rs:177-192 | the inserted session adds one live session to its own (client, user) and none to any other pair |
| AuthService.AdmissionRespectsCap | src/services/auth.rs:151-192 | an admitted session never lifts the live count of (client, user) above the cap |
| AuthService.SelectionIsScoped | src/services/auth.rs:163-175 | a selected resource belongs to the user and client and is unlocked; it carries the given group key, or is default when no key is given |
| AuthService.GetActiveSessionById | src/services/auth.rs:55-64 | the session under the id, or SessionNotFound |
| AuthService.GetActiveSessionsByUserAndClientId | src/services/auth.rs:66-78 | exactly the sessions of the user and client that expire after now |
| AuthService.GetActiveResourceByGu | src/services/auth.rs:214-226 | a non-empty list of exactly the unlocked rows with the key, or ResourceNotFound when there are none |
| AuthService.GetActiveRefreshTokenById | src/services/auth.rs:228-241 | NotFound when the id is missing, Locked when its row is locked, and the row otherwise |
| AuthService.GetActiveGroupByName | src/services/auth.rs:243-262 | a success is an unlocked group of the client with the name that the user is a member of; GroupNotFound exactly when there is none; Locked only when such a group is locked |
| AuthService.GroupByNameFirstMatchDecides | src/services/auth.rs:244-261 | the first matching group alone decides: Locked exactly when it is locked, otherwise that group |
| UserService.IdentifierRows | src/services/user.rs:38-52 | at most one row per identifier pair |
| UserService.IdentifierRowsSound | src/services/user.rs:38-52 | every row points at the new group with no owner, client, flag, lock or description, and carries an accepted pair under that pair's id |
| UserService.IdentifierRowsComplete | src/services/user.rs:38-52 | every accepted pair has its row; when every insert is accepted there is one row per pair |
| UserService.InsertIdentifier | src/services/user.rs:38-52 | one insert appends exactly the identifier row under a fresh id and adds that id to the table's ids |
| UserService.InsertUser | src/services/user.rs:12-57 | a failed hash changes nothing; otherwise one user, one group for (realm, client, user) and the accepted resource rows are appended, and the user is returned whatever the resource inserts did |
| UserService.GetActiveUserById | src/services/user.rs:59-72 | UserNotFound exactly when no row has the id, Locked for a locked row, otherwise the unlocked user |
| UserService.UserWithGroup | src/services/user.rs:80-91 | no row exactly when no user so named has a group of the realm and client; a row found has its user and that group |
| UserService.ActiveUserAndGroup | src/services/user.rs:93-116 | in order: no row gives NotFound, a locked user Locked, no group NotFound, a locked group Locked; it succeeds exactly when all are present and unlocked |
| UserService.ActiveUserAndGroupScoped | src/services/user.rs:80-116 | success returns an unlocked user named by the email or id and an unlocked group of theirs in the realm and client |
| UserService.MissingGroupUnreachable | src/services/user.rs:86-108 | the join never yields a user without a group, and NotFound means no such user has a group |
| KeyComboValidator.IsClientBelongsToRealm | src/utils/helpers/key_combo_validator.rs:6-15 | false for a missing client; with unique ids, true exactly when the client's realm is the realm |
| KeyComboValidator.IsResourceBelongsToRealm | src/utils/helpers/key_combo_validator.rs:17-26 | false for a missing resource; with unique ids, true exactly when its group key equals the realm id |
| KeyComboValidator.IsUserBelongsToRealm | src/utils/helpers/key_combo_validator.rs:28-37 | false without an active user; with unique ids, true exactly when an active user with the id is in the realm |
| KeyComboValidator.IsResourceGroupBelongsToRealm | src/utils/helpers/key_combo_validator.rs:39-56 | false when no resource carries the key; true only when such a resource's user is active and in the realm |
| KeyComboValidator.GroupCheckUsesFirstCarrier | src/utils/helpers/key_combo_validator.rs:39-56 | the answer is decided by the first resource carrying the key alone |
| AuthHandlers.ActiveClient | src/handlers/auth.rs:98-108 | a missing client gives NotFound and a locked one Locked; it succeeds exactly for an unlocked client |
| AuthHandlers.LoginChecks | src/handlers/auth.rs:142-177 | in order: no row, wrong password, the user/group checks, then the client checks; a success carries the row's user and group and the client |
| AuthHandlers.AdminLoginChecks | src/handlers/auth.rs:57-120 | in order: no access, the user/group checks, wrong password, the client checks, then the session cap |
| AuthHandlers.ChainsAdmitExactlyAdmissible | src/handlers/auth.rs:49-181 | both chains pass exactly when every record is present and unlocked and the password is right; admin_login also needs the count under the cap |
| AuthHandlers.LockedUserWithWrongPassword | src/handlers/auth.rs:77-155 | a locked user with a wrong password gets WrongCredentials from login and Locked from admin_login |
| AuthHandlers.GroupResources | src/handlers/auth.rs:264-269 | exactly the unlocked resources with the group's key |
| AuthHandlers.CreateSession | src/handlers/auth.rs:244-311 | the result and the new session table are those of the attempt: the cap, then an empty group gives Locked, then one session is inserted |
| AuthHandlers.CreateSessionAndRefreshToken | src/handlers/auth.rs:183-242 | the result and both new tables are those of the issuing transaction on the old tables |
| AuthHandlers.SessionAttemptOrder | src/handlers/auth.rs:252-274 | the cap is checked first, then a group without unlocked resources gives Locked; a failed attempt inserts no session |
| AuthHandlers.IssueCreatesTokenIffClientUsesThem | src/handlers/auth.rs:195-225 | on success, a refresh token with count 0 and no lock is created and returned exactly when the client uses them; the session adds one row live to now + lifetime that points at that token or at none |
| AuthHandlers.IssueRollsBack | src/handlers/auth.rs:190-241 | a failed issue changes neither table and reports the inner error as a database error |
| AuthHandlers.Login | src/handlers/auth.rs:126-181 | a failed check chain is returned, with no table changed; a passed one runs the issuing transaction for the chain's user, group and client |
| AuthHandlers.AdminLogin | src/handlers/auth.rs:49-124 | the same, with the admin chain, which counts sessions before the transaction |
| AuthHandlers.CapErrorDiffers | src/handlers/auth.rs:110-120 | a full client gets a bare MaxConcurrentSessions from admin_login, and the same error wrapped as a database error from login |
| AuthHandlers.Register | src/handlers/auth.rs:313-325 | without an admin role the request is refused and nothing changes; otherwise, as in the user service, a failed hash changes nothing, and a success appends the user, their group and the accepted resource rows and returns the user |
| AuthHandlers.WithoutSessionsOf | src/handlers/auth.rs:382-386 | exactly the sessions of the (client, user) are removed, and the others are kept as they were |
| AuthHandlers.ChosenToken | src/handlers/auth.rs:343-369 | the access token when given, otherwise the refresh token |
| AuthHandlers.LogoutCurrentSession | src/handlers/auth.rs:327-334 | removes only the caller's session and reports ok exactly when it existed |
| AuthHandlers.Logout | src/handlers/auth.rs:336-375 | ActionForbidden without access, NoResource without a token, InvalidToken for a rejected one; otherwise only the token's session is removed, with ok exactly when it existed |
| AuthHandlers.LogoutMyAllSessions | src/handlers/auth.rs:377-392 | removes exactly the caller's sessions on the client and reports ok exactly when there was one |
| AuthHandlers.LogoutAll | src/handlers/auth.rs:394-441 | the same errors as logout; otherwise removes exactly the sessions of the token's user on the client |
| AuthHandlers.DeleteManyReportsRemoval | src/handlers/auth.rs:382-391 | ok exactly when a session of the pair existed; afterwards none of the pair is left, and every other session remains |
| AuthHandlers.ResourceNames | src/handlers/auth.rs:501 | the k-th name is the k-th resource's name |
| AuthHandlers.Introspect | src/handlers/auth.rs:443-518 | ActionForbidden exactly without access, NoResource for every other failure (first of all a missing or foreign resource claim); a success reports an active bearer token with the session's user and client and the token's times |
| AuthHandlers.IntrospectActiveIff | src/handlers/auth.rs:454-509 | the token is reported active exactly when the caller has access, the claim is for the path's client, and the session, its unlocked user, its unlocked client and an unlocked group of theirs in the path's realm all exist |
| AuthHandlers.IntrospectListsGroupResources | src/handlers/auth.rs:474-501 | a success lists the names of the unlocked resources of an unlocked group of the session's user and client in the path's realm |
| AuthHandlers.RefreshChecks | src/handlers/auth.rs:527-578 | in order: ActionForbidden, InvalidToken when the realm or client differs from the path, NotFound without an active token; a grant holds the stored token and an active client, user and group that agree |
| AuthHandlers.Refresh | src/handlers/auth.rs:520-598 | a failed chain changes nothing; otherwise the token is rotated as by the service, one session pointing at the resulting token is added, and the new claims are returned with the seconds left |
| AuthHandlers.ExpiresInCountsDown | src/handlers/auth.rs:593 | for an expiry at or after now, both within `usize`, the reported lifetime is the seconds left |
| UserHandlers.GroupLockedAt | src/handlers/user.rs:153-157 | a lock request keeps an existing timestamp or takes now; an unlock clears it; no request keeps the first resource's value |
| UserHandlers.GroupIsDefault | src/handlers/user.rs:158-161 | a request for true gives true; otherwise the first resource's flag is kept |
| UserHandlers.ResourceLockedAt | src/handlers/user.rs:303-307 | a lock is written exactly on a lock request, keeping an existing timestamp or taking now |
| UserHandlers.RelockKeepsTimestamp | src/handlers/user.rs:153-157 | locking twice keeps the first timestamp in both handlers |
| UserHandlers.AbsentLockDiffers | src/handlers/user.rs:153-157 | the two handlers agree on every lock request; without a request the group update keeps the lock and the single update clears it |
| UserHandlers.GroupDefaultNeverCleared | src/handlers/user.rs:158-161 | a group update can raise the default flag but never clear it |
| UserHandlers.UsersWithout | src/handlers/user.rs:74 | exactly the users with another id remain |
| UserHandlers.UsersWithoutRemovesMatches | src/handlers/user.rs:74-77 | the number of rows removed is the number of rows with the id |
| UserHandlers.DeleteUser | src/handlers/user.rs:61-81 | refuses without access, for the default user and for the caller themself; otherwise removes the users with the id and reports ok exactly when one was removed |
| UserHandlers.GroupRows | src/handlers/user.rs:144-147 | exactly the rows with the key |
| UserHandlers.GroupUpdateChecks | src/handlers/user.rs:132-150 | in order: no access, the default key, a foreign realm; passing all three returns the group's rows, of which there is at least one |
| UserHandlers.RunUpdates | src/handlers/user.rs:163-189 | the loop's result and the new table are those of the update rule over the pairs, and a failure restores the table |
| UserHandlers.UpdateResourceGroup | src/handlers/user.rs:126-196 | a failed check or a failed loop changes nothing and returns the error; otherwise the table is that of the update rule with the shared lock and flag, and the re-queried rows of the group are returned |
| UserHandlers.UpdatedGroupShowsRequest | src/handlers/user.rs:163-196 | with a primary key and the request's distinct identifier names, each returned group for a successful update holds the resource every found name picks, rewritten with the pair's name and value, the shared lock and a set flag (true when requested), keeping its id, owner, client and description |
| UserHandlers.UpdateHookShape | src/handlers/user.rs:169-181 | the hook on a group model keeps every row's id and key and at most lowers other groups' flags |
| UserHandlers.UpdateStepShape | src/handlers/user.rs:166-186 | one step keeps the table's ids and, when it succeeds, returns the named row rewritten with the shared lock and flag and stores it at that id |
| UserHandlers.UpdateStepWritesRow | src/handlers/user.rs:167-181 | a successful step stores its returned row at every row with the named id |
| UserHandlers.UpdateStepRows | src/handlers/user.rs:166-186 | saving one rewritten row keeps the table's length and ids and leaves the group's other rows alone |
| UserHandlers.UpdateStepValue | src/handlers/user.rs:166-186 | saving one rewritten row fails exactly when the lock is refused, and otherwise returns the row with the new name, value, key, lock and flag |
| UserHandlers.UpdateOne | src/handlers/user.rs:166-186 | one pass of the loop body does what one step of the update rule says, to the table and to the result |
| UserHandlers.LoopStep | src/handlers/user.rs:166-187 | the rule over one more pair is the step after the rule over the prefix, and a failing step is the rule's final outcome |
| UserHandlers.FailureStopsUpdates | src/handlers/user.rs:181-182 | once a step fails, the later identifiers change nothing |
| UserHandlers.UpdatesKeepRows | src/handlers/user.rs:166-187 | nothing is inserted: the table keeps its length and ids, and the group's rows that no pair names are untouched |
| UserHandlers.StepKeepsRows | src/handlers/user.rs:166-186 | one step keeps the ids in place and the group's rows that no pair names untouched |
| UserHandlers.StepRewrites | src/handlers/user.rs:166-186 | one step adds a row exactly when the pair's name is found, and that row is the pair's rewrite of the fetched resource |
| UserHandlers.StepValueIsRewrite | src/handlers/user.rs:167-181 | a successful save of the model a pair makes returns that pair's rewrite of the named resource |
| UserHandlers.StepWritesRewrite | src/handlers/user.rs:166-186 | the pair's own step leaves its rewrite at every row with the named id |
| UserHandlers.StepKeepsRewrite | src/handlers/user.rs:166-186 | a step for a pair naming another id keeps an earlier rewrite in place |
| UserHandlers.UpdatesWriteNamedRows | src/handlers/user.rs:166-187 | after a successful loop, each row with the id a pair names holds that pair's rewrite when no later pair names the same id |
| UserHandlers.RewriteAtEveryIndex | src/handlers/user.rs:166-187 | with a primary key and distinct names, after a successful loop every row with a named id holds its pair's rewrite, and the ids stay in place |
| UserHandlers.LaterPairsPickOtherIds | src/handlers/user.rs:166-167 | with distinct names and a primary key, no later pair names the id an earlier pair names |
| UserHandlers.DistinctNamesPickDistinctIds | src/handlers/user.rs:166-167 | two identifiers with different names pick resources with different ids |
| UserHandlers.UpdatesFailOnlyOnLock | src/handlers/user.rs:166-187 | the loop fails only when the constraint refuses the shared lock |
| UserHandlers.UpdatesRewriteFetched | src/handlers/user.rs:166-187 | every collected row is some pair's rewrite of the group's first resource with that pair's name, keeping its id, owner, client and description; there is one row per pair whose name is found, so unknown names add none; the handler does not return this collected vector but re-queries the group (src/handlers/user.rs:192-196) |
| UserHandlers.DeleteResourceByGroup | src/handlers/user.rs:212-236 | refuses without access, for the default key and for a foreign realm; otherwise removes exactly the group's rows and reports ok exactly when one row was removed |
| UserHandlers.UpdateResource | src/handlers/user.rs:287-322 | refuses without access and for the default resource, and gives NotFound for a missing id; otherwise the table is that of the save of the resource model |
| UserHandlers.UpdateResourceRewritesOneRow | src/handlers/user.rs:303-317 | the save fails exactly on a refused lock and then changes nothing; otherwise the saved row keeps the stored row's id, owner, client and default flag and the group key, takes the request's name, value and description and the derived lock, is stored at that row's place, and no row with another id changes |
| UserHandlers.DeleteResource | src/handlers/user.rs:324-350 | refuses without access, for the default resource and for a foreign realm; otherwise removes the row and reports ok when the ids are unique |
| UserHandlers.OneRowPerId | src/handlers/user.rs:346-349 | with unique ids, a present id is carried by exactly one row |

## Left out

- JWT encoding, decoding and signing. The model builds claims only. A decoded token enters as its claims, or as a rejection (`TokenVerdict`).
- Password hashing and verification. Registration takes the hash's outcome, and login takes a check `verify: User -> bool`.
- Query execution, transactions and isolation. Each transaction is modelled as sequential, and a rollback restores the saved tables. The race between counting sessions and inserting one is not modelled.
- The clock. `now` is an integer parameter, so each call reads the clock once; src/packages/token.rs:93-94 reads `Local::now()` twice (expiry first), so there `exp - iat` can be one second short of 30 days. Timezones and timestamp conversion are not modelled.
- Role checks, the `is_default_*` checks and `check_locked_at_constraint`. Their bodies are not part of this model. They enter as booleans (`authorized`, `hasAccess`, `isDefaultKey`, `isDefaultUser`, `isDefaultResource`) and as a predicate `lockCheck`.
- `find_active_by_id`. It is not part of this model and is read as "the row with the id, when unlocked".
- The database's verdict on each resource insert during registration. It enters as `accepted`, because the service discards it.
- Database errors on the user and group inserts of registration, and foreign-key cascades.
- Files not part of this model:
  - `src/packages/admin.rs` (bootstrap seeding and console I/O);
  - migrations and entity definitions;
  - routes and mappers;
  - `src/packages/api_token.rs`, whose refresh claims (`sub` = row id, `rli`, `cli`) are taken as given;
  - session metadata strings (IP, browser, OS), which are opaque payload.
- `create_session_and_refresh_token` of `src/services/auth.rs:80-140`. It is not one of the modelled operations; the handler's version of the same transaction is.
- `get_users`, `get_user`, `get_resource_groups`, `get_resource_group`, `get_resources` and `add_resources` of `src/handlers/user.rs`. They are plain reads and inserts outside the modelled rules.
- Integer widths. `i32` columns are unbounded integers. `as u64` casts and the `usize` subtraction of the refresh response are written out with wrap-around.
- AuthHandlers.Refresh: requires `RefreshWontPanic`. This is the condition under which the `unwrap`s at src/handlers/auth.rs:585-588 succeed. The `expect` at line 532 is covered by taking decoded claims.
- AuthHandlers.Refresh: requires `KeyedById`. Every refresh-token row is stored under its own id, as a primary-key table is.
- AuthHandlers.Introspect: takes the decoded claims. This stands for the `expect` at src/handlers/auth.rs:450.
- UserHandlers.UpdateResourceGroup: requires `UpdateDefined`. The hook unwraps the default flag of every model it gets (entity/src/middlewares/resource.rs:17), so a group whose flag is missing would panic.
- ResourceHook.BeforeSave: requires `HookDefined` for the same `unwrap`s. `ResourceHook.Save` and `ResourceHook.Hook` have the same requirement.
- AuthHandlers.ExpiresIn: follows release-mode `usize` wrap-around, where a debug build would panic on an already expired token.
- UserHandlers.DeleteResource: the lookup after the realm check cannot fail, because that check already found the row; the model reports ok from the removal count.
- Behaviour of the code that the model keeps as written:
  - the hook forces `true` rather than rejecting a `false` write on the only default group;
  - a refresh token keeps its id for `limit` refreshes and rotates on the one after;
  - login reports a missing user (NotFound) and a wrong password (WrongCredentials) with different errors.
- Places where the code looks inconsistent; the model follows the code as written:
  - `create_session` of `src/services/auth.rs` uses a group name that is not bound there. It is taken as a parameter.
  - The handler's call to build the claims passes its arguments out of order. It is read as the group's resources with the group's name.
  - The resource query filters a `group_id` column. It is read as the resource's group key.
  - `is_resource_belongs_to_realm` compares the group key with the realm id.
  - Introspection reports the group's name as `resource_group`.
  - `get_active_group_by_name` takes `find_also_related(..).one()`, a (group, user) pair, as the group itself (src/services/auth.rs:256-257). It is read as the group.
  - `insert_user` names the new group `payload.resource.group_name` (src/services/user.rs:33), while the request's resource part has only `group` and `identifiers` (src/mappers/auth.rs:37-40). The model takes the group name as a field `groupName` of the request.
  - `update_resource_group` returns NotFound for a group without rows (src/handlers/user.rs:148-150), but the realm check before it is only true when some row carries the key, so that branch cannot be reached; `UserHandlers.GroupUpdateChecks` keeps it.
