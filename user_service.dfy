/** User services: registering a user with its resource group and resources,
    and the active-user lookups and check chains that precede a session. */
module UserService {
  import opened Base
  import opened Entities
  import opened Store
  import ResourceHook

  /** A registration request. The password is represented by the outcome of
      hashing it; the identifiers are the request map's entries in its
      iteration order. */
  datatype CreateUserRequest = CreateUserRequest(
    email: string,
    firstName: string,
    lastName: Option<string>,
    phone: Option<string>,
    image: Option<string>,
    groupName: string,
    identifiers: seq<(string, string)>)

  function NewUser(id: Uuid, realmId: Uuid, p: CreateUserRequest, hash: string): User {
    User(id, realmId, p.email, Some(hash), p.firstName, p.lastName, p.phone, p.image, None)
  }

  function NewGroup(id: Uuid, user: User, clientId: Uuid, p: CreateUserRequest): ResourceGroup {
    ResourceGroup(id, user.realmId, clientId, user.id, p.groupName, None)
  }

  /** The active model of one identifier pair: id, group key, name and value are Set. */
  function IdentifierModel(id: Uuid, groupId: Uuid, pair: (string, string)): ActiveResource {
    ActiveResource(id, NotSet, NotSet, Set(groupId), Set(pair.0), Set(pair.1), NotSet, NotSet, NotSet)
  }

  /** The rows the resource inserts add: one per pair whose insert the store accepted, in order. */
  function IdentifierRows(pairs: seq<(string, string)>, ids: seq<Uuid>, accepted: seq<bool>, groupId: Uuid): (out: seq<Resource>)
    requires |pairs| == |ids| == |accepted|
    ensures |out| <= |pairs|
  {
    if pairs == [] then []
    else
      var n := |pairs| - 1;
      IdentifierRows(pairs[..n], ids[..n], accepted[..n], groupId)
        + (if accepted[n] then [ResourceHook.Inserted(IdentifierModel(ids[n], groupId, pairs[n]))] else [])
  }

  /** Every row registration adds points at the new group with no owner,
      client, flag, lock or description, and carries an accepted pair under its id. */
  lemma {:induction false} IdentifierRowsSound(pairs: seq<(string, string)>, ids: seq<Uuid>, accepted: seq<bool>, groupId: Uuid)
    requires |pairs| == |ids| == |accepted|
    ensures var out := IdentifierRows(pairs, ids, accepted, groupId);
      forall x :: x in out ==> && x.groupKey == groupId && x.userId.None? && x.clientId.None?
                               && x.isDefault.None? && x.lockedAt.None? && x.description.None?
                               && exists k :: 0 <= k < |pairs| && accepted[k] && x.id == ids[k] && (x.name, x.value) == pairs[k]
  {
    if pairs != [] {
      var n := |pairs| - 1;
      IdentifierRowsSound(pairs[..n], ids[..n], accepted[..n], groupId);
      var init := IdentifierRows(pairs[..n], ids[..n], accepted[..n], groupId);
      var out := IdentifierRows(pairs, ids, accepted, groupId);
      forall x | x in out
        ensures exists k :: 0 <= k < |pairs| && accepted[k] && x.id == ids[k] && (x.name, x.value) == pairs[k]
      {
        if x in init {
          var k :| 0 <= k < n && accepted[..n][k] && x.id == ids[..n][k] && (x.name, x.value) == pairs[..n][k];
          assert accepted[k] && x.id == ids[k] && (x.name, x.value) == pairs[k];
        } else {
          assert accepted[n] && x.id == ids[n] && (x.name, x.value) == pairs[n];
        }
      }
    }
  }

  /** Every accepted pair has its row, and when all are accepted there is one row per pair. */
  lemma {:induction false} IdentifierRowsComplete(pairs: seq<(string, string)>, ids: seq<Uuid>, accepted: seq<bool>, groupId: Uuid)
    requires |pairs| == |ids| == |accepted|
    ensures var out := IdentifierRows(pairs, ids, accepted, groupId);
      && (forall k :: 0 <= k < |pairs| && accepted[k] ==>
            Resource(ids[k], None, None, groupId, pairs[k].0, pairs[k].1, None, None, None) in out)
      && ((forall k :: 0 <= k < |accepted| ==> accepted[k]) ==> |out| == |pairs|)
  {
    if pairs != [] {
      var n := |pairs| - 1;
      IdentifierRowsComplete(pairs[..n], ids[..n], accepted[..n], groupId);
      assert forall k :: 0 <= k < n ==> pairs[..n][k] == pairs[k] && ids[..n][k] == ids[k] && accepted[..n][k] == accepted[k];
    }
  }

  /** The rows of the first i + 1 pairs are those of the first i, then the i-th when accepted. */
  lemma IdentifierRowsSnoc(pairs: seq<(string, string)>, ids: seq<Uuid>, accepted: seq<bool>, groupId: Uuid, i: nat)
    requires |pairs| == |ids| == |accepted| && i < |pairs|
    ensures IdentifierRows(pairs[..i + 1], ids[..i + 1], accepted[..i + 1], groupId) ==
      IdentifierRows(pairs[..i], ids[..i], accepted[..i], groupId)
        + (if accepted[i] then [ResourceHook.Inserted(IdentifierModel(ids[i], groupId, pairs[i]))] else [])
  {
    assert pairs[..i + 1][..i] == pairs[..i] && ids[..i + 1][..i] == ids[..i] && accepted[..i + 1][..i] == accepted[..i];
  }

  /** One resource insert of `insert_user`: the hook has nothing to do on a
      model without flag or lock, so a fresh id is appended. */
  method InsertIdentifier(db: Database, id: Uuid, groupId: Uuid, pair: (string, string), lockCheck: Option<int> -> bool)
    requires id !in Ids(db.resources)
    modifies db`resources
    ensures db.resources == old(db.resources) + [ResourceHook.Inserted(IdentifierModel(id, groupId, pair))]
    ensures Ids(db.resources) == Ids(old(db.resources)) + {id}
  {
    var m := IdentifierModel(id, groupId, pair);
    var _ := ResourceHook.Save(db, m, true, lockCheck);
    IdsAppend(old(db.resources), ResourceHook.Inserted(m));
  }

  /** `insert_user`. `hash` is the outcome of hashing the password (None when it
      failed); `accepted[k]` is the store's verdict on the k-th resource insert,
      whose result the service discards. */
  method InsertUser(db: Database, realmId: Uuid, clientId: Uuid, payload: CreateUserRequest, hash: Option<string>,
                    userId: Uuid, groupId: Uuid, resourceIds: seq<Uuid>, accepted: seq<bool>, lockCheck: Option<int> -> bool)
    returns (r: Result<User>)
    requires |resourceIds| == |payload.identifiers| == |accepted|
    requires forall i, j :: 0 <= i < j < |resourceIds| ==> resourceIds[i] != resourceIds[j]
    requires forall k :: 0 <= k < |resourceIds| ==> resourceIds[k] !in Ids(db.resources)
    modifies db`users, db`groups, db`resources
    ensures hash.None? ==> r == Err(PasswordHash) && db.users == old(db.users) && db.groups == old(db.groups)
                           && db.resources == old(db.resources)
    ensures hash.Some? ==>
      var user := NewUser(userId, realmId, payload, hash.value);
      && r == Ok(user)
      && db.users == old(db.users) + [user]
      && db.groups == old(db.groups) + [NewGroup(groupId, user, clientId, payload)]
      && db.resources == old(db.resources) + IdentifierRows(payload.identifiers, resourceIds, accepted, groupId)
  {
    if hash.None? {
      return Err(PasswordHash);
    }
    var user := NewUser(userId, realmId, payload, hash.value);
    db.users := db.users + [user];
    var group := NewGroup(groupId, user, clientId, payload);
    db.groups := db.groups + [group];
    var pairs := payload.identifiers;
    var i := 0;
    while i < |pairs|
      invariant 0 <= i <= |pairs|
      invariant db.users == old(db.users) + [user] && db.groups == old(db.groups) + [group]
      invariant db.resources == old(db.resources) + IdentifierRows(pairs[..i], resourceIds[..i], accepted[..i], groupId)
      invariant forall k :: i <= k < |resourceIds| ==> resourceIds[k] !in Ids(db.resources)
    {
      IdentifierRowsSnoc(pairs, resourceIds, accepted, groupId, i);
      if accepted[i] {
        InsertIdentifier(db, resourceIds[i], groupId, pairs[i], lockCheck);
      }
      i := i + 1;
    }
    assert pairs[..i] == pairs && resourceIds[..i] == resourceIds && accepted[..i] == accepted;
    r := Ok(user);
  }

  // ---------------------------------------------------------------------------
  // Lookups

  /** `get_active_user_by_id` */
  function GetActiveUserById(users: seq<User>, id: Uuid): (r: Result<User>)
    ensures r == Err(NotFound(UserNotFound)) <==> forall k :: 0 <= k < |users| ==> users[k].id != id
    ensures r.Ok? ==> r.value in users && r.value.id == id && Unlocked(r.value.lockedAt)
    ensures r.Err? ==> r.error in {NotFound(UserNotFound), Authenticate(Locked)}
    ensures r == Err(Authenticate(Locked)) ==> exists k :: 0 <= k < |users| && users[k].id == id && !Unlocked(users[k].lockedAt)
  {
    var user := UserById(users, id);
    if user.None? then Err(NotFound(UserNotFound))
    else if user.value.lockedAt.Some? then Err(Authenticate(Locked))
    else Ok(user.value)
  }

  /** How the caller names the user: by email or by id. */
  datatype UserIdentifier = ByEmail(email: string) | ById(id: Uuid)

  predicate Identifies(ident: UserIdentifier, u: User) {
    match ident
    case ByEmail(e) => u.email == e
    case ById(id) => u.id == id
  }

  /** The user's first resource group of the realm and client. */
  function GroupOf(groups: seq<ResourceGroup>, u: User, realmId: Uuid, clientId: Uuid): Option<ResourceGroup> {
    FirstWhere(groups, (g: ResourceGroup) => g.userId == u.id && g.realmId == realmId && g.clientId == clientId)
  }

  predicate HasGroup(groups: seq<ResourceGroup>, u: User, realmId: Uuid, clientId: Uuid) {
    exists k :: 0 <= k < |groups| && groups[k].userId == u.id && groups[k].realmId == realmId && groups[k].clientId == clientId
  }

  /** The first row of the user–resource-group join filtered on the group's
      realm and client: the conditions on the joined group drop the users
      without one, so a row found always has its group. */
  function UserWithGroup(users: seq<User>, groups: seq<ResourceGroup>, ident: UserIdentifier, realmId: Uuid, clientId: Uuid)
    : (r: Option<(User, Option<ResourceGroup>)>)
    ensures r.None? <==> forall k :: 0 <= k < |users| && Identifies(ident, users[k]) ==> !HasGroup(groups, users[k], realmId, clientId)
    ensures r.Some? ==> && r.value.0 in users && Identifies(ident, r.value.0) && r.value.1.Some?
                        && r.value.1.value in groups && r.value.1.value.userId == r.value.0.id
                        && r.value.1.value.realmId == realmId && r.value.1.value.clientId == clientId
  {
    if users == [] then None
    else
      var g := GroupOf(groups, users[0], realmId, clientId);
      if Identifies(ident, users[0]) && g.Some? then Some((users[0], g))
      else
        var rest := UserWithGroup(users[1..], groups, ident, realmId, clientId);
        assert forall k :: 1 <= k < |users| ==> users[k] == users[1..][k - 1];
        rest
  }

  /** The checks of `get_active_user_and_resource_groups` on the fetched row. */
  function ActiveUserAndGroup(row: Option<(User, Option<ResourceGroup>)>): (r: Result<(User, ResourceGroup)>)
    // in this order: no row, locked user, no group, locked group
    ensures row.None? ==> r == Err(NotFoundAny)
    ensures row.Some? && !Unlocked(row.value.0.lockedAt) ==> r == Err(Authenticate(Locked))
    ensures row.Some? && Unlocked(row.value.0.lockedAt) && row.value.1.None? ==> r == Err(NotFoundAny)
    ensures row.Some? && Unlocked(row.value.0.lockedAt) && row.value.1.Some? && !Unlocked(row.value.1.value.lockedAt) ==>
      r == Err(Authenticate(Locked))
    ensures r.Ok? <==> row.Some? && Unlocked(row.value.0.lockedAt) && row.value.1.Some? && Unlocked(row.value.1.value.lockedAt)
    ensures r.Ok? ==> r.value == (row.value.0, row.value.1.value)
  {
    if row.None? then Err(NotFoundAny)
    else
      var (user, group) := row.value;
      if user.lockedAt.Some? then Err(Authenticate(Locked))
      else if group.None? then Err(NotFoundAny)
      else if group.value.lockedAt.Some? then Err(Authenticate(Locked))
      else Ok((user, group.value))
  }

  /** `get_active_user_and_resource_groups` */
  function GetActiveUserAndResourceGroups(users: seq<User>, groups: seq<ResourceGroup>, ident: UserIdentifier, realmId: Uuid, clientId: Uuid)
    : Result<(User, ResourceGroup)>
  {
    ActiveUserAndGroup(UserWithGroup(users, groups, ident, realmId, clientId))
  }

  /** An email names users by email and an id by id; success returns an
      unlocked user so named and an unlocked group of theirs in the realm and client. */
  lemma ActiveUserAndGroupScoped(users: seq<User>, groups: seq<ResourceGroup>, ident: UserIdentifier, realmId: Uuid, clientId: Uuid)
    ensures var r := GetActiveUserAndResourceGroups(users, groups, ident, realmId, clientId);
      r.Ok? ==> && r.value.0 in users && Unlocked(r.value.0.lockedAt) && r.value.1 in groups && Unlocked(r.value.1.lockedAt)
                && r.value.1.userId == r.value.0.id && r.value.1.realmId == realmId && r.value.1.clientId == clientId
                && (ident.ByEmail? ==> r.value.0.email == ident.email) && (ident.ById? ==> r.value.0.id == ident.id)
  {
  }

  /** The "no group" check is never the one that fails: the join never yields a user without a group. */
  lemma MissingGroupUnreachable(users: seq<User>, groups: seq<ResourceGroup>, ident: UserIdentifier, realmId: Uuid, clientId: Uuid)
    ensures var row := UserWithGroup(users, groups, ident, realmId, clientId);
      row.Some? ==> row.value.1.Some?
    ensures GetActiveUserAndResourceGroups(users, groups, ident, realmId, clientId) == Err(NotFoundAny) <==>
      forall k :: 0 <= k < |users| && Identifies(ident, users[k]) ==> !HasGroup(groups, users[k], realmId, clientId)
  {
  }
}
