/** The user handlers that change the user and resource tables: deleting a
    user, updating a resource group's identifiers, updating and deleting a
    single resource, and deleting a group's resources. Role checks and the
    `is_default_*` checks are passed in as their verdicts. */
module UserHandlers {
  import opened Base
  import opened Entities
  import opened Store
  import opened ResourceHook
  import JwtToken
  import KeyComboValidator

  datatype DeleteResponse = DeleteResponse(ok: bool)

  // ---------------------------------------------------------------------------
  // Lock and default derivations

  /** The lock a group update writes: a lock request keeps an existing lock
      timestamp or uses `now`, an unlock request clears it, and no request
      keeps the first resource's. */
  function GroupLockedAt(lock: Option<bool>, first: Resource, now: int): (l: Option<int>)
    ensures lock == Some(true) ==> l.Some? && (first.lockedAt.Some? ==> l == first.lockedAt) && (first.lockedAt.None? ==> l == Some(now))
    ensures lock == Some(false) ==> l.None?
    ensures lock.None? ==> l == first.lockedAt
  {
    match lock
    case Some(true) => Some(first.lockedAt.GetOr(now))
    case Some(false) => None
    case None => first.lockedAt
  }

  /** The default flag a group update writes: a request for true sets it,
      anything else keeps the first resource's. */
  function GroupIsDefault(isDefault: Option<bool>, first: Resource): (d: Option<bool>)
    ensures isDefault == Some(true) ==> d == Some(true)
    ensures isDefault != Some(true) ==> d == first.isDefault
  {
    match isDefault
    case Some(true) => Some(true)
    case _ => first.isDefault
  }

  /** The lock a single-resource update writes: only a lock request leaves a
      lock, keeping an existing timestamp; no request clears it like an unlock. */
  function ResourceLockedAt(lock: Option<bool>, existing: Resource, now: int): (l: Option<int>)
    ensures l.Some? <==> lock == Some(true)
    ensures l.Some? && existing.lockedAt.Some? ==> l == existing.lockedAt
    ensures l.Some? && existing.lockedAt.None? ==> l == Some(now)
  {
    match lock
    case Some(true) => Some(existing.lockedAt.GetOr(now))
    case Some(false) => None
    case None => None
  }

  /** Locking twice keeps the first timestamp, in both handlers. */
  lemma RelockKeepsTimestamp(lock: Option<bool>, r: Resource, now: int, later: int)
    ensures var once := r.(lockedAt := GroupLockedAt(Some(true), r, now));
      GroupLockedAt(Some(true), once, later) == once.lockedAt
    ensures var once := r.(lockedAt := ResourceLockedAt(Some(true), r, now));
      ResourceLockedAt(Some(true), once, later) == once.lockedAt
  {
  }

  /** The two handlers differ only when no lock is requested: the group keeps
      the lock, the single resource loses it. */
  lemma AbsentLockDiffers(r: Resource, now: int)
    requires r.lockedAt.Some?
    ensures GroupLockedAt(None, r, now) == r.lockedAt
    ensures ResourceLockedAt(None, r, now) == None
    ensures forall lock :: lock != None ==> GroupLockedAt(lock, r, now) == ResourceLockedAt(lock, r, now)
  {
  }

  /** A group update can raise the default flag but never clears it. */
  lemma GroupDefaultNeverCleared(isDefault: Option<bool>, first: Resource)
    requires first.isDefault == Some(true)
    ensures GroupIsDefault(isDefault, first) == Some(true)
  {
  }

  // ---------------------------------------------------------------------------
  // Deleting a user

  /** The user table after `delete_by_id`. */
  function UsersWithout(users: seq<User>, id: Uuid): (out: seq<User>)
    ensures forall u :: u in out <==> u in users && u.id != id
    ensures |out| <= |users|
    ensures (forall k :: 0 <= k < |users| ==> users[k].id != id) ==> out == users
  {
    if users == [] then []
    else
      var rest := UsersWithout(users[1..], id);
      assert forall k :: 1 <= k < |users| ==> users[k] == users[1..][k - 1];
      if users[0].id == id then rest else [users[0]] + rest
  }

  /** The number of users with the id. */
  function UsersWithId(users: seq<User>, id: Uuid): nat {
    if users == [] then 0 else (if users[0].id == id then 1 else 0) + UsersWithId(users[1..], id)
  }

  /** The rows a delete by id removes are exactly those carrying the id. */
  lemma {:induction false} UsersWithoutRemovesMatches(users: seq<User>, id: Uuid)
    ensures |users| - |UsersWithout(users, id)| == UsersWithId(users, id)
  {
    if users != [] {
      UsersWithoutRemovesMatches(users[1..], id);
    }
  }

  /** `delete_user`: an admin may delete any user but the default one and themself. */
  method DeleteUser(db: Database, caller: JwtToken.JwtUser, authorized: bool, isDefaultUser: bool, userId: Uuid)
    returns (r: Result<DeleteResponse>)
    modifies db`users
    ensures !authorized ==> r == Err(Authenticate(ActionForbidden)) && db.users == old(db.users)
    ensures authorized && isDefaultUser ==>
      r == Err(CannotPerformOperation("Cannot delete the default user")) && db.users == old(db.users)
    ensures authorized && !isDefaultUser && userId == caller.sub ==>
      r == Err(CannotPerformOperation("Cannot delete the current user")) && db.users == old(db.users)
    ensures authorized && !isDefaultUser && userId != caller.sub ==>
      && db.users == UsersWithout(old(db.users), userId)
      && r == Ok(DeleteResponse(UsersWithId(old(db.users), userId) == 1))
  {
    if !authorized {
      return Err(Authenticate(ActionForbidden));
    }
    if isDefaultUser {
      return Err(CannotPerformOperation("Cannot delete the default user"));
    }
    if userId == caller.sub {
      return Err(CannotPerformOperation("Cannot delete the current user"));
    }
    var before := |db.users|;
    db.users := UsersWithout(db.users, userId);
    UsersWithoutRemovesMatches(old(db.users), userId);
    var rowsAffected := before - |db.users|;
    r := Ok(DeleteResponse(rowsAffected == 1));
  }

  // ---------------------------------------------------------------------------
  // Updating a resource group

  /** The rows of a group, in table order. */
  function GroupRows(rows: seq<Resource>, key: Uuid): (rs: seq<Resource>)
    ensures forall x :: x in rs <==> x in rows && x.groupKey == key
  {
    Filter(rows, (x: Resource) => x.groupKey == key)
  }

  /** The checks of `update_resource_group` before its transaction, with the
      group's rows when they pass. */
  function GroupUpdateChecks(resources: seq<Resource>, users: seq<User>, authorized: bool, isDefaultKey: bool, realmId: Uuid, key: Uuid)
    : (r: Result<seq<Resource>>)
    ensures !authorized ==> r == Err(Authenticate(NoResource))
    ensures authorized && isDefaultKey ==> r == Err(CannotPerformOperation("Cannot update the default resource group"))
    ensures authorized && !isDefaultKey && !KeyComboValidator.IsResourceGroupBelongsToRealm(resources, users, key, realmId) ==>
      r == Err(BadRequest(BadRealmClientCombo))
    ensures authorized && !isDefaultKey && KeyComboValidator.IsResourceGroupBelongsToRealm(resources, users, key, realmId) ==>
      r == Ok(GroupRows(resources, key))
    ensures r.Ok? ==> |r.value| > 0 && r.value == GroupRows(resources, key)
    ensures r == Err(NotFoundAny) ==> forall x :: x in resources ==> x.groupKey != key
  {
    if !authorized then Err(Authenticate(NoResource))
    else if isDefaultKey then Err(CannotPerformOperation("Cannot update the default resource group"))
    else if !KeyComboValidator.IsResourceGroupBelongsToRealm(resources, users, key, realmId) then Err(BadRequest(BadRealmClientCombo))
    else
      var rs := GroupRows(resources, key);
      if |rs| == 0 then Err(NotFoundAny) else Ok(rs)
  }

  /** An update request for a group: new values for the identifiers it names. */
  datatype GroupUpdate = GroupUpdate(lock: Option<bool>, isDefault: Option<bool>, identifiers: seq<(string, string)>)

  /** The group's first resource with the name. */
  function Named(fetched: seq<Resource>, name: string): Option<Resource> {
    FirstWhere(fetched, (x: Resource) => x.name == name)
  }

  /** The active model that rewrites an existing identifier: every column Set. */
  function UpdateModel(existing: Resource, key: Uuid, pair: (string, string), isDefault: Option<bool>, lockedAt: Option<int>): ActiveResource {
    ActiveResource(existing.id, Set(existing.userId), Set(existing.clientId), Set(key), Set(pair.0), Set(pair.1),
                   Set(existing.description), Set(isDefault), Set(lockedAt))
  }

  /** The hook unwraps the flag of every model it is given, so a missing flag
      panics unless no identifier names a resource of the group. */
  predicate UpdateDefined(fetched: seq<Resource>, pairs: seq<(string, string)>, isDefault: Option<bool>) {
    isDefault.Some? || forall k :: 0 <= k < |pairs| ==> Named(fetched, pairs[k].0).None?
  }

  datatype Progress = Progress(result: Result<seq<Resource>>, rows: seq<Resource>)

  /** One identifier of the loop: skipped when no fetched resource has its
      name, else the resource is updated through the hook; a failure stops. */
  function UpdateStep(prev: Progress, fetched: seq<Resource>, key: Uuid, pair: (string, string),
                      isDefault: Option<bool>, lockedAt: Option<int>, lockCheck: Option<int> -> bool): Progress
    requires isDefault.Some? || Named(fetched, pair.0).None?
  {
    if prev.result.Err? then prev
    else match Named(fetched, pair.0)
      case None => prev
      case Some(existing) =>
        var o := SaveSpec(prev.rows, UpdateModel(existing, key, pair, isDefault, lockedAt), false, lockCheck);
        if o.result.Err? then Progress(Err(o.result.error), o.rows)
        else Progress(Ok(prev.result.value + [o.result.value]), o.rows)
  }

  /** The loop of `update_resource_group` as a function of the table, one
      identifier after another. */
  function ApplyUpdates(rows: seq<Resource>, fetched: seq<Resource>, key: Uuid, pairs: seq<(string, string)>,
                        isDefault: Option<bool>, lockedAt: Option<int>, lockCheck: Option<int> -> bool): Progress
    requires UpdateDefined(fetched, pairs, isDefault)
    decreases |pairs|
  {
    if pairs == [] then Progress(Ok([]), rows)
    else
      var n := |pairs| - 1;
      assert forall k :: 0 <= k < n ==> pairs[..n][k] == pairs[k];
      UpdateStep(ApplyUpdates(rows, fetched, key, pairs[..n], isDefault, lockedAt, lockCheck), fetched, key, pairs[n],
                 isDefault, lockedAt, lockCheck)
  }

  /** The loop over the first i + 1 identifiers is one step after the loop over the first i. */
  lemma ApplyUpdatesSnoc(rows: seq<Resource>, fetched: seq<Resource>, key: Uuid, pairs: seq<(string, string)>, i: nat,
                         isDefault: Option<bool>, lockedAt: Option<int>, lockCheck: Option<int> -> bool)
    requires UpdateDefined(fetched, pairs, isDefault) && i < |pairs|
    ensures UpdateDefined(fetched, pairs[..i], isDefault) && UpdateDefined(fetched, pairs[..i + 1], isDefault)
    ensures isDefault.Some? || Named(fetched, pairs[i].0).None?
    ensures ApplyUpdates(rows, fetched, key, pairs[..i + 1], isDefault, lockedAt, lockCheck) ==
            UpdateStep(ApplyUpdates(rows, fetched, key, pairs[..i], isDefault, lockedAt, lockCheck), fetched, key, pairs[i],
                       isDefault, lockedAt, lockCheck)
  {
    assert pairs[..i + 1][..i] == pairs[..i];
  }

  /** A step of the loop from the state after the first i identifiers gives
      the state after i + 1, and a failing step is the final state. */
  lemma LoopStep(rows: seq<Resource>, fetched: seq<Resource>, key: Uuid, pairs: seq<(string, string)>, i: nat,
                 isDefault: Option<bool>, lockedAt: Option<int>, lockCheck: Option<int> -> bool,
                 updated: seq<Resource>, before: seq<Resource>, next: Progress)
    requires UpdateDefined(fetched, pairs, isDefault) && i < |pairs|
    requires UpdateDefined(fetched, pairs[..i], isDefault)
    requires ApplyUpdates(rows, fetched, key, pairs[..i], isDefault, lockedAt, lockCheck) == Progress(Ok(updated), before)
    requires isDefault.Some? || Named(fetched, pairs[i].0).None?
    requires next == UpdateStep(Progress(Ok(updated), before), fetched, key, pairs[i], isDefault, lockedAt, lockCheck)
    ensures UpdateDefined(fetched, pairs[..i + 1], isDefault)
    ensures ApplyUpdates(rows, fetched, key, pairs[..i + 1], isDefault, lockedAt, lockCheck) == next
    ensures next.result.Err? ==> ApplyUpdates(rows, fetched, key, pairs, isDefault, lockedAt, lockCheck) == next
  {
    ApplyUpdatesSnoc(rows, fetched, key, pairs, i, isDefault, lockedAt, lockCheck);
    if next.result.Err? {
      FailureStopsUpdates(rows, fetched, key, pairs, i + 1, isDefault, lockedAt, lockCheck);
    }
  }

  /** One identifier of the loop of `update_resource_group`: a name no
      fetched resource has is skipped; otherwise that resource is saved
      through the hook and appended to the updated rows. */
  method UpdateOne(db: Database, fetched: seq<Resource>, key: Uuid, pair: (string, string), isDefault: Option<bool>,
                   lockedAt: Option<int>, lockCheck: Option<int> -> bool, updated: seq<Resource>)
    returns (r: Result<seq<Resource>>)
    requires isDefault.Some? || Named(fetched, pair.0).None?
    modifies db`resources
    ensures Progress(r, db.resources) ==
      UpdateStep(Progress(Ok(updated), old(db.resources)), fetched, key, pair, isDefault, lockedAt, lockCheck)
  {
    var existing := Named(fetched, pair.0);
    if existing.None? {
      return Ok(updated);
    }
    var m := UpdateModel(existing.value, key, pair, isDefault, lockedAt);
    var row := Save(db, m, false, lockCheck);
    if row.Err? {
      return Err(row.error);
    }
    r := Ok(updated + [row.value]);
  }

  /** The loop of `update_resource_group` inside its transaction: a failure
      rolls the table back. */
  method RunUpdates(db: Database, fetched: seq<Resource>, key: Uuid, pairs: seq<(string, string)>, isDefault: Option<bool>,
                    lockedAt: Option<int>, lockCheck: Option<int> -> bool)
    returns (r: Result<seq<Resource>>)
    requires UpdateDefined(fetched, pairs, isDefault)
    modifies db`resources
    ensures var p := ApplyUpdates(old(db.resources), fetched, key, pairs, isDefault, lockedAt, lockCheck);
      && r == p.result
      && db.resources == (if p.result.Ok? then p.rows else old(db.resources))
  {
    var saved := db.resources;
    var updated: seq<Resource> := [];
    var i := 0;
    while i < |pairs|
      invariant 0 <= i <= |pairs|
      invariant UpdateDefined(fetched, pairs[..i], isDefault)
      invariant ApplyUpdates(saved, fetched, key, pairs[..i], isDefault, lockedAt, lockCheck) == Progress(Ok(updated), db.resources)
    {
      ghost var before := db.resources;
      var step := UpdateOne(db, fetched, key, pairs[i], isDefault, lockedAt, lockCheck, updated);
      LoopStep(saved, fetched, key, pairs, i, isDefault, lockedAt, lockCheck, updated, before, Progress(step, db.resources));
      if step.Err? {
        // the transaction is dropped uncommitted and rolls back
        db.resources := saved;
        return Err(step.error);
      }
      updated := step.value;
      i := i + 1;
    }
    assert pairs[..i] == pairs;
    r := Ok(updated);
  }

  /** `update_resource_group`: the checks, the shared lock and flag taken
      from the group's first resource, the updates, and the group's rows. */
  method UpdateResourceGroup(db: Database, authorized: bool, isDefaultKey: bool, realmId: Uuid, key: Uuid, payload: GroupUpdate,
                             now: int, lockCheck: Option<int> -> bool)
    returns (r: Result<seq<Resource>>)
    requires var c := GroupUpdateChecks(db.resources, db.users, authorized, isDefaultKey, realmId, key);
      c.Ok? ==> UpdateDefined(c.value, payload.identifiers, GroupIsDefault(payload.isDefault, c.value[0]))
    modifies db`resources
    ensures var c := GroupUpdateChecks(old(db.resources), db.users, authorized, isDefaultKey, realmId, key);
      && (c.Err? ==> r == Err(c.error) && db.resources == old(db.resources))
      && (c.Ok? ==>
            var first := c.value[0];
            var p := ApplyUpdates(old(db.resources), c.value, key, payload.identifiers,
                                  GroupIsDefault(payload.isDefault, first), GroupLockedAt(payload.lock, first, now), lockCheck);
            && (p.result.Err? ==> r == Err(p.result.error) && db.resources == old(db.resources))
            && (p.result.Ok? ==> db.resources == p.rows && r == Ok(GroupRows(p.rows, key))))
  {
    var checks := GroupUpdateChecks(db.resources, db.users, authorized, isDefaultKey, realmId, key);
    if checks.Err? {
      return Err(checks.error);
    }
    var resources := checks.value;
    var first := resources[0];
    var lockedAt := GroupLockedAt(payload.lock, first, now);
    var isDefault := GroupIsDefault(payload.isDefault, first);
    var updated := RunUpdates(db, resources, key, payload.identifiers, isDefault, lockedAt, lockCheck);
    if updated.Err? {
      return Err(updated.error);
    }
    r := Ok(GroupRows(db.resources, key));
  }

  /** The ids of the resources an update request rewrites. */
  function UpdatedIds(fetched: seq<Resource>, pairs: seq<(string, string)>): set<Uuid> {
    set k | 0 <= k < |pairs| && Named(fetched, pairs[k].0).Some? :: Named(fetched, pairs[k].0).value.id
  }

  /** The hook on a fully Set model of the group keeps every id in place and
      touches no row of the group; it fails exactly when the lock is refused,
      and otherwise keeps the model or raises its flag. */
  lemma UpdateHookShape(rows: seq<Resource>, existing: Resource, key: Uuid, pair: (string, string), isDefault: Option<bool>,
                        lockedAt: Option<int>, lockCheck: Option<int> -> bool)
    requires isDefault.Some?
    ensures var m := UpdateModel(existing, key, pair, isDefault, lockedAt);
      var h := Hook(rows, m, false, lockCheck);
      && |h.rows| == |rows|
      && (forall k :: 0 <= k < |rows| ==> h.rows[k].id == rows[k].id)
      && (forall k :: 0 <= k < |rows| && rows[k].groupKey == key ==> h.rows[k] == rows[k])
      && (forall k :: 0 <= k < |rows| ==> h.rows[k] == rows[k] || h.rows[k] == rows[k].(isDefault := Some(false)))
      && (h.result.Err? <==> !lockCheck(lockedAt))
      && (h.result.Err? ==> h.result.error == Db(LockConstraint) && h.rows == rows)
      && (h.result.Ok? ==> h.result.value == m || (isDefault == Some(false) && h.result.value == m.(isDefault := Set(Some(true)))))
  {
  }

  /** One hook-and-update step on a fully Set model of the group keeps every
      id in place, touches no other row of the group, and writes the model's
      columns over the stored id. */
  lemma UpdateStepShape(rows: seq<Resource>, existing: Resource, key: Uuid, pair: (string, string), isDefault: Option<bool>,
                        lockedAt: Option<int>, lockCheck: Option<int> -> bool)
    requires isDefault.Some?
    requires exists k :: 0 <= k < |rows| && rows[k].id == existing.id
    ensures var o := SaveSpec(rows, UpdateModel(existing, key, pair, isDefault, lockedAt), false, lockCheck);
      && |o.rows| == |rows|
      && (forall k :: 0 <= k < |rows| ==> o.rows[k].id == rows[k].id)
      && (forall k :: 0 <= k < |rows| && rows[k].groupKey == key && rows[k].id != existing.id ==> o.rows[k] == rows[k])
      && (o.result.Err? <==> !lockCheck(lockedAt))
      && (o.result.Err? ==> o.result.error == Db(LockConstraint) && o.rows == rows)
      && (o.result.Ok? ==>
            && o.result.value.(isDefault := isDefault) ==
               Resource(existing.id, existing.userId, existing.clientId, key, pair.0, pair.1, existing.description, isDefault, lockedAt)
            && (isDefault == Some(true) ==> o.result.value.isDefault == Some(true))
            && o.result.value.isDefault.Some?
            && forall k :: 0 <= k < |rows| && rows[k].id == existing.id ==> o.rows[k] == o.result.value)
  {
    UpdateStepRows(rows, existing, key, pair, isDefault, lockedAt, lockCheck);
    UpdateStepValue(rows, existing, key, pair, isDefault, lockedAt, lockCheck);
    UpdateStepWritesRow(rows, existing, key, pair, isDefault, lockedAt, lockCheck);
  }

  /** The table side of one step: same length and ids, other rows of the group untouched. */
  lemma UpdateStepRows(rows: seq<Resource>, existing: Resource, key: Uuid, pair: (string, string), isDefault: Option<bool>,
                       lockedAt: Option<int>, lockCheck: Option<int> -> bool)
    requires isDefault.Some?
    ensures var o := SaveSpec(rows, UpdateModel(existing, key, pair, isDefault, lockedAt), false, lockCheck);
      && |o.rows| == |rows|
      && (forall k :: 0 <= k < |rows| ==> o.rows[k].id == rows[k].id)
      && (forall k :: 0 <= k < |rows| && rows[k].groupKey == key && rows[k].id != existing.id ==> o.rows[k] == rows[k])
  {
    var m := UpdateModel(existing, key, pair, isDefault, lockedAt);
    var h := Hook(rows, m, false, lockCheck);
    UpdateHookShape(rows, existing, key, pair, isDefault, lockedAt, lockCheck);
    if h.result.Ok? {
      var w := h.result.value;
      assert w.id == existing.id;
      var out := UpdateById(h.rows, w);
      assert forall k :: 0 <= k < |rows| ==> out[k].id == h.rows[k].id;
    }
  }

  /** The result side of one step: it fails exactly on a refused lock, and
      otherwise returns the stored row rewritten with the model. */
  lemma UpdateStepValue(rows: seq<Resource>, existing: Resource, key: Uuid, pair: (string, string), isDefault: Option<bool>,
                        lockedAt: Option<int>, lockCheck: Option<int> -> bool)
    requires isDefault.Some?
    requires exists k :: 0 <= k < |rows| && rows[k].id == existing.id
    ensures var o := SaveSpec(rows, UpdateModel(existing, key, pair, isDefault, lockedAt), false, lockCheck);
      && (o.result.Err? <==> !lockCheck(lockedAt))
      && (o.result.Err? ==> o.result.error == Db(LockConstraint) && o.rows == rows)
      && (o.result.Ok? ==>
            && o.result.value.(isDefault := isDefault) ==
               Resource(existing.id, existing.userId, existing.clientId, key, pair.0, pair.1, existing.description, isDefault, lockedAt)
            && (isDefault == Some(true) ==> o.result.value.isDefault == Some(true))
            && o.result.value.isDefault.Some?)
  {
    var m := UpdateModel(existing, key, pair, isDefault, lockedAt);
    var h := Hook(rows, m, false, lockCheck);
    UpdateHookShape(rows, existing, key, pair, isDefault, lockedAt, lockCheck);
    if h.result.Ok? {
      var w := h.result.value;
      var d := w.isDefault.value;
      assert w == UpdateModel(existing, key, pair, d, lockedAt);
      var j :| 0 <= j < |rows| && rows[j].id == existing.id;
      assert h.rows[j].id == w.id;
      var stored := FindById(h.rows, w.id);
      OverlayOfUpdate(stored.value, existing, key, pair, d, lockedAt);
    }
  }

  /** Updating the stored row of an existing resource with its fully Set model. */
  lemma OverlayOfUpdate(stored: Resource, existing: Resource, key: Uuid, pair: (string, string), d: Option<bool>, lockedAt: Option<int>)
    requires stored.id == existing.id
    ensures Overlay(stored, UpdateModel(existing, key, pair, d, lockedAt)) ==
      Resource(existing.id, existing.userId, existing.clientId, key, pair.0, pair.1, existing.description, d, lockedAt)
  {
  }

  /** Once the loop has failed, the later identifiers change nothing. */
  lemma {:induction false} FailureStopsUpdates(rows: seq<Resource>, fetched: seq<Resource>, key: Uuid, pairs: seq<(string, string)>, j: nat,
                                               isDefault: Option<bool>, lockedAt: Option<int>, lockCheck: Option<int> -> bool)
    requires UpdateDefined(fetched, pairs, isDefault) && j <= |pairs|
    requires UpdateDefined(fetched, pairs[..j], isDefault)
    requires ApplyUpdates(rows, fetched, key, pairs[..j], isDefault, lockedAt, lockCheck).result.Err?
    ensures ApplyUpdates(rows, fetched, key, pairs, isDefault, lockedAt, lockCheck) ==
            ApplyUpdates(rows, fetched, key, pairs[..j], isDefault, lockedAt, lockCheck)
  {
    if j < |pairs| {
      var n := |pairs| - 1;
      assert forall k :: 0 <= k < n ==> pairs[..n][k] == pairs[k];
      assert pairs[..n][..j] == pairs[..j];
      FailureStopsUpdates(rows, fetched, key, pairs[..n], j, isDefault, lockedAt, lockCheck);
    } else {
      assert pairs[..j] == pairs;
    }
  }

  /** The table keeps its rows and ids (nothing is inserted), and the rows
      of the group whose id no identifier picks are untouched. */
  lemma {:induction false} UpdatesKeepRows(rows: seq<Resource>, fetched: seq<Resource>, key: Uuid, pairs: seq<(string, string)>,
                                           isDefault: Option<bool>, lockedAt: Option<int>, lockCheck: Option<int> -> bool)
    requires UpdateDefined(fetched, pairs, isDefault)
    requires forall x :: x in fetched ==> x in rows
    ensures var p := ApplyUpdates(rows, fetched, key, pairs, isDefault, lockedAt, lockCheck);
      && |p.rows| == |rows|
      && (forall k :: 0 <= k < |rows| ==> p.rows[k].id == rows[k].id)
      && (forall k :: 0 <= k < |rows| && rows[k].groupKey == key && rows[k].id !in UpdatedIds(fetched, pairs) ==> p.rows[k] == rows[k])
  {
    if pairs != [] {
      var n := |pairs| - 1;
      assert forall k :: 0 <= k < n ==> pairs[..n][k] == pairs[k];
      assert UpdatedIds(fetched, pairs[..n]) <= UpdatedIds(fetched, pairs);
      UpdatesKeepRows(rows, fetched, key, pairs[..n], isDefault, lockedAt, lockCheck);
      var prev := ApplyUpdates(rows, fetched, key, pairs[..n], isDefault, lockedAt, lockCheck);
      StepKeepsRows(rows, prev, fetched, key, pairs, n, isDefault, lockedAt, lockCheck);
    }
  }

  /** One step of the loop keeps the ids in place and leaves alone the rows
      of the group whose id no identifier picks. */
  lemma StepKeepsRows(rows: seq<Resource>, prev: Progress, fetched: seq<Resource>, key: Uuid, pairs: seq<(string, string)>, n: nat,
                      isDefault: Option<bool>, lockedAt: Option<int>, lockCheck: Option<int> -> bool)
    requires n < |pairs| && (isDefault.Some? || Named(fetched, pairs[n].0).None?)
    requires forall x :: x in fetched ==> x in rows
    requires |prev.rows| == |rows| && forall k :: 0 <= k < |rows| ==> prev.rows[k].id == rows[k].id
    requires forall k :: 0 <= k < |rows| && rows[k].groupKey == key && rows[k].id !in UpdatedIds(fetched, pairs) ==> prev.rows[k] == rows[k]
    ensures var q := UpdateStep(prev, fetched, key, pairs[n], isDefault, lockedAt, lockCheck);
      && |q.rows| == |rows|
      && (forall k :: 0 <= k < |rows| ==> q.rows[k].id == rows[k].id)
      && (forall k :: 0 <= k < |rows| && rows[k].groupKey == key && rows[k].id !in UpdatedIds(fetched, pairs) ==> q.rows[k] == rows[k])
  {
    var named := Named(fetched, pairs[n].0);
    if prev.result.Ok? && named.Some? {
      var existing := named.value;
      NamedIsStored(prev.rows, rows, fetched, pairs[n]);
      assert existing.id in UpdatedIds(fetched, pairs);
      UpdateStepRows(prev.rows, existing, key, pairs[n], isDefault, lockedAt, lockCheck);
    }
  }

  /** The only way the loop fails is a lock the constraint refuses, and
      with an accepted lock it always succeeds. */
  lemma {:induction false} UpdatesFailOnlyOnLock(rows: seq<Resource>, fetched: seq<Resource>, key: Uuid, pairs: seq<(string, string)>,
                                                 isDefault: Option<bool>, lockedAt: Option<int>, lockCheck: Option<int> -> bool)
    requires UpdateDefined(fetched, pairs, isDefault)
    requires forall x :: x in fetched ==> x in rows
    ensures var p := ApplyUpdates(rows, fetched, key, pairs, isDefault, lockedAt, lockCheck);
      && (p.result.Err? ==> p.result.error == Db(LockConstraint) && !lockCheck(lockedAt))
      && (lockCheck(lockedAt) ==> p.result.Ok?)
  {
    if pairs != [] {
      var n := |pairs| - 1;
      assert forall k :: 0 <= k < n ==> pairs[..n][k] == pairs[k];
      UpdatesFailOnlyOnLock(rows, fetched, key, pairs[..n], isDefault, lockedAt, lockCheck);
      UpdatesKeepRows(rows, fetched, key, pairs[..n], isDefault, lockedAt, lockCheck);
      var prev := ApplyUpdates(rows, fetched, key, pairs[..n], isDefault, lockedAt, lockCheck);
      var named := Named(fetched, pairs[n].0);
      if prev.result.Ok? && named.Some? {
        var existing := named.value;
        NamedIsStored(prev.rows, rows, fetched, pairs[n]);
        UpdateStepValue(prev.rows, existing, key, pairs[n], isDefault, lockedAt, lockCheck);
      }
    }
  }

  /** `y` is the row `pair` makes of the group's first resource with its
      name: that resource's id, owner, client and description, the group's
      key, the pair's name and value, the shared lock, and a flag that is set,
      and true when true was requested. */
  predicate RewriteOfPair(y: Resource, fetched: seq<Resource>, key: Uuid, pair: (string, string), isDefault: Option<bool>,
                          lockedAt: Option<int>) {
    && Named(fetched, pair.0).Some?
    && var x := Named(fetched, pair.0).value;
    && y == Resource(x.id, x.userId, x.clientId, key, pair.0, pair.1, x.description, y.isDefault, lockedAt)
    && y.isDefault.Some? && (isDefault == Some(true) ==> y.isDefault == Some(true))
  }

  /** `y` rewrites the fetched resource one of the pairs names. */
  predicate Rewrites(y: Resource, fetched: seq<Resource>, key: Uuid, pairs: seq<(string, string)>, isDefault: Option<bool>, lockedAt: Option<int>) {
    exists k :: 0 <= k < |pairs| && RewriteOfPair(y, fetched, key, pairs[k], isDefault, lockedAt)
  }

  lemma RewritesExtends(y: Resource, fetched: seq<Resource>, key: Uuid, pairs: seq<(string, string)>, n: nat,
                        isDefault: Option<bool>, lockedAt: Option<int>)
    requires n <= |pairs| && Rewrites(y, fetched, key, pairs[..n], isDefault, lockedAt)
    ensures Rewrites(y, fetched, key, pairs, isDefault, lockedAt)
  {
    var k :| 0 <= k < n && RewriteOfPair(y, fetched, key, pairs[..n][k], isDefault, lockedAt);
    assert pairs[..n][k] == pairs[k];
  }

  /** The number of pairs whose name some fetched resource has. */
  function NamedCount(fetched: seq<Resource>, pairs: seq<(string, string)>): nat {
    if pairs == [] then 0
    else NamedCount(fetched, pairs[..|pairs| - 1]) + (if Named(fetched, pairs[|pairs| - 1].0).Some? then 1 else 0)
  }

  /** Every row the loop returns rewrites the fetched resource a requested
      pair names, with the shared lock and, when requested, the raised
      default flag; there is one row per pair whose name is found, and a
      pair with an unknown name adds none. */
  lemma {:induction false} UpdatesRewriteFetched(rows: seq<Resource>, fetched: seq<Resource>, key: Uuid, pairs: seq<(string, string)>,
                                                 isDefault: Option<bool>, lockedAt: Option<int>, lockCheck: Option<int> -> bool)
    requires UpdateDefined(fetched, pairs, isDefault)
    requires forall x :: x in fetched ==> x in rows
    ensures var p := ApplyUpdates(rows, fetched, key, pairs, isDefault, lockedAt, lockCheck);
      p.result.Ok? ==> |p.result.value| == NamedCount(fetched, pairs)
                       && forall y :: y in p.result.value ==> Rewrites(y, fetched, key, pairs, isDefault, lockedAt)
  {
    if pairs != [] {
      var n := |pairs| - 1;
      assert forall k :: 0 <= k < n ==> pairs[..n][k] == pairs[k];
      UpdatesRewriteFetched(rows, fetched, key, pairs[..n], isDefault, lockedAt, lockCheck);
      UpdatesKeepRows(rows, fetched, key, pairs[..n], isDefault, lockedAt, lockCheck);
      var prev := ApplyUpdates(rows, fetched, key, pairs[..n], isDefault, lockedAt, lockCheck);
      if prev.result.Ok? {
        forall y | y in prev.result.value
          ensures Rewrites(y, fetched, key, pairs, isDefault, lockedAt)
        {
          RewritesExtends(y, fetched, key, pairs, n, isDefault, lockedAt);
        }
      }
      StepRewrites(rows, prev, fetched, key, pairs, n, isDefault, lockedAt, lockCheck);
    }
  }

  /** The fetched resource a step names is still in the table at the same id. */
  lemma NamedIsStored(prevRows: seq<Resource>, rows: seq<Resource>, fetched: seq<Resource>, pair: (string, string))
    requires Named(fetched, pair.0).Some?
    requires forall x :: x in fetched ==> x in rows
    requires |prevRows| == |rows| && forall k :: 0 <= k < |rows| ==> prevRows[k].id == rows[k].id
    ensures Named(fetched, pair.0).value in fetched
    ensures exists k :: 0 <= k < |prevRows| && prevRows[k].id == Named(fetched, pair.0).value.id
  {
    var existing := Named(fetched, pair.0).value;
    assert existing in fetched;
    var j :| 0 <= j < |rows| && rows[j] == existing;
    assert prevRows[j].id == existing.id;
  }

  /** One step adds at most one row, and that row rewrites the named resource with the step's pair. */
  lemma StepRewrites(rows: seq<Resource>, prev: Progress, fetched: seq<Resource>, key: Uuid, pairs: seq<(string, string)>, n: nat,
                     isDefault: Option<bool>, lockedAt: Option<int>, lockCheck: Option<int> -> bool)
    requires n < |pairs| && (isDefault.Some? || Named(fetched, pairs[n].0).None?)
    requires forall x :: x in fetched ==> x in rows
    requires |prev.rows| == |rows| && forall k :: 0 <= k < |rows| ==> prev.rows[k].id == rows[k].id
    requires prev.result.Ok? ==> forall y :: y in prev.result.value ==> Rewrites(y, fetched, key, pairs, isDefault, lockedAt)
    ensures var q := UpdateStep(prev, fetched, key, pairs[n], isDefault, lockedAt, lockCheck);
      q.result.Ok? ==> && |q.result.value| == |prev.result.value| + (if Named(fetched, pairs[n].0).Some? then 1 else 0)
                       && forall y :: y in q.result.value ==> Rewrites(y, fetched, key, pairs, isDefault, lockedAt)
  {
    var named := Named(fetched, pairs[n].0);
    if prev.result.Ok? && named.Some? {
      NamedIsStored(prev.rows, rows, fetched, pairs[n]);
      StepValueIsRewrite(prev.rows, fetched, key, pairs[n], isDefault, lockedAt, lockCheck);
    }
  }

  /** A successful save of the model a pair makes returns that pair's rewrite. */
  lemma StepValueIsRewrite(rows: seq<Resource>, fetched: seq<Resource>, key: Uuid, pair: (string, string), isDefault: Option<bool>,
                           lockedAt: Option<int>, lockCheck: Option<int> -> bool)
    requires isDefault.Some? && Named(fetched, pair.0).Some?
    requires exists k :: 0 <= k < |rows| && rows[k].id == Named(fetched, pair.0).value.id
    ensures var o := SaveSpec(rows, UpdateModel(Named(fetched, pair.0).value, key, pair, isDefault, lockedAt), false, lockCheck);
      o.result.Ok? ==> RewriteOfPair(o.result.value, fetched, key, pair, isDefault, lockedAt)
  {
    UpdateStepValue(rows, Named(fetched, pair.0).value, key, pair, isDefault, lockedAt, lockCheck);
  }

  /** A successful step writes its returned row over every row with the named id. */
  lemma UpdateStepWritesRow(rows: seq<Resource>, existing: Resource, key: Uuid, pair: (string, string), isDefault: Option<bool>,
                            lockedAt: Option<int>, lockCheck: Option<int> -> bool)
    requires isDefault.Some?
    ensures var o := SaveSpec(rows, UpdateModel(existing, key, pair, isDefault, lockedAt), false, lockCheck);
      o.result.Ok? ==> forall k :: 0 <= k < |rows| && rows[k].id == existing.id ==> o.rows[k] == o.result.value
  {
    var m := UpdateModel(existing, key, pair, isDefault, lockedAt);
    var h := Hook(rows, m, false, lockCheck);
    UpdateHookShape(rows, existing, key, pair, isDefault, lockedAt, lockCheck);
    if h.result.Ok? {
      var w := h.result.value;
      var d := w.isDefault.value;
      assert w == UpdateModel(existing, key, pair, d, lockedAt);
      var stored := FindById(h.rows, w.id);
      if stored.Some? {
        OverlayOfUpdate(stored.value, existing, key, pair, d, lockedAt);
        forall k | 0 <= k < |rows| && rows[k].id == existing.id
          ensures UpdateById(h.rows, w)[k] == Overlay(stored.value, w)
        {
          OverlayOfUpdate(h.rows[k], existing, key, pair, d, lockedAt);
        }
      }
    }
  }

  /** The step of the pair itself leaves its rewrite at every row with the named id. */
  lemma StepWritesRewrite(rows: seq<Resource>, prev: Progress, fetched: seq<Resource>, key: Uuid, pairs: seq<(string, string)>, n: nat,
                          isDefault: Option<bool>, lockedAt: Option<int>, lockCheck: Option<int> -> bool, j: nat)
    requires n < |pairs| && isDefault.Some? && Named(fetched, pairs[n].0).Some?
    requires |prev.rows| == |rows| && forall k :: 0 <= k < |rows| ==> prev.rows[k].id == rows[k].id
    requires j < |rows| && rows[j].id == Named(fetched, pairs[n].0).value.id
    ensures var q := UpdateStep(prev, fetched, key, pairs[n], isDefault, lockedAt, lockCheck);
      q.result.Ok? ==> j < |q.rows| && RewriteOfPair(q.rows[j], fetched, key, pairs[n], isDefault, lockedAt)
  {
    if prev.result.Ok? {
      var existing := Named(fetched, pairs[n].0).value;
      assert prev.rows[j].id == existing.id;
      var o := SaveSpec(prev.rows, UpdateModel(existing, key, pairs[n], isDefault, lockedAt), false, lockCheck);
      assert UpdateStep(prev, fetched, key, pairs[n], isDefault, lockedAt, lockCheck).rows == o.rows;
      UpdateStepWritesRow(prev.rows, existing, key, pairs[n], isDefault, lockedAt, lockCheck);
      StepValueIsRewrite(prev.rows, fetched, key, pairs[n], isDefault, lockedAt, lockCheck);
    }
  }

  /** A step for a pair naming another id keeps a rewrite in place. */
  lemma StepKeepsRewrite(prev: Progress, fetched: seq<Resource>, key: Uuid, pairs: seq<(string, string)>, n: nat,
                         isDefault: Option<bool>, lockedAt: Option<int>, lockCheck: Option<int> -> bool, j: nat, pair: (string, string))
    requires n < |pairs| && (isDefault.Some? || Named(fetched, pairs[n].0).None?)
    requires j < |prev.rows| && (prev.result.Ok? ==> RewriteOfPair(prev.rows[j], fetched, key, pair, isDefault, lockedAt))
    requires Named(fetched, pair.0).Some? && Named(fetched, pairs[n].0).Some? ==>
      Named(fetched, pairs[n].0).value.id != Named(fetched, pair.0).value.id
    ensures var q := UpdateStep(prev, fetched, key, pairs[n], isDefault, lockedAt, lockCheck);
      q.result.Ok? ==> j < |q.rows| && RewriteOfPair(q.rows[j], fetched, key, pair, isDefault, lockedAt)
  {
    var named := Named(fetched, pairs[n].0);
    if prev.result.Ok? && named.Some? {
      UpdateStepRows(prev.rows, named.value, key, pairs[n], isDefault, lockedAt, lockCheck);
    }
  }

  /** After a successful loop, every row carrying the id of the resource a
      pair names holds that pair's rewrite, provided no later pair names the
      same id. */
  lemma {:induction false} UpdatesWriteNamedRows(rows: seq<Resource>, fetched: seq<Resource>, key: Uuid, pairs: seq<(string, string)>,
                                                 isDefault: Option<bool>, lockedAt: Option<int>, lockCheck: Option<int> -> bool,
                                                 k: nat, j: nat)
    requires UpdateDefined(fetched, pairs, isDefault)
    requires forall x :: x in fetched ==> x in rows
    requires k < |pairs| && Named(fetched, pairs[k].0).Some?
    requires forall i :: k < i < |pairs| && Named(fetched, pairs[i].0).Some? ==>
      Named(fetched, pairs[i].0).value.id != Named(fetched, pairs[k].0).value.id
    requires j < |rows| && rows[j].id == Named(fetched, pairs[k].0).value.id
    ensures var p := ApplyUpdates(rows, fetched, key, pairs, isDefault, lockedAt, lockCheck);
      p.result.Ok? ==> j < |p.rows| && RewriteOfPair(p.rows[j], fetched, key, pairs[k], isDefault, lockedAt)
  {
    var n := |pairs| - 1;
    ApplyUpdatesSnoc(rows, fetched, key, pairs, n, isDefault, lockedAt, lockCheck);
    assert pairs[..n + 1] == pairs;
    UpdatesKeepRows(rows, fetched, key, pairs[..n], isDefault, lockedAt, lockCheck);
    var prev := ApplyUpdates(rows, fetched, key, pairs[..n], isDefault, lockedAt, lockCheck);
    if k == n {
      assert isDefault.Some?;
      StepWritesRewrite(rows, prev, fetched, key, pairs, n, isDefault, lockedAt, lockCheck, j);
    } else {
      var init := pairs[..n];
      assert init[k] == pairs[k];
      assert forall i :: k < i < n && Named(fetched, init[i].0).Some? ==>
        Named(fetched, init[i].0).value.id != Named(fetched, init[k].0).value.id by {
        forall i | k < i < n ensures init[i] == pairs[i] { }
      }
      UpdatesWriteNamedRows(rows, fetched, key, init, isDefault, lockedAt, lockCheck, k, j);
      StepKeepsRewrite(prev, fetched, key, pairs, n, isDefault, lockedAt, lockCheck, j, pairs[k]);
    }
  }

  /** With a primary key, two rows of the table with one id are the same row. */
  lemma SameIdSameRow(rows: seq<Resource>, x: Resource, y: Resource)
    requires UniqueIds(rows) && x in rows && y in rows && x.id == y.id
    ensures x == y
  {
    var i :| 0 <= i < |rows| && rows[i] == x;
    var j :| 0 <= j < |rows| && rows[j] == y;
    assert !(i < j) && !(j < i);
  }

  /** The identifiers of a request are the keys of a map, so their names are
      distinct; with a primary key the resources they name then have distinct ids. */
  lemma DistinctNamesPickDistinctIds(rows: seq<Resource>, fetched: seq<Resource>, pairs: seq<(string, string)>, i: nat, k: nat)
    requires UniqueIds(rows) && forall x :: x in fetched ==> x in rows
    requires i < |pairs| && k < |pairs| && pairs[i].0 != pairs[k].0
    requires Named(fetched, pairs[i].0).Some? && Named(fetched, pairs[k].0).Some?
    ensures Named(fetched, pairs[i].0).value.id != Named(fetched, pairs[k].0).value.id
  {
    var a, b := Named(fetched, pairs[i].0).value, Named(fetched, pairs[k].0).value;
    assert a.name == pairs[i].0 && b.name == pairs[k].0;
    if a.id == b.id {
      SameIdSameRow(rows, a, b);
    }
  }

  /** What `update_resource_group` returns after a successful loop: the rows
      of the group, among them, for every identifier whose name the group has,
      its resource rewritten with the pair's name and value, the shared lock
      and the flag; every returned row with that id holds the rewrite. */
  lemma {:induction false} UpdatedGroupShowsRequest(rows: seq<Resource>, fetched: seq<Resource>, key: Uuid, pairs: seq<(string, string)>,
                                                    isDefault: Option<bool>, lockedAt: Option<int>, lockCheck: Option<int> -> bool, k: nat)
    requires UpdateDefined(fetched, pairs, isDefault)
    requires UniqueIds(rows) && forall x :: x in fetched ==> x in rows
    requires forall i, i' :: 0 <= i < i' < |pairs| ==> pairs[i].0 != pairs[i'].0
    requires k < |pairs| && Named(fetched, pairs[k].0).Some?
    ensures var p := ApplyUpdates(rows, fetched, key, pairs, isDefault, lockedAt, lockCheck);
      p.result.Ok? ==>
        && (exists y :: y in GroupRows(p.rows, key) && y.id == Named(fetched, pairs[k].0).value.id)
        && forall y :: y in GroupRows(p.rows, key) && y.id == Named(fetched, pairs[k].0).value.id ==>
                         RewriteOfPair(y, fetched, key, pairs[k], isDefault, lockedAt)
  {
    var p := ApplyUpdates(rows, fetched, key, pairs, isDefault, lockedAt, lockCheck);
    var x := Named(fetched, pairs[k].0).value;
    RewriteAtEveryIndex(rows, fetched, key, pairs, isDefault, lockedAt, lockCheck, k);
    if p.result.Ok? {
      assert x in fetched;
      var j0 :| 0 <= j0 < |rows| && rows[j0] == x;
      assert p.rows[j0] in GroupRows(p.rows, key);
    }
  }

  /** After a successful loop, every row of the table with the id pair `k`
      names holds its rewrite, and the table still has such a row. */
  lemma RewriteAtEveryIndex(rows: seq<Resource>, fetched: seq<Resource>, key: Uuid, pairs: seq<(string, string)>,
                            isDefault: Option<bool>, lockedAt: Option<int>, lockCheck: Option<int> -> bool, k: nat)
    requires UpdateDefined(fetched, pairs, isDefault)
    requires UniqueIds(rows) && forall x :: x in fetched ==> x in rows
    requires forall i, i' :: 0 <= i < i' < |pairs| ==> pairs[i].0 != pairs[i'].0
    requires k < |pairs| && Named(fetched, pairs[k].0).Some?
    ensures var p := ApplyUpdates(rows, fetched, key, pairs, isDefault, lockedAt, lockCheck);
      p.result.Ok? ==>
        && |p.rows| == |rows| && (forall j :: 0 <= j < |rows| ==> p.rows[j].id == rows[j].id)
        && forall j :: 0 <= j < |p.rows| && p.rows[j].id == Named(fetched, pairs[k].0).value.id ==>
                         RewriteOfPair(p.rows[j], fetched, key, pairs[k], isDefault, lockedAt)
  {
    var p := ApplyUpdates(rows, fetched, key, pairs, isDefault, lockedAt, lockCheck);
    LaterPairsPickOtherIds(rows, fetched, pairs, k);
    UpdatesKeepRows(rows, fetched, key, pairs, isDefault, lockedAt, lockCheck);
    if p.result.Ok? {
      forall j | 0 <= j < |p.rows| && p.rows[j].id == Named(fetched, pairs[k].0).value.id
        ensures RewriteOfPair(p.rows[j], fetched, key, pairs[k], isDefault, lockedAt)
      {
        UpdatesWriteNamedRows(rows, fetched, key, pairs, isDefault, lockedAt, lockCheck, k, j);
      }
    }
  }

  /** With distinct names, no later pair names the id pair `k` names. */
  lemma LaterPairsPickOtherIds(rows: seq<Resource>, fetched: seq<Resource>, pairs: seq<(string, string)>, k: nat)
    requires UniqueIds(rows) && forall x :: x in fetched ==> x in rows
    requires forall i, i' :: 0 <= i < i' < |pairs| ==> pairs[i].0 != pairs[i'].0
    requires k < |pairs| && Named(fetched, pairs[k].0).Some?
    ensures forall i :: k < i < |pairs| && Named(fetched, pairs[i].0).Some? ==>
      Named(fetched, pairs[i].0).value.id != Named(fetched, pairs[k].0).value.id
  {
    forall i | k < i < |pairs| && Named(fetched, pairs[i].0).Some?
      ensures Named(fetched, pairs[i].0).value.id != Named(fetched, pairs[k].0).value.id
    {
      DistinctNamesPickDistinctIds(rows, fetched, pairs, i, k);
    }
  }

  // ---------------------------------------------------------------------------
  // Deleting a group's resources

  /** `delete_resource_by_group`: deletes every row with the key and reports
      ok only when that was exactly one row. */
  method DeleteResourceByGroup(db: Database, authorized: bool, isDefaultKey: bool, realmId: Uuid, key: Uuid)
    returns (r: Result<DeleteResponse>)
    modifies db`resources
    ensures !authorized ==> r == Err(Authenticate(NoResource)) && db.resources == old(db.resources)
    ensures authorized && isDefaultKey ==> r == Err(BadRequest(CannotDeleteDefaultProperty)) && db.resources == old(db.resources)
    ensures authorized && !isDefaultKey && !KeyComboValidator.IsResourceGroupBelongsToRealm(old(db.resources), db.users, key, realmId) ==>
      r == Err(BadRequest(BadRealmClientCombo)) && db.resources == old(db.resources)
    ensures authorized && !isDefaultKey && KeyComboValidator.IsResourceGroupBelongsToRealm(old(db.resources), db.users, key, realmId) ==>
      && (forall x :: x in db.resources <==> x in old(db.resources) && x.groupKey != key)
      && r == Ok(DeleteResponse(|GroupRows(old(db.resources), key)| == 1))
  {
    if !authorized {
      return Err(Authenticate(NoResource));
    }
    if isDefaultKey {
      return Err(BadRequest(CannotDeleteDefaultProperty));
    }
    if !KeyComboValidator.IsResourceGroupBelongsToRealm(db.resources, db.users, key, realmId) {
      return Err(BadRequest(BadRealmClientCombo));
    }
    var inGroup := (x: Resource) => x.groupKey == key;
    var kept := Filter(db.resources, (x: Resource) => !inGroup(x));
    FilterSplits(db.resources, inGroup);
    var rowsAffected := |db.resources| - |kept|;
    db.resources := kept;
    r := Ok(DeleteResponse(rowsAffected == 1));
  }

  // ---------------------------------------------------------------------------
  // Updating and deleting one resource

  /** An update request for one resource. */
  datatype ResourceUpdate = ResourceUpdate(name: string, value: string, description: Option<string>, lock: Option<bool>)

  /** The active model of `update_resource`: owner, client and default flag are not written. */
  function ResourceModel(id: Uuid, existing: Resource, payload: ResourceUpdate, now: int): ActiveResource {
    ActiveResource(id, NotSet, NotSet, Set(existing.groupKey), Set(payload.name), Set(payload.value), Set(payload.description),
                   NotSet, Set(ResourceLockedAt(payload.lock, existing, now)))
  }

  /** `update_resource`. Only the caller's role is checked, not the resource's realm. */
  method UpdateResource(db: Database, authorized: bool, isDefaultResource: bool, resourceId: Uuid, payload: ResourceUpdate,
                        now: int, lockCheck: Option<int> -> bool)
    returns (r: Result<Resource>)
    modifies db`resources
    ensures !authorized ==> r == Err(Authenticate(ActionForbidden)) && db.resources == old(db.resources)
    ensures authorized && isDefaultResource ==>
      r == Err(CannotPerformOperation("Cannot update the default resource")) && db.resources == old(db.resources)
    ensures authorized && !isDefaultResource && FindById(old(db.resources), resourceId).None? ==>
      r == Err(NotFoundAny) && db.resources == old(db.resources)
    ensures authorized && !isDefaultResource && FindById(old(db.resources), resourceId).Some? ==>
      var m := ResourceModel(resourceId, FindById(old(db.resources), resourceId).value, payload, now);
      Outcome(r, db.resources) == SaveSpec(old(db.resources), m, false, lockCheck)
  {
    if !authorized {
      return Err(Authenticate(ActionForbidden));
    }
    if isDefaultResource {
      return Err(CannotPerformOperation("Cannot update the default resource"));
    }
    var resource := FindById(db.resources, resourceId);
    if resource.None? {
      return Err(NotFoundAny);
    }
    var m := ResourceModel(resourceId, resource.value, payload, now);
    r := Save(db, m, false, lockCheck);
  }

  /** The row `update_resource` leaves keeps its owner, client, group and
      default flag, takes the request's name, value and description, and is
      locked exactly when a lock was requested; only that row changes. */
  lemma UpdateResourceRewritesOneRow(rows: seq<Resource>, existing: Resource, payload: ResourceUpdate, now: int,
                                     lockCheck: Option<int> -> bool)
    requires existing in rows
    ensures var o := SaveSpec(rows, ResourceModel(existing.id, existing, payload, now), false, lockCheck);
      && (o.result.Err? <==> !lockCheck(ResourceLockedAt(payload.lock, existing, now)))
      && (o.result.Err? ==> o.rows == rows)
      && (o.result.Ok? ==>
            && |o.rows| == |rows|
            && (forall k :: 0 <= k < |rows| && rows[k].id != existing.id ==> o.rows[k] == rows[k])
            && var y := o.result.value;
            && y.id == existing.id && y.name == payload.name && y.value == payload.value && y.description == payload.description
            && var stored := FindById(rows, existing.id).value;
            && y.userId == stored.userId && y.clientId == stored.clientId && y.isDefault == stored.isDefault
            && y.groupKey == existing.groupKey
            && y.lockedAt == ResourceLockedAt(payload.lock, existing, now)
            && (y.lockedAt.Some? <==> payload.lock == Some(true))
            && (exists k :: 0 <= k < |rows| && rows[k] == stored && o.rows[k] == y))
  {
    var m := ResourceModel(existing.id, existing, payload, now);
    if LockAccepted(m, lockCheck) {
      NotSetPassesThrough(rows, m, false, lockCheck);
      var stored := FindById(rows, existing.id).value;
      assert stored.id == existing.id;
      var k :| 0 <= k < |rows| && rows[k] == stored;
      assert UpdateById(rows, m)[k] == Overlay(rows[k], m);
    }
  }

  /** `delete_resource`. */
  method DeleteResource(db: Database, authorized: bool, isDefaultResource: bool, realmId: Uuid, resourceId: Uuid)
    returns (r: Result<DeleteResponse>)
    modifies db`resources
    ensures !authorized ==> r == Err(Authenticate(NoResource)) && db.resources == old(db.resources)
    ensures authorized && isDefaultResource ==> r == Err(BadRequest(CannotDeleteDefaultProperty)) && db.resources == old(db.resources)
    ensures authorized && !isDefaultResource && !KeyComboValidator.IsResourceBelongsToRealm(old(db.resources), realmId, resourceId) ==>
      r == Err(BadRequest(BadRealmClientCombo)) && db.resources == old(db.resources)
    ensures authorized && !isDefaultResource && KeyComboValidator.IsResourceBelongsToRealm(old(db.resources), realmId, resourceId) ==>
      && (forall x :: x in db.resources <==> x in old(db.resources) && x.id != resourceId)
      && r.Ok? && (UniqueIds(old(db.resources)) ==> r.value.ok)
  {
    if !authorized {
      return Err(Authenticate(NoResource));
    }
    if isDefaultResource {
      return Err(BadRequest(CannotDeleteDefaultProperty));
    }
    if !KeyComboValidator.IsResourceBelongsToRealm(db.resources, realmId, resourceId) {
      return Err(BadRequest(BadRealmClientCombo));
    }
    var resource := FindById(db.resources, resourceId);
    if resource.None? {
      // unreachable: the realm check found the row
      return Err(NotFoundAny);
    }
    var hasId := (x: Resource) => x.id == resourceId;
    var kept := Filter(db.resources, (x: Resource) => !hasId(x));
    FilterSplits(db.resources, hasId);
    OneRowPerId(db.resources, resourceId);
    var rowsAffected := |db.resources| - |kept|;
    db.resources := kept;
    r := Ok(DeleteResponse(rowsAffected == 1));
  }

  /** With a primary key, a present id is carried by exactly one row. */
  lemma {:induction false} OneRowPerId(rows: seq<Resource>, id: Uuid)
    requires exists k :: 0 <= k < |rows| && rows[k].id == id
    ensures UniqueIds(rows) ==> Count(rows, (x: Resource) => x.id == id) == 1
  {
    if UniqueIds(rows) {
      if rows[0].id == id {
        NoRowWithId(rows[1..], id);
      } else {
        OneRowPerId(rows[1..], id);
      }
    }
  }

  lemma {:induction false} NoRowWithId(rows: seq<Resource>, id: Uuid)
    requires forall k :: 0 <= k < |rows| ==> rows[k].id != id
    ensures Count(rows, (x: Resource) => x.id == id) == 0
  {
    if rows != [] {
      NoRowWithId(rows[1..], id);
    }
  }
}
