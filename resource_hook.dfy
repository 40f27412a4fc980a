/** The before-save hook of the resource table: the default-flag rule that
    keeps a (user, client) pair resolving to one default group, and the
    lock-timestamp check. Followed by the write SeaORM performs after the hook,
    so that the invariant the rule maintains can be stated about the table. */
module ResourceHook {
  import opened Base
  import opened Entities
  import opened Store

  /** A row the demotion rewrites: same user and client as the written model, another group. */
  predicate Demotable(r: Resource, u: Option<Uuid>, c: Option<Uuid>, g: Uuid) {
    Is(r.userId, u) && Is(r.clientId, c) && r.groupKey != g
  }

  /** A row of the same user and client, in another group, that is default. */
  predicate OtherDefault(r: Resource, u: Option<Uuid>, c: Option<Uuid>, g: Uuid) {
    Demotable(r, u, c, g) && r.isDefault == Some(true)
  }

  predicate OtherDefaultExists(rows: seq<Resource>, u: Option<Uuid>, c: Option<Uuid>, g: Uuid) {
    exists k :: 0 <= k < |rows| && OtherDefault(rows[k], u, c, g)
  }

  /** The table after `update_many` sets `is_default = false` on the demotable rows. */
  function Demoted(rows: seq<Resource>, u: Option<Uuid>, c: Option<Uuid>, g: Uuid): (out: seq<Resource>)
    ensures |out| == |rows|
    ensures forall k :: 0 <= k < |rows| ==>
      out[k] == if Demotable(rows[k], u, c, g) then rows[k].(isDefault := Some(false)) else rows[k]
  {
    if rows == [] then []
    else
      var head := if Demotable(rows[0], u, c, g) then rows[0].(isDefault := Some(false)) else rows[0];
      [head] + Demoted(rows[1..], u, c, g)
  }

  /** The hook unwraps the owner and group columns, and the flag itself, only when `is_default` is Set. */
  predicate HookDefined(m: ActiveResource) {
    m.isDefault.Set? ==> m.isDefault.value.Some? && m.userId.HasValue() && m.clientId.HasValue() && m.groupKey.HasValue()
  }

  /** check_locked_at_constraint, when `locked_at` is Set, accepts it. */
  predicate LockAccepted(m: ActiveResource, lockCheck: Option<int> -> bool) {
    m.lockedAt.Set? ==> lockCheck(m.lockedAt.value)
  }

  /** What a step returns, with the resource table it leaves. */
  datatype Outcome<T> = Outcome(result: Result<T>, rows: seq<Resource>)

  /** The hook as a function of the table: the returned model and the table
      after the hook. The `insert` flag is accepted and not consulted. */
  function Hook(rows: seq<Resource>, m: ActiveResource, insert: bool, lockCheck: Option<int> -> bool): Outcome<ActiveResource>
    requires HookDefined(m)
  {
    if !LockAccepted(m, lockCheck) then Outcome(Err(Db(LockConstraint)), rows)
    else if !m.isDefault.Set? then Outcome(Ok(m), rows)
    else
      var u, c, g := m.userId.value, m.clientId.value, m.groupKey.value;
      if m.isDefault.value.value then Outcome(Ok(m), Demoted(rows, u, c, g))
      else if OtherDefaultExists(rows, u, c, g) then Outcome(Ok(m), rows)
      else Outcome(Ok(m.(isDefault := Set(Some(true)))), rows)
  }

  /** `before_save`: rewrites the table in place and may change the model's flag. */
  method BeforeSave(db: Database, m: ActiveResource, insert: bool, lockCheck: Option<int> -> bool)
    returns (r: Result<ActiveResource>)
    requires HookDefined(m)
    modifies db`resources
    ensures Outcome(r, db.resources) == Hook(old(db.resources), m, insert, lockCheck)
  {
    var self := m;
    if self.lockedAt.Set? {
      if !lockCheck(self.lockedAt.value) {
        return Err(Db(LockConstraint));
      }
    }
    if self.isDefault.Set? {
      var u, c, g := self.userId.value, self.clientId.value, self.groupKey.value;
      if self.isDefault.value.value {
        db.resources := Demoted(db.resources, u, c, g);
      } else {
        var defaultExists := OtherDefaultExists(db.resources, u, c, g);
        if !defaultExists {
          self := self.(isDefault := Set(Some(true)));
        }
      }
    }
    r := Ok(self);
  }

  // ---------------------------------------------------------------------------
  // The write after the hook

  /** The row an update leaves: each Set column replaces the stored value. */
  function Overlay(r: Resource, m: ActiveResource): Resource {
    Resource(r.id, m.userId.Written(r.userId), m.clientId.Written(r.clientId), m.groupKey.Written(r.groupKey),
             m.name.Written(r.name), m.value.Written(r.value), m.description.Written(r.description),
             m.isDefault.Written(r.isDefault), m.lockedAt.Written(r.lockedAt))
  }

  /** The columns without a default that an insert has to be given. */
  predicate Insertable(m: ActiveResource) {
    m.groupKey.Set? && m.name.Set? && m.value.Set?
  }

  /** The row an insert creates: nullable columns left out are null. */
  function Inserted(m: ActiveResource): Resource
    requires Insertable(m)
  {
    Resource(m.id, m.userId.Written(None), m.clientId.Written(None), m.groupKey.value, m.name.value, m.value.value,
             m.description.Written(None), m.isDefault.Written(None), m.lockedAt.Written(None))
  }

  /** `update` by primary key. */
  function UpdateById(rows: seq<Resource>, m: ActiveResource): (out: seq<Resource>)
    ensures |out| == |rows|
    ensures forall k :: 0 <= k < |rows| ==> out[k] == if rows[k].id == m.id then Overlay(rows[k], m) else rows[k]
  {
    if rows == [] then []
    else [if rows[0].id == m.id then Overlay(rows[0], m) else rows[0]] + UpdateById(rows[1..], m)
  }

  /** `insert`/`update` of an active model: the hook runs first, then the
      row is written. A hook that fails stops the write; the hook's own
      table update is not undone here (callers that need that run a transaction). */
  function SaveSpec(rows: seq<Resource>, m: ActiveResource, insert: bool, lockCheck: Option<int> -> bool): Outcome<Resource>
    requires HookDefined(m)
    requires insert ==> Insertable(m)
  {
    var h := Hook(rows, m, insert, lockCheck);
    if h.result.Err? then Outcome(Err(h.result.error), h.rows)
    else
      var w := h.result.value;
      if insert then
        if w.id in Ids(h.rows) then Outcome(Err(Db(Custom(CannotPerformOperation("duplicate key")))), h.rows)
        else Outcome(Ok(Inserted(w)), h.rows + [Inserted(w)])
      else
        match FindById(h.rows, w.id)
        case None => Outcome(Err(Db(RecordNotUpdated)), h.rows)
        case Some(stored) => Outcome(Ok(Overlay(stored, w)), UpdateById(h.rows, w))
  }

  method Save(db: Database, m: ActiveResource, insert: bool, lockCheck: Option<int> -> bool) returns (r: Result<Resource>)
    requires HookDefined(m)
    requires insert ==> Insertable(m)
    modifies db`resources
    ensures Outcome(r, db.resources) == SaveSpec(old(db.resources), m, insert, lockCheck)
  {
    var h := BeforeSave(db, m, insert, lockCheck);
    if h.Err? {
      return Err(h.error);
    }
    var w := h.value;
    if insert {
      if w.id in Ids(db.resources) {
        return Err(Db(Custom(CannotPerformOperation("duplicate key"))));
      }
      var row := Inserted(w);
      db.resources := db.resources + [row];
      r := Ok(row);
    } else {
      var stored := FindById(db.resources, w.id);
      if stored.None? {
        return Err(Db(RecordNotUpdated));
      }
      db.resources := UpdateById(db.resources, w);
      r := Ok(Overlay(stored.value, w));
    }
  }

  // ---------------------------------------------------------------------------
  // The hook's rules

  /** Writing `true` sets `false` on every row of the same user and client in
      another group, and leaves every other row as it was. */
  lemma TrueWriteDemotesOthers(rows: seq<Resource>, m: ActiveResource, insert: bool, lockCheck: Option<int> -> bool)
    requires HookDefined(m) && LockAccepted(m, lockCheck)
    requires m.isDefault == Set(Some(true))
    ensures Hook(rows, m, insert, lockCheck).result == Ok(m)
    ensures |Hook(rows, m, insert, lockCheck).rows| == |rows|
    ensures forall k :: 0 <= k < |rows| && Demotable(rows[k], m.userId.value, m.clientId.value, m.groupKey.value) ==>
      Hook(rows, m, insert, lockCheck).rows[k] == rows[k].(isDefault := Some(false))
    ensures forall k :: 0 <= k < |rows| && !Demotable(rows[k], m.userId.value, m.clientId.value, m.groupKey.value) ==>
      Hook(rows, m, insert, lockCheck).rows[k] == rows[k]
  {
  }

  /** Writing `false` while no other group of the pair is default turns the write into `true`. */
  lemma FalseWriteForcedWhenNoOtherDefault(rows: seq<Resource>, m: ActiveResource, insert: bool, lockCheck: Option<int> -> bool)
    requires HookDefined(m) && LockAccepted(m, lockCheck)
    requires m.isDefault == Set(Some(false))
    requires !OtherDefaultExists(rows, m.userId.value, m.clientId.value, m.groupKey.value)
    ensures Hook(rows, m, insert, lockCheck) == Outcome(Ok(m.(isDefault := Set(Some(true)))), rows)
  {
  }

  /** Writing `false` while another group of the pair is default keeps the
      requested value and touches no row. */
  lemma FalseWriteKeptWhenOtherDefault(rows: seq<Resource>, m: ActiveResource, insert: bool, lockCheck: Option<int> -> bool)
    requires HookDefined(m) && LockAccepted(m, lockCheck)
    requires m.isDefault == Set(Some(false))
    requires OtherDefaultExists(rows, m.userId.value, m.clientId.value, m.groupKey.value)
    ensures Hook(rows, m, insert, lockCheck) == Outcome(Ok(m), rows)
  {
  }

  /** A model whose `is_default` is not Set passes through, and the table is untouched. */
  lemma NotSetPassesThrough(rows: seq<Resource>, m: ActiveResource, insert: bool, lockCheck: Option<int> -> bool)
    requires HookDefined(m) && LockAccepted(m, lockCheck)
    requires !m.isDefault.Set?
    ensures Hook(rows, m, insert, lockCheck) == Outcome(Ok(m), rows)
  {
  }

  /** A Set `locked_at` that the constraint refuses aborts the save before any row changes. */
  lemma RefusedLockAborts(rows: seq<Resource>, m: ActiveResource, insert: bool, lockCheck: Option<int> -> bool)
    requires HookDefined(m)
    requires m.lockedAt.Set? && !lockCheck(m.lockedAt.value)
    ensures Hook(rows, m, insert, lockCheck) == Outcome(Err(Db(LockConstraint)), rows)
  {
  }

  /** Inserts and updates follow the same rules. */
  lemma InsertAndUpdateAgree(rows: seq<Resource>, m: ActiveResource, lockCheck: Option<int> -> bool)
    requires HookDefined(m)
    ensures Hook(rows, m, true, lockCheck) == Hook(rows, m, false, lockCheck)
  {
  }

  // ---------------------------------------------------------------------------
  // The invariant a save keeps for a (user, client) pair

  predicate OwnedDefault(r: Resource, u: Option<Uuid>, c: Option<Uuid>) {
    Is(r.userId, u) && Is(r.clientId, c) && r.isDefault == Some(true)
  }

  /** The save names its owner and group outright, and an update does not move
      its row to another group (every caller writes the row's own group key). */
  predicate WellFormedWrite(rows: seq<Resource>, m: ActiveResource, insert: bool) {
    && m.isDefault.Set? && m.isDefault.value.Some?
    && m.userId.Set? && m.userId.value.Some?
    && m.clientId.Set? && m.clientId.value.Some?
    && m.groupKey.Set? && m.name.Set? && m.value.Set?
    && (!insert ==> forall k :: 0 <= k < |rows| && rows[k].id == m.id ==> rows[k].groupKey == m.groupKey.value)
  }

  /** After a successful `true` write, the pair has a default row and every
      default row of the pair is in the written group. */
  lemma TrueSaveLeavesOneDefaultGroup(rows: seq<Resource>, m: ActiveResource, insert: bool, lockCheck: Option<int> -> bool)
    requires WellFormedWrite(rows, m, insert)
    requires m.isDefault.value == Some(true)
    requires SaveSpec(rows, m, insert, lockCheck).result.Ok?
    ensures var out := SaveSpec(rows, m, insert, lockCheck).rows;
      forall k :: 0 <= k < |out| && OwnedDefault(out[k], m.userId.value, m.clientId.value) ==> out[k].groupKey == m.groupKey.value
    ensures var out := SaveSpec(rows, m, insert, lockCheck).rows;
      exists k :: 0 <= k < |out| && OwnedDefault(out[k], m.userId.value, m.clientId.value)
  {
    SaveKeepsADefault(rows, m, insert, lockCheck);
    var u, c, g := m.userId.value, m.clientId.value, m.groupKey.value;
    var d := Demoted(rows, u, c, g);
    var out := SaveSpec(rows, m, insert, lockCheck).rows;
    if insert {
      assert out == d + [Inserted(m)];
      forall k | 0 <= k < |out| && OwnedDefault(out[k], u, c)
        ensures out[k].groupKey == g
      {
        if k < |d| {
          assert out[k] == d[k];
        }
      }
    } else {
      assert out == UpdateById(d, m);
    }
  }

  /** After a successful write that sets `is_default`, the pair still has a default row. */
  lemma SaveKeepsADefault(rows: seq<Resource>, m: ActiveResource, insert: bool, lockCheck: Option<int> -> bool)
    requires WellFormedWrite(rows, m, insert)
    requires SaveSpec(rows, m, insert, lockCheck).result.Ok?
    ensures var out := SaveSpec(rows, m, insert, lockCheck).rows;
      exists k :: 0 <= k < |out| && OwnedDefault(out[k], m.userId.value, m.clientId.value)
  {
    var u, c, g := m.userId.value, m.clientId.value, m.groupKey.value;
    var h := Hook(rows, m, insert, lockCheck);
    var w := h.result.value;
    var out := SaveSpec(rows, m, insert, lockCheck).rows;
    if w.isDefault == Set(Some(true)) {
      // the written row itself is default
      if insert {
        assert out[|out| - 1] == Inserted(w);
        assert OwnedDefault(out[|out| - 1], u, c);
      } else {
        var k :| 0 <= k < |h.rows| && h.rows[k].id == w.id;
        assert out[k] == Overlay(h.rows[k], w);
        assert OwnedDefault(out[k], u, c);
      }
    } else {
      // the write keeps `false` because another group of the pair is default
      assert OtherDefaultExists(rows, u, c, g);
      var j :| 0 <= j < |rows| && OtherDefault(rows[j], u, c, g);
      assert h.rows == rows;
      if insert {
        assert out[j] == rows[j];
      } else {
        assert rows[j].id != m.id;
        assert out[j] == rows[j];
      }
      assert OwnedDefault(out[j], u, c);
    }
  }
}
