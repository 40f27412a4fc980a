/** The rows of the identity store and SeaORM's active-model wrapper for the
    resource table (the only table with a before-save hook). */
module Entities {
  import opened Base

  datatype Client = Client(
    id: Uuid,
    realmId: Uuid,
    name: string,
    maxConcurrentSessions: int,    // i32
    useRefreshToken: bool,
    sessionLifetime: int,          // i32, seconds
    refreshTokenReuseLimit: int,   // i32
    lockedAt: Option<int>)

  datatype User = User(
    id: Uuid,
    realmId: Uuid,
    email: string,
    passwordHash: Option<string>,
    firstName: string,
    lastName: Option<string>,
    phone: Option<string>,
    image: Option<string>,
    lockedAt: Option<int>)

  datatype ResourceGroup = ResourceGroup(
    id: Uuid,
    realmId: Uuid,
    clientId: Uuid,
    userId: Uuid,
    name: string,
    lockedAt: Option<int>)

  /** A role/access group of a client; users join it through the user-group table. */
  datatype Group = Group(
    id: Uuid,
    realmId: Uuid,
    clientId: Uuid,
    name: string,
    lockedAt: Option<int>)

  /** A name/value authorization claim. `groupKey` is the owning group's key
      (called `group_id` in some of the service's queries and `group_key` in others). */
  datatype Resource = Resource(
    id: Uuid,
    userId: Option<Uuid>,
    clientId: Option<Uuid>,
    groupKey: Uuid,
    name: string,
    value: string,
    description: Option<string>,
    isDefault: Option<bool>,
    lockedAt: Option<int>)

  /** Request metadata copied into a session row; opaque to the model. */
  datatype SessionInfo = SessionInfo(
    ipAddress: string,
    userAgent: string,
    browser: string,
    browserVersion: string,
    operatingSystem: string,
    deviceType: string,
    countryCode: string)

  datatype Session = Session(
    id: Uuid,
    userId: Uuid,
    clientId: Uuid,
    info: SessionInfo,
    refreshTokenId: Option<Uuid>,
    expires: int)

  datatype RefreshToken = RefreshToken(
    id: Uuid,
    userId: Uuid,
    clientId: Option<Uuid>,
    realmId: Uuid,
    reUsedCount: int,              // i32
    lockedAt: Option<int>)

  /** SeaORM's `ActiveValue`: a column the model writes, one it carries unchanged, or one it leaves out. */
  datatype ActiveValue<T> = Set(value: T) | Unchanged(value: T) | NotSet {
    /** `ActiveValue::unwrap` succeeds for Set and Unchanged. */
    predicate HasValue() {
      !NotSet?
    }
    /** What a write leaves in a column: the Set value, else `d`. */
    function Written(d: T): T {
      if Set? then value else d
    }
  }

  /** `resource::ActiveModel`. The primary key is always given at the service's call sites. */
  datatype ActiveResource = ActiveResource(
    id: Uuid,
    userId: ActiveValue<Option<Uuid>>,
    clientId: ActiveValue<Option<Uuid>>,
    groupKey: ActiveValue<Uuid>,
    name: ActiveValue<string>,
    value: ActiveValue<string>,
    description: ActiveValue<Option<string>>,
    isDefault: ActiveValue<Option<bool>>,
    lockedAt: ActiveValue<Option<int>>)

  /** SQL `column = value` on a nullable column: NULL never compares equal. */
  predicate Is(column: Option<Uuid>, v: Option<Uuid>) {
    v.Some? && column == v
  }

  /** The rows of `rows` that satisfy `p`, in table order. */
  function Filter(rows: seq<Resource>, p: Resource -> bool): (r: seq<Resource>)
    ensures |r| <= |rows|
    ensures forall x :: x in r <==> x in rows && p(x)
  {
    if rows == [] then []
    else if p(rows[0]) then [rows[0]] + Filter(rows[1..], p)
    else Filter(rows[1..], p)
  }

  /** The number of rows that satisfy `p`. */
  function Count(rows: seq<Resource>, p: Resource -> bool): nat {
    if rows == [] then 0 else (if p(rows[0]) then 1 else 0) + Count(rows[1..], p)
  }

  /** A filter keeps exactly the matching rows, so what it drops is the rest. */
  lemma {:induction false} FilterSplits(rows: seq<Resource>, p: Resource -> bool)
    ensures |Filter(rows, p)| == Count(rows, p)
    ensures |Filter(rows, x => !p(x))| == |rows| - Count(rows, p)
  {
    if rows != [] {
      FilterSplits(rows[1..], p);
    }
  }

  /** The first row, in table order, that satisfies `p` (`.filter(..).one()`). */
  function FirstWhere<T>(rows: seq<T>, p: T -> bool): (r: Option<T>)
    ensures r.None? <==> forall k :: 0 <= k < |rows| ==> !p(rows[k])
    ensures r.Some? ==> exists k :: 0 <= k < |rows| && rows[k] == r.value && p(rows[k]) &&
                                    forall j :: 0 <= j < k ==> !p(rows[j])
  {
    if rows == [] then None
    else if p(rows[0]) then Some(rows[0])
    else
      var rest := FirstWhere(rows[1..], p);
      assert forall k :: 1 <= k < |rows| ==> rows[k] == rows[1..][k - 1];
      rest
  }

  /** Filtering with two predicates that agree everywhere gives the same rows. */
  lemma {:induction false} FilterExtensional(rows: seq<Resource>, p: Resource -> bool, q: Resource -> bool)
    requires forall x :: p(x) == q(x)
    ensures Filter(rows, p) == Filter(rows, q)
  {
    if rows != [] {
      FilterExtensional(rows[1..], p, q);
    }
  }

  /** The first row with the given id (`find_by_id(..).one()`). */
  function FindById(rows: seq<Resource>, id: Uuid): (r: Option<Resource>)
    ensures r.Some? <==> exists k :: 0 <= k < |rows| && rows[k].id == id
    ensures r.Some? ==> r.value in rows && r.value.id == id
  {
    if rows == [] then None
    else if rows[0].id == id then Some(rows[0])
    else FindById(rows[1..], id)
  }

  /** The primary key of the resource table. */
  predicate UniqueIds(rows: seq<Resource>) {
    forall i, j :: 0 <= i < j < |rows| ==> rows[i].id != rows[j].id
  }

  function Ids(rows: seq<Resource>): set<Uuid> {
    set r | r in rows :: r.id
  }

  lemma IdsAppend(rows: seq<Resource>, x: Resource)
    ensures Ids(rows + [x]) == Ids(rows) + {x.id}
  {
    assert forall r :: r in rows + [x] <==> r in rows || r == x;
  }
}
