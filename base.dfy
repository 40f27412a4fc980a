/** Values shared by the whole model: identifiers, optional values, results,
    the service's error taxonomy and the integer casts the service performs. */
module Base {

  /** A row identifier (a UUID in the service). Only equality is observable. */
  type Uuid(==, !new)

  datatype Option<+T> = None | Some(value: T) {
    /** `unwrap_or(d)` / `unwrap_or_else(|| d)` */
    function GetOr(d: T): T {
      if Some? then value else d
    }
  }

  datatype AuthenticateError =
    | WrongCredentials
    | Locked
    | InvalidToken
    | MaxConcurrentSessions
    | ActionForbidden
    | NoResource

  /** `Unspecified` stands for `Error::not_found()`, whose variant is not part of this model. */
  datatype NotFoundError = Unspecified | UserNotFound | GroupNotFound | ResourceNotFound | SessionNotFound

  datatype BadRequestError = BadRealmClientCombo | CannotDeleteDefaultProperty

  /** Errors raised by the store itself. `Custom` is a transaction that failed with
      the text of an inner error (`DbErr::Custom(e.to_string())`). */
  datatype DbError =
    | LockConstraint        // check_locked_at_constraint refused a lock timestamp
    | RecordNotUpdated      // an update found no row with the given id
    | Custom(inner: Error)

  datatype Error =
    | Authenticate(auth: AuthenticateError)
    | NotFound(missing: NotFoundError)
    | BadRequest(bad: BadRequestError)
    | CannotPerformOperation(reason: string)
    | PasswordHash          // generate_password_hash failed
    | Db(db: DbError)

  datatype Result<+T> = Ok(value: T) | Err(error: Error)

  const NotFoundAny: Error := NotFound(Unspecified)

  /** A lockable row is active when its `locked_at` is null. */
  predicate Unlocked(lockedAt: Option<int>) {
    lockedAt.None?
  }

  const TWO_TO_64: int := 0x1_0000_0000_0000_0000

  /** The Rust casts `x as u64` / `x as usize` (64-bit target) of a signed
      64-bit or 32-bit value: a negative value wraps around. */
  function AsUnsigned64(x: int): (r: int)
    ensures 0 <= x ==> r == x
    ensures IsI64(x) ==> 0 <= r < TWO_TO_64
    ensures IsI64(x) && x < 0 ==> r >= TWO_TO_64 / 2
  {
    if x >= 0 then x else x + TWO_TO_64
  }

  predicate IsI32(x: int) {
    -0x8000_0000 <= x < 0x8000_0000
  }

  predicate IsI64(x: int) {
    -TWO_TO_64 / 2 <= x < TWO_TO_64 / 2
  }
}
