/** Go's error values as the core uses them: sentinel values compared with
    errors.Is, *pq.Error values found with errors.As, and the wrapping done
    by fmt.Errorf with %w. A nil error is None. */
module Errors {

  datatype Option<+T> = None | Some(value: T)

  /** The sentinel error variables the core declares or compares against. */
  datatype Sentinel =
    | SqlErrNoRows               // database/sql.ErrNoRows
    | PostgresErrNotUnique       // postgres.ErrNotUnique
    | StorageErrNotUnique        // storage.ErrNotUnique
    | StorageErrNotFound         // storage.ErrNotFound
    | ServiceErrNotUnique        // service.ErrNotUnique
    | ServiceErrStorageInternal  // service.ErrStorageInternal
    | ServiceErrNotFound         // service.ErrNotFound
    | ServiceErrNotValidData     // service.ErrNotValidData

  /** The fields of a *pq.Error that HandleError inspects. */
  datatype PqError = PqError(code: string, message: string)

  datatype Err =
    | Sentinel(sentinel: Sentinel)
    | Pq(pq: PqError)
      /** any other error: a driver, network or cache failure */
    | Opaque(text: string)
      /** fmt.Errorf("%s: %w", op, inner) */
    | Wrap(op: string, inner: Err)
      /** fmt.Errorf("%s: %w(%w)", op, first, second) */
    | WrapTwo(op: string, first: Err, second: Err)
      /** fmt.Errorf("%w: %s", base, detail) */
    | Annotated(base: Err, detail: string)

  /** Go's `error`: None is nil. */
  type Error = Option<Err>

  /** A Go (value, error) result pair. */
  datatype Reply<T> = Reply(value: T, err: Error)

  /** A reply together with the number of calls made to the collaborator
      (the storage layer) while computing it. */
  datatype Traced<T> = Traced(reply: Reply<T>, storageCalls: nat)

  /** errors.Is on a non-nil error: the error itself or anything it wraps,
      searched in the order errors.Is walks the tree. */
  predicate ChainIs(e: Err, target: Sentinel) {
    match e
    case Sentinel(s) => s == target
    case Pq(_) => false
    case Opaque(_) => false
    case Wrap(_, inner) => ChainIs(inner, target)
    case WrapTwo(_, first, second) => ChainIs(first, target) || ChainIs(second, target)
    case Annotated(base, _) => ChainIs(base, target)
  }

  /** errors.Is(err, target); errors.Is(nil, target) is false for a non-nil target. */
  predicate Is(err: Error, target: Sentinel) {
    match err
    case None => false
    case Some(e) => ChainIs(e, target)
  }

  /** The error's chain carries one of the given sentinels. */
  predicate IsOneOf(err: Error, allowed: set<Sentinel>) {
    exists s :: s in allowed && Is(err, s)
  }

  /** errors.As(err, &pgErr) for a non-nil error: the first *pq.Error met in
      the depth-first walk of the wrap tree. */
  function ChainAsPq(e: Err): Option<PqError> {
    match e
    case Sentinel(_) => None
    case Pq(p) => Some(p)
    case Opaque(_) => None
    case Wrap(_, inner) => ChainAsPq(inner)
    case WrapTwo(_, first, second) =>
      if ChainAsPq(first).Some? then ChainAsPq(first) else ChainAsPq(second)
    case Annotated(base, _) => ChainAsPq(base)
  }

  function AsPq(err: Error): Option<PqError> {
    match err
    case None => None
    case Some(e) => ChainAsPq(e)
  }
}
