/** The classification of driver errors done by the Postgres store. */
module Postgres {
  import opened Errors
  import opened Text

  /** SQLSTATE unique_violation. */
  const UniqueViolationCode: string := "23505"
  const UniqueConstraintText: string := "unique constraint"

  /** A pq error HandleError reports as a uniqueness conflict. */
  predicate IsUniqueViolation(p: PqError) {
    p.code == UniqueViolationCode || Contains(p.message, UniqueConstraintText)
  }

  const NotUnique: Error := Some(Sentinel(PostgresErrNotUnique))

  /** HandleError: a *pq.Error anywhere in the chain that is a unique
      violation becomes ErrNotUnique; every other error, nil included, is
      returned unchanged. */
  function HandleError(err: Error): (r: Error)
    ensures AsPq(err).Some? && IsUniqueViolation(AsPq(err).value) ==> r == NotUnique
    ensures !(AsPq(err).Some? && IsUniqueViolation(AsPq(err).value)) ==> r == err
  {
    match AsPq(err)
    case Some(pgErr) =>
      if pgErr.code == UniqueViolationCode then NotUnique
      else if Contains(pgErr.message, UniqueConstraintText) then NotUnique
      else err
    case None => err
  }

  /** HandleError keeps nil apart from failures: it returns nil exactly for nil. */
  lemma HandleErrorNil(err: Error)
    ensures HandleError(err) == None <==> err == None
  {
  }

  /** Classifying twice is classifying once. */
  lemma HandleErrorIdempotent(err: Error)
    ensures HandleError(HandleError(err)) == HandleError(err)
  {
  }

  /** The result is ErrNotUnique exactly when the error carries a unique
      violation, stated against the reference definition of substring. */
  lemma {:induction false} HandleErrorNotUniqueIff(err: Error)
    ensures Is(HandleError(err), PostgresErrNotUnique) <==>
      Is(err, PostgresErrNotUnique) ||
      (AsPq(err).Some? &&
       (AsPq(err).value.code == UniqueViolationCode ||
        exists k :: OccursAt(AsPq(err).value.message, UniqueConstraintText, k)))
  {
    if AsPq(err).Some? {
      ContainsIff(AsPq(err).value.message, UniqueConstraintText);
    }
  }

  /** The error a duplicate insert yields, as the driver reports it and the
      store wraps it. */
  lemma DuplicateKeyIsNotUnique(op: string, message: string)
    ensures HandleError(Some(Wrap(op, Pq(PqError(UniqueViolationCode, message))))) == NotUnique
  {
    assert ChainAsPq(Pq(PqError(UniqueViolationCode, message))) == Some(PqError(UniqueViolationCode, message));
  }
}
