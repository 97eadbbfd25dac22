/** The JSON envelope the HTTP layer answers with. */
module Response {
  import opened Errors

  const StatusOK: string := "OK"
  const StatusErr: string := "Error"

  /** Response: a status, an error message (omitted when empty) and a result
      (omitted when absent). */
  datatype Response<T> = Response(status: string, error: string, result: Option<T>)

  /** Error(msg): a failed answer carrying msg and no result. */
  function Error<T>(msg: string): (r: Response<T>)
    ensures r.status == StatusErr && r.error == msg && r.result == None
  {
    Response(StatusErr, msg, None)
  }

  /** OK(result): a successful answer carrying result and no error text. */
  function OK<T>(result: T): (r: Response<T>)
    ensures r.status == StatusOK && r.result == Some(result) && r.error == ""
  {
    Response(StatusOK, "", Some(result))
  }

  /** Every answer either constructor builds has one of the two statuses, and
      the status alone tells which constructor built it. */
  lemma StatusTellsConstructor<T>(msg: string, result: T)
    ensures Error<T>(msg).status in {StatusOK, StatusErr}
    ensures OK(result).status in {StatusOK, StatusErr}
    ensures Error<T>(msg).status != OK(result).status
  {
  }
}
