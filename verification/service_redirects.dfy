/** The read side of the redirect analytics in the service layer: input
    checks and the mapping of storage errors onto the service's sentinels.
    The storage layer is a function from the argument of the one call to
    its reply; time.Parse with the layout "2006-01-02 15:04:05" is the
    predicate isDateTime. */
module ServiceRedirects {
  import opened Errors
  import opened Redirect
  import Storage

  const GetOp: string := "internal.service.redirects.Get"
  const AgrigatedGetOp: string := "internal.service.redirects.AgrigatedGet"

  const EmptyAliasDetail: string := "empty alias"
  const StartDateDetail: string := ": start date, format 2006-01-02 15:04:05"
  const EndDateDetail: string := ": end date, format 2006-01-02 15:04:05"

  /** Redirects: one storage call; storage ErrNotFound becomes ErrNotFound,
      any other failure is ErrStorageInternal wrapping it, and success
      returns the storage's events unchanged. */
  function Redirects(alias: string, storage: string -> Reply<seq<Redirect>>): (t: Traced<seq<Redirect>>)
    ensures t.storageCalls == 1
    ensures Is(storage(alias).err, StorageErrNotFound) ==> t.reply == Reply([], Some(Sentinel(ServiceErrNotFound)))
    ensures !Is(storage(alias).err, StorageErrNotFound) && storage(alias).err.Some? ==>
      t.reply == Reply([], Some(WrapTwo(GetOp, Sentinel(ServiceErrStorageInternal), storage(alias).err.value)))
    ensures storage(alias).err == None ==> t.reply == storage(alias)
  {
    var res := storage(alias);
    if Is(res.err, StorageErrNotFound) then Traced(Reply([], Some(Sentinel(ServiceErrNotFound))), 1)
    else match res.err
      case Some(e) => Traced(Reply([], Some(WrapTwo(GetOp, Sentinel(ServiceErrStorageInternal), e))), 1)
      case None => Traced(res, 1)
  }

  /** AgrigatedRedirects: an empty alias, or a non-empty start or end date
      that does not parse, is ErrNotValidData without calling storage.
      Otherwise storage is called once; its ErrNotFound with a zero total
      becomes ErrNotFound, any other failure ErrStorageInternal; success is
      passed through. Failures carry the zero value. */
  function AgrigatedRedirects(opts: AgrigateOpts, isDateTime: string -> bool,
                              storage: AgrigateOpts -> Reply<Agrigated>): (t: Traced<Agrigated>)
    ensures t.storageCalls == 0 <==>
      opts.alias == "" || (opts.startDate != "" && !isDateTime(opts.startDate)) ||
      (opts.endDate != "" && !isDateTime(opts.endDate))
    ensures t.storageCalls == 0 ==> Is(t.reply.err, ServiceErrNotValidData) && t.reply.value == ZeroAgrigated
    ensures t.storageCalls <= 1
    ensures t.storageCalls == 1 && Is(storage(opts).err, StorageErrNotFound) && storage(opts).value.total == 0 ==>
      t.reply == Reply(ZeroAgrigated, Some(Sentinel(ServiceErrNotFound)))
    ensures t.storageCalls == 1 && storage(opts).err.Some? &&
            !(Is(storage(opts).err, StorageErrNotFound) && storage(opts).value.total == 0)
      ==> t.reply == Reply(ZeroAgrigated, Some(WrapTwo(AgrigatedGetOp, Sentinel(ServiceErrStorageInternal), storage(opts).err.value)))
    ensures t.storageCalls == 1 && storage(opts).err == None ==> t.reply == storage(opts)
  {
    if opts.alias == "" then
      Traced(Reply(ZeroAgrigated, Some(Annotated(Sentinel(ServiceErrNotValidData), EmptyAliasDetail))), 0)
    else if opts.startDate != "" && !isDateTime(opts.startDate) then
      Traced(Reply(ZeroAgrigated, Some(Annotated(Sentinel(ServiceErrNotValidData), StartDateDetail))), 0)
    else if opts.endDate != "" && !isDateTime(opts.endDate) then
      Traced(Reply(ZeroAgrigated, Some(Annotated(Sentinel(ServiceErrNotValidData), EndDateDetail))), 0)
    else
      var res := storage(opts);
      if Is(res.err, StorageErrNotFound) && res.value.total == 0 then
        Traced(Reply(ZeroAgrigated, Some(Sentinel(ServiceErrNotFound))), 1)
      else match res.err
        case Some(e) => Traced(Reply(ZeroAgrigated, Some(WrapTwo(AgrigatedGetOp, Sentinel(ServiceErrStorageInternal), e))), 1)
        case None => Traced(res, 1)
  }

  /** Every failure of Redirects is ErrNotFound or ErrStorageInternal. */
  lemma RedirectsTaxonomy(alias: string, storage: string -> Reply<seq<Redirect>>)
    ensures var r := Redirects(alias, storage).reply;
      r.err == None || IsOneOf(r.err, {ServiceErrNotFound, ServiceErrStorageInternal})
  {
    var r := Redirects(alias, storage).reply;
    if Is(storage(alias).err, StorageErrNotFound) {
      assert Is(r.err, ServiceErrNotFound);
    } else if r.err != None {
      assert Is(r.err, ServiceErrStorageInternal);
    }
  }

  /** Every failure of AgrigatedRedirects is ErrNotValidData, ErrNotFound or
      ErrStorageInternal. */
  lemma AgrigatedTaxonomy(opts: AgrigateOpts, isDateTime: string -> bool, storage: AgrigateOpts -> Reply<Agrigated>)
    ensures var r := AgrigatedRedirects(opts, isDateTime, storage).reply;
      r.err == None || IsOneOf(r.err, {ServiceErrNotValidData, ServiceErrNotFound, ServiceErrStorageInternal})
  {
    var t := AgrigatedRedirects(opts, isDateTime, storage);
    var res := storage(opts);
    if t.storageCalls == 0 {
      assert Is(t.reply.err, ServiceErrNotValidData);
    } else if Is(res.err, StorageErrNotFound) && res.value.total == 0 {
      assert Is(t.reply.err, ServiceErrNotFound);
    } else if t.reply.err != None {
      assert Is(t.reply.err, ServiceErrStorageInternal);
    }
  }

  /** Through the storage layer: the store's sql.ErrNoRows reaches the caller
      as ErrNotFound, and any other store failure as ErrStorageInternal. */
  lemma RedirectsThroughStorage(alias: string, db: string -> Reply<seq<Redirect>>)
    requires !Is(db(alias).err, StorageErrNotFound)
    ensures var r := Redirects(alias, a => Storage.RedirectsResult(db(a))).reply;
      && (Is(db(alias).err, SqlErrNoRows) ==> r.err == Some(Sentinel(ServiceErrNotFound)))
      && (!Is(db(alias).err, SqlErrNoRows) && db(alias).err.Some? ==> Is(r.err, ServiceErrStorageInternal) && r.value == [])
      && (db(alias).err == None ==> r == db(alias))
  {
    var s := Storage.RedirectsResult(db(alias));
    if !Is(db(alias).err, SqlErrNoRows) && db(alias).err.Some? {
      assert s.err == Some(Wrap(Storage.GetRedirectsOp, db(alias).err.value));
      assert !Is(s.err, StorageErrNotFound);
    }
  }

  /** Through the storage layer: a valid query whose store read succeeds with
      a zero total is reported as ErrNotFound, not as an empty page. */
  lemma EmptyAnalyticsIsNotFound(opts: AgrigateOpts, isDateTime: string -> bool, db: AgrigateOpts -> Reply<Agrigated>)
    requires opts.alias != ""
    requires opts.startDate == "" || isDateTime(opts.startDate)
    requires opts.endDate == "" || isDateTime(opts.endDate)
    requires db(opts).value.total == 0
    ensures AgrigatedRedirects(opts, isDateTime, o => Storage.AgrigatedResult(db(o))).reply ==
      Reply(ZeroAgrigated, Some(Sentinel(ServiceErrNotFound)))
  {
  }
}
