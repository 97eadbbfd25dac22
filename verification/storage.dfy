/** The storage layer: a cache in front of the Postgres store. The cache
    (Redis) and the urls table are maps; the failures either may report are
    fault parameters (Some(e) makes that call fail with e). Every call the
    layer makes to either collaborator is recorded in a ghost trace. */
module Storage {
  import opened Errors
  import opened Url
  import opened Redirect
  import opened Postgres

  const CreateURLOp: string := "internal.storage.createURL"
  const GetURLOp: string := "internal.storage.GetURL"
  const GetRedirectsOp: string := "internal.storage.GetRedirects"
  const AgrigatedRedirectsOp: string := "internal.storage.AgrigatedRedirects"

  /** The operation names the Postgres store wraps its errors with. */
  const PgCreateOp: string := "internal.storage.postgres.url.Create"
  const PgGetOp: string := "internal.storage.postgres.url.Get"

  /** The text Postgres reports a duplicate primary key with. */
  const DuplicateKeyMessage: string := "duplicate key value violates unique constraint"

  /** A call to one of the two collaborators. */
  datatype Call =
    | CacheURL(alias: string)
    | CacheAddURL(alias: string, original: string)
    | CacheShutdown
    | DbCreateURL(u: Url)
    | DbURL(alias: string)
    | DbCreateRedirects(batch: seq<Redirect>)
    | DbShutdown

  // ---------------------------------------------------------------------
  // The collaborators

  /** The store's CreateURL: an injected fault fails the insert; an alias
      already present fails it with the driver's unique violation; otherwise
      the row is added and its alias returned. Errors come wrapped. */
  function DbInsert(urls: map<string, string>, u: Url, fault: Error): (Reply<string>, map<string, string>) {
    match fault
    case Some(e) => (Reply("", Some(Wrap(PgCreateOp, e))), urls)
    case None =>
      if u.alias in urls then
        (Reply("", Some(Wrap(PgCreateOp, Pq(PqError(UniqueViolationCode, DuplicateKeyMessage))))), urls)
      else (Reply(u.alias, None), urls[u.alias := u.original])
  }

  /** The store's URL: a missing row is sql.ErrNoRows, wrapped. */
  function DbLookup(urls: map<string, string>, alias: string, fault: Error): Reply<string> {
    match fault
    case Some(e) => Reply("", Some(Wrap(PgGetOp, e)))
    case None =>
      if alias in urls then Reply(urls[alias], None)
      else Reply("", Some(Wrap(PgGetOp, Sentinel(SqlErrNoRows))))
  }

  /** The cache's URL: a missing key (redis.Nil) is an empty value and no error. */
  function CacheLookup(cache: map<string, string>, alias: string, fault: Error): Reply<string> {
    match fault
    case Some(e) => Reply("", Some(e))
    case None => if alias in cache then Reply(cache[alias], None) else Reply("", None)
  }

  // ---------------------------------------------------------------------
  // Error translation

  /** Storage.CreateURL's translation of the store's reply: a reply that
      HandleError calls a uniqueness conflict becomes ("", ErrNotUnique), any
      other failure ("", the store's error wrapped), and success passes the
      store's alias through. (HandleError returns nil only for nil, so the
      source's third branch adds nothing.) */
  function CreateURLResult(db: Reply<string>): (r: Reply<string>)
    ensures Is(HandleError(db.err), PostgresErrNotUnique) ==> r == Reply("", Some(Sentinel(StorageErrNotUnique)))
    ensures db.err.Some? && !Is(HandleError(db.err), PostgresErrNotUnique) ==>
      r == Reply("", Some(Wrap(CreateURLOp, db.err.value)))
    ensures db.err == None ==> r == db
  {
    if Is(HandleError(db.err), PostgresErrNotUnique) then Reply("", Some(Sentinel(StorageErrNotUnique)))
    else match db.err
      case Some(e) => Reply("", Some(Wrap(CreateURLOp, e)))
      case None => Reply(db.value, None)
  }

  /** The result is storage's ErrNotUnique exactly when the store's error is
      a uniqueness conflict by HandleError's rules (an error from the store
      never carries storage's own sentinel). */
  lemma CreateURLNotUniqueIff(db: Reply<string>)
    requires !Is(db.err, StorageErrNotUnique)
    ensures Is(CreateURLResult(db).err, StorageErrNotUnique) <==> Is(HandleError(db.err), PostgresErrNotUnique)
  {
  }

  /** Storage.Redirects' translation: sql.ErrNoRows becomes ErrNotFound, any
      other failure is wrapped, and in both cases the store's rows are
      passed along; success is passed through. */
  function RedirectsResult(db: Reply<seq<Redirect>>): (r: Reply<seq<Redirect>>)
    ensures r.value == db.value
    ensures Is(db.err, SqlErrNoRows) ==> r.err == Some(Sentinel(StorageErrNotFound))
    ensures !Is(db.err, SqlErrNoRows) && db.err.Some? ==> r.err == Some(Wrap(GetRedirectsOp, db.err.value))
    ensures db.err == None ==> r == db
  {
    if Is(db.err, SqlErrNoRows) then Reply(db.value, Some(Sentinel(StorageErrNotFound)))
    else match db.err
      case Some(e) => Reply(db.value, Some(Wrap(GetRedirectsOp, e)))
      case None => db
  }

  /** Storage.AgrigatedRedirects' translation: sql.ErrNoRows or a zero total
      is ErrNotFound with the zero value, whatever other error is present; any
      other failure is wrapped; success is passed through. */
  function AgrigatedResult(db: Reply<Agrigated>): (r: Reply<Agrigated>)
    ensures Is(db.err, SqlErrNoRows) || db.value.total == 0 ==>
      r == Reply(ZeroAgrigated, Some(Sentinel(StorageErrNotFound)))
    ensures !Is(db.err, SqlErrNoRows) && db.value.total != 0 && db.err.Some? ==>
      r == Reply(ZeroAgrigated, Some(Wrap(AgrigatedRedirectsOp, db.err.value)))
    ensures db.err == None && db.value.total != 0 ==> r == db
  {
    if Is(db.err, SqlErrNoRows) || db.value.total == 0 then Reply(ZeroAgrigated, Some(Sentinel(StorageErrNotFound)))
    else match db.err
      case Some(e) => Reply(ZeroAgrigated, Some(Wrap(AgrigatedRedirectsOp, e)))
      case None => db
  }

  /** A successful read is never an error unless its total is zero, and the
      value of every failure is the zero value. */
  lemma AgrigatedResultShape(db: Reply<Agrigated>)
    ensures AgrigatedResult(db).err == None <==> db.err == None && db.value.total != 0
    ensures AgrigatedResult(db).err != None ==> AgrigatedResult(db).value == ZeroAgrigated
  {
  }

  // ---------------------------------------------------------------------
  // Specification of the two storage operations on maps

  /** CreateURL as a whole: the insert, then the translation. */
  function Create(urls: map<string, string>, u: Url, fault: Error): (Reply<string>, map<string, string>) {
    var (db, urls') := DbInsert(urls, u, fault);
    (CreateURLResult(db), urls')
  }

  /** The outcome of one resolution: the reply, the cache afterwards and the
      collaborator calls made, in order. */
  datatype Resolution = Resolution(reply: Reply<string>, cache: map<string, string>, calls: seq<Call>)

  /** URL, cache-aside: read the cache; a cache error is returned (wrapped)
      and a non-empty hit returned as it is, neither consulting the store;
      otherwise read the store, map sql.ErrNoRows to ErrNotFound and wrap any
      other error; on a hit put the value in the cache, whose failure is not
      reported, and return the value. */
  function Resolve(cache: map<string, string>, urls: map<string, string>, alias: string,
                   cacheFault: Error, dbFault: Error, addFault: Error): Resolution
  {
    var c := CacheLookup(cache, alias, cacheFault);
    match c.err
    case Some(e) => Resolution(Reply(c.value, Some(Wrap(GetURLOp, e))), cache, [CacheURL(alias)])
    case None =>
      if c.value != "" then Resolution(Reply(c.value, None), cache, [CacheURL(alias)])
      else
        var d := DbLookup(urls, alias, dbFault);
        if Is(d.err, SqlErrNoRows) then
          Resolution(Reply(d.value, Some(Sentinel(StorageErrNotFound))), cache, [CacheURL(alias), DbURL(alias)])
        else match d.err
          case Some(e) =>
            Resolution(Reply(d.value, Some(Wrap(GetURLOp, e))), cache, [CacheURL(alias), DbURL(alias)])
          case None =>
            var cache' := if addFault == None then cache[alias := d.value] else cache;
            Resolution(Reply(d.value, None), cache', [CacheURL(alias), DbURL(alias), CacheAddURL(alias, d.value)])
  }

  // ---------------------------------------------------------------------
  // The storage object

  class Storage {
    /** The cache's contents. */
    var cache: map<string, string>
    /** The urls table: alias to original. */
    var urls: map<string, string>
    /** The collaborator calls made so far, in order. */
    ghost var calls: seq<Call>

    constructor New(cache0: map<string, string>, urls0: map<string, string>)
      ensures cache == cache0 && urls == urls0 && calls == []
    {
      cache, urls := cache0, urls0;
      calls := [];
    }

    /** CreateURL: one insert into the store, its reply translated. */
    method CreateURL(u: Url, fault: Error) returns (alias: string, err: Error)
      modifies this`urls, this`calls
      ensures (Reply(alias, err), urls) == Create(old(urls), u, fault)
      ensures calls == old(calls) + [DbCreateURL(u)]
    {
      var reply, urls' := DbInsertCall(u, fault);
      var dbErr := HandleError(reply.err);
      if Is(dbErr, PostgresErrNotUnique) {
        return "", Some(Sentinel(StorageErrNotUnique));
      }
      match reply.err {
        case Some(e) => return "", Some(Wrap(CreateURLOp, e));
        case None => return reply.value, None;
      }
    }

    /** The store's insert: one call, the urls table updated on success. */
    method DbInsertCall(u: Url, fault: Error) returns (reply: Reply<string>, urls': map<string, string>)
      modifies this`urls, this`calls
      ensures (reply, urls') == DbInsert(old(urls), u, fault) && urls == urls'
      ensures calls == old(calls) + [DbCreateURL(u)]
    {
      reply, urls' := DbInsert(urls, u, fault).0, DbInsert(urls, u, fault).1;
      urls := urls';
      calls := calls + [DbCreateURL(u)];
    }

    /** URL: the cache-aside read; the store is only read, the cache is
        updated only by a successful AddURL. */
    method URL(alias: string, cacheFault: Error, dbFault: Error, addFault: Error) returns (original: string, err: Error)
      modifies this`cache, this`calls
      ensures var res := Resolve(old(cache), urls, alias, cacheFault, dbFault, addFault);
        Reply(original, err) == res.reply && cache == res.cache && calls == old(calls) + res.calls
    {
      var c := CacheLookup(cache, alias, cacheFault);
      calls := calls + [CacheURL(alias)];
      original := c.value;
      if c.err.Some? {
        return original, Some(Wrap(GetURLOp, c.err.value));
      }
      if original != "" {
        return original, None;
      }
      var d := DbLookup(urls, alias, dbFault);
      calls := calls + [DbURL(alias)];
      original := d.value;
      if Is(d.err, SqlErrNoRows) {
        return original, Some(Sentinel(StorageErrNotFound));
      } else if d.err.Some? {
        return original, Some(Wrap(GetURLOp, d.err.value));
      }
      calls := calls + [CacheAddURL(alias, original)];
      if addFault == None {
        cache := cache[alias := original];
      }
      return original, None;
    }

    /** CreateRedirects: the batch goes to the store unchanged. */
    method CreateRedirects(batch: seq<Redirect>)
      modifies this`calls
      ensures calls == old(calls) + [DbCreateRedirects(batch)]
    {
      calls := calls + [DbCreateRedirects(batch)];
    }

    /** Shutdown: the cache is shut down before the store. */
    method Shutdown()
      modifies this`calls
      ensures calls == old(calls) + [CacheShutdown, DbShutdown]
    {
      calls := calls + [CacheShutdown, DbShutdown];
    }
  }

  // ---------------------------------------------------------------------
  // Properties

  /** A cache read error is returned as an error and the store is not read. */
  lemma ResolveCacheError(cache: map<string, string>, urls: map<string, string>, alias: string,
                          e: Err, dbFault: Error, addFault: Error)
    ensures var res := Resolve(cache, urls, alias, Some(e), dbFault, addFault);
      res.reply == Reply("", Some(Wrap(GetURLOp, e))) && res.calls == [CacheURL(alias)] && res.cache == cache
  {
  }

  /** A non-empty cache hit is returned as it is and the store is not read. */
  lemma ResolveCacheHit(cache: map<string, string>, urls: map<string, string>, alias: string,
                        dbFault: Error, addFault: Error)
    requires alias in cache && cache[alias] != ""
    ensures var res := Resolve(cache, urls, alias, None, dbFault, addFault);
      res.reply == Reply(cache[alias], None) && res.calls == [CacheURL(alias)] && res.cache == cache
  {
  }

  /** On a miss, a store without the alias gives ErrNotFound, and a store
      fault gives that fault wrapped (ErrNotFound only if it is ErrNoRows);
      the cache is untouched. */
  lemma ResolveMiss(cache: map<string, string>, urls: map<string, string>, alias: string,
                    dbFault: Error, addFault: Error)
    requires alias !in cache || cache[alias] == ""
    ensures var res := Resolve(cache, urls, alias, None, dbFault, addFault);
      && (dbFault == None && alias !in urls ==>
            res.reply == Reply("", Some(Sentinel(StorageErrNotFound))))
      && (dbFault.Some? && !Is(dbFault, SqlErrNoRows) ==>
            res.reply == Reply("", Some(Wrap(GetURLOp, Wrap(PgGetOp, dbFault.value)))))
      && (dbFault.Some? || alias !in urls ==>
            res.calls == [CacheURL(alias), DbURL(alias)] && res.cache == cache)
  {
  }

  /** On a miss and a store hit the value is returned with no error, AddURL
      is called once, and the cache holds the alias afterwards exactly when
      AddURL succeeded. */
  lemma ResolveRepopulates(cache: map<string, string>, urls: map<string, string>, alias: string,
                           addFault: Error)
    requires alias !in cache || cache[alias] == ""
    requires alias in urls
    ensures var res := Resolve(cache, urls, alias, None, None, addFault);
      && res.reply == Reply(urls[alias], None)
      && res.calls == [CacheURL(alias), DbURL(alias), CacheAddURL(alias, urls[alias])]
      && (addFault == None ==> res.cache == cache[alias := urls[alias]])
      && (addFault != None ==> res.cache == cache)
  {
  }

  /** After a miss answered by the store and a successful AddURL, resolving
      the same alias again is served by the cache alone, with the same
      answer. */
  lemma ResolveTwice(cache: map<string, string>, urls: map<string, string>, alias: string,
                     dbFault2: Error, addFault2: Error)
    requires alias !in cache || cache[alias] == ""
    requires alias in urls && urls[alias] != ""
    ensures var first := Resolve(cache, urls, alias, None, None, None);
      var second := Resolve(first.cache, urls, alias, None, dbFault2, addFault2);
      second.reply == first.reply && second.calls == [CacheURL(alias)] && second.cache == first.cache
  {
    ResolveRepopulates(cache, urls, alias, None);
    ResolveCacheHit(cache[alias := urls[alias]], urls, alias, dbFault2, addFault2);
  }

  /** A fresh alias is stored and its alias returned; an alias already
      present gives ("", ErrNotUnique) and leaves the table as it was. */
  lemma CreateFreshOrDuplicate(urls: map<string, string>, u: Url)
    ensures u.alias !in urls ==> Create(urls, u, None) == (Reply(u.alias, None), urls[u.alias := u.original])
    ensures u.alias in urls ==> Create(urls, u, None) == (Reply("", Some(Sentinel(StorageErrNotUnique))), urls)
  {
    DuplicateKeyIsNotUnique(PgCreateOp, DuplicateKeyMessage);
  }

  /** Creating a link and then resolving its alias returns the original,
      read from the store since the cache does not hold it yet. */
  lemma CreateThenResolve(cache: map<string, string>, urls: map<string, string>, u: Url, addFault: Error)
    requires u.alias !in urls && u.alias !in cache
    ensures var (r, urls') := Create(urls, u, None);
      r == Reply(u.alias, None) &&
      Resolve(cache, urls', u.alias, None, None, addFault).reply == Reply(u.original, None)
  {
    CreateFreshOrDuplicate(urls, u);
  }
}
