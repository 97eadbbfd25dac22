# URL shortener core, modelled in Dafny

A model of the in-process logic of a Go URL shortener: the service layer
that validates new links, allocates aliases (generated or chosen by the
caller) with bounded retries, resolves aliases and serves redirect
analytics; the redirect-event batcher that buffers events and hands them to
the store in batches of 250; the storage layer with its cache-aside read
and its translation of database errors; the Postgres store's
unique-violation classification and its two SQL builders; and the request
and response entities used at the HTTP boundary.

Modules, one per source file or entity:

- `Errors` — Go errors as a datatype: sentinels, `*pq.Error`, opaque
  failures and the three `fmt.Errorf` wrapping shapes. `Is` models
  `errors.Is` and `AsPq` models `errors.As`. A nil error is `None`.
- `Redirect`, `Url` — the records and `PageSize`.
- `Alias` — `generateAlias`. The process-wide PCG generator is an oracle
  `raws` read at an explicit position.
- `Service` — the batcher as a class over a fixed `array`. Ghost logs
  record the events recorded, the full batches handed off and the
  shutdown flushes.
- `ServiceUrls`, `ServiceRedirects` — `CreateURL`, `URL`, `Redirects` and
  `AgrigatedRedirects`. The storage collaborator is a function parameter,
  and the results count the storage calls made.
- `Storage` — the storage layer as a class with the cache and the urls
  table as map fields. A ghost trace records every collaborator call.
  `Resolve` and `Create` are the same operations as functions on maps.
- `Postgres`, `PostgresRedirects`, `Text` — `HandleError`, the batch
  insert and aggregated-query builders, and the decimal rendering of `%d`.
- `Request`, `Response` — `NewShort.Validate` and the `Error`/`OK`
  constructors.

Where the code and the documented design disagree, the model follows the code:

- When all ten calls of `CreateURL` conflict on generated aliases, the
  result is a nil error with the alias of the last reply. Through the
  storage layer that alias is the empty string. No "allocation exhausted"
  error is reported.
- A cache read error in `Storage.URL` is returned as an error; it is not
  treated as a miss.
- The first retry after a conflict draws an alias of length `AliasLen + 0`
  (6), the same length as the first alias. Retry `k` (from 1) draws
  `AliasLen + k - 1` characters.
- A full batch hands off the live buffer (`s.rs.redirects`), not the copy
  `tmp` made just before. The model records the buffer contents at the
  moment of the hand-off, as if the flush ran before later writes.
- The batch insert of an empty batch cuts the last two characters of the
  prefix, turning `values` into `valu`. No caller passes an empty batch.

## Model

| member | source | states |
|---|---|---|
| Alias.IntN | shortener/internal/service/utils.go:25 | every drawn index lies in [0, n), so in [0, 36) for the alphabet |
| Alias.AliasFromAt | shortener/internal/service/utils.go:16-27 | the alias of length l has length l and its k-th character is the one picked by draw pos+k (length 0 gives the empty string) |
| Alias.AliasFromInAlphabet | shortener/internal/service/utils.go:23-26 | every character of a generated alias belongs to the alphabet |
| Alias.GenerateAlias | shortener/internal/service/utils.go:16-28 | the builder loop returns exactly l characters, character k picked by draw pos+k, and leaves the generator l draws further on |
| Service.Service.New | shortener/internal/service/redirects.go:18-24 | a buffer of RedirectsBatchSize (250) zero events, index 0, nothing recorded or handed off |
| Service.Service.CreateRedirect | shortener/internal/service/redirects.go:26-41 | the event goes to slot i and every other slot is unchanged; below the last slot i moves on and nothing is handed off; at slot 249 the whole buffer is handed off exactly once and i returns to 0; the batcher invariant (250 slots, 0 <= i < 250, handed-off batches followed by the pending prefix are the recorded events) is kept |
| Service.Service.Shutdown | shortener/internal/service/service.go:47-51 | with i = 0 nothing is handed off; otherwise exactly redirects[0..i) in slot order, between 1 and 249 events; neither i nor the buffer changes; afterwards every recorded event has been handed off |
| Service.BatchesAreSlices | shortener/internal/service/redirects.go:30-40 | the hand-offs are the recorded events cut into consecutive slices of 250 in recording order, their number is the count divided by 250, and the pending events are the remainder |
| Service.ConcatLayout | shortener/internal/service/redirects.go:36-40 | full batches laid end to end put batch k at positions [250k, 250(k+1)) |
| Service.OneFullBatch | shortener/internal/service/redirects.go:30-40 | 250 events from New give one hand-off with exactly those events and nothing pending; 251 leave exactly the last event pending (i = 1) |
| ServiceUrls.CreateURL | shortener/internal/service/urls.go:15-50 | the method computes exactly the outcome of the specification CreateURLSpec, about which the lemmas below state the validation, retry and error rules |
| ServiceUrls.Allocate | shortener/internal/service/urls.go:34-49 | the for loop of CreateURL, with the alias regenerated at length AliasLen + i on each generated-alias conflict, computes the recursive specification Run over the links and replies |
| ServiceUrls.LinksShape | shortener/internal/service/urls.go:28-38 | every call carries the caller's original; a caller alias is sent unchanged; the first generated alias is the first AliasLen draws and the k-th has GeneratedLen(k) alphabet characters |
| ServiceUrls.RunCalls | shortener/internal/service/urls.go:35-47 | the loop makes between one and the remaining number of calls, on the next links in order, and a caller alias is tried exactly once |
| ServiceUrls.RunOutcome | shortener/internal/service/urls.go:36-49 | the outcome is read off the last reply: its alias is returned; a generated-alias conflict is last only when all calls are used, giving a nil error; a caller-alias conflict is ErrNotUnique; any other failure is ErrStorageInternal wrapping it; success is nil |
| ServiceUrls.RunRetried | shortener/internal/service/urls.go:37-39 | the loop moves on from a call only after a conflict on a generated alias |
| ServiceUrls.CreateURLValidation | shortener/internal/service/urls.go:20-26 | no storage call happens exactly when the link is empty or fails to parse with a scheme and a host, and then the result is ErrNotValidData with an empty alias; a valid link makes at most 10 calls, each with the caller's original |
| ServiceUrls.CreateURLCallerAlias | shortener/internal/service/urls.go:40-41 | a caller alias makes exactly one call with the link as given; the result is ErrNotUnique exactly when that call conflicts and nil exactly when it succeeds; the alias returned is the call's |
| ServiceUrls.CreateURLGenerated | shortener/internal/service/urls.go:28-39 | without a caller alias the first call carries the first 6 draws and call k an alias of GeneratedLen(k) alphabet characters (6, 6, 7, 8, ...) |
| ServiceUrls.CreateURLRetriesOnConflict | shortener/internal/service/urls.go:35-39 | every call except the last conflicted, and only generated aliases are retried |
| ServiceUrls.CreateURLLastReply | shortener/internal/service/urls.go:36-49 | the alias returned is the last reply's; a success of the last call is a nil error; a failure other than a conflict is ErrStorageInternal wrapping it, with no retry; a conflict on a generated alias is the last reply only after 10 calls, and the result is then a nil error |
| ServiceUrls.CreateURLExhausted | shortener/internal/service/urls.go:35-49 | when the urler reports a conflict on each of the ten generated links it is sent, exactly 10 calls are made and the result is a nil error with the last reply's alias |
| ServiceUrls.CreateURLTaxonomy | shortener/internal/service/urls.go:15-50 | every failure of CreateURL is ErrNotValidData, ErrNotUnique or ErrStorageInternal |
| ServiceUrls.URL | shortener/internal/service/urls.go:52-69 | an empty alias is ErrNotValidData with no storage call; otherwise one call whose value is returned; storage ErrNotFound becomes ErrNotFound, any other failure ErrStorageInternal wrapping it, and success is passed through |
| ServiceUrls.URLTaxonomy | shortener/internal/service/urls.go:55-68 | every failure of URL is ErrNotValidData, ErrNotFound or ErrStorageInternal |
| ServiceUrls.CreateThroughStorage | shortener/internal/storage/storage.go:48-61 | over the storage layer, a fresh caller alias is stored and returned with a nil error, and a taken one gives ErrNotUnique with an empty alias |
| ServiceUrls.ExhaustedThroughStorage | shortener/internal/service/urls.go:35-49 | over the storage layer with the ten aliases it tries already taken, CreateURL reports success with an empty alias |
| ServiceUrls.CreateThenURL | shortener/internal/storage/storage.go:63-87 | a link created under a fresh caller alias is then resolved by URL, through the cache-aside read, to its original with a nil error |
| ServiceRedirects.Redirects | shortener/internal/service/redirects.go:43-56 | one storage call; storage ErrNotFound becomes ErrNotFound with no rows, any other failure ErrStorageInternal wrapping it with no rows, and success returns the storage result unchanged |
| ServiceRedirects.AgrigatedRedirects | shortener/internal/service/redirects.go:58-95 | storage is skipped exactly when the alias is empty or a non-empty start or end date fails to parse, and then the result is ErrNotValidData with the zero value; storage ErrNotFound with a zero total is ErrNotFound; any other storage failure is ErrStorageInternal wrapping it, with the zero value; success is passed through |
| ServiceRedirects.RedirectsTaxonomy | shortener/internal/service/redirects.go:46-55 | every failure of Redirects is ErrNotFound or ErrStorageInternal |
| ServiceRedirects.AgrigatedTaxonomy | shortener/internal/service/redirects.go:61-94 | every failure of AgrigatedRedirects is ErrNotValidData, ErrNotFound or ErrStorageInternal |
| ServiceRedirects.RedirectsThroughStorage | shortener/internal/storage/storage.go:93-104 | through the storage layer, the store's sql.ErrNoRows reaches the caller as ErrNotFound, any other store failure as ErrStorageInternal, and success unchanged |
| ServiceRedirects.EmptyAnalyticsIsNotFound | shortener/internal/storage/storage.go:106-117 | through the storage layer, a valid query whose store result has a zero total is ErrNotFound, even when the read succeeded |
| Storage.CreateURLResult | shortener/internal/storage/storage.go:48-61 | a reply that HandleError calls a uniqueness conflict becomes ("", ErrNotUnique); any other failure ("", the store's error wrapped); success passes the store's alias through |
| Storage.CreateURLNotUniqueIff | shortener/internal/storage/storage.go:50-53 | the result is ErrNotUnique exactly when HandleError classifies the store's error as a uniqueness conflict |
| Storage.RedirectsResult | shortener/internal/storage/storage.go:93-104 | sql.ErrNoRows becomes ErrNotFound, any other failure is wrapped, and the rows are passed along in every case |
| Storage.AgrigatedResult | shortener/internal/storage/storage.go:106-117 | sql.ErrNoRows or a zero total gives ErrNotFound with the zero value, whatever other error is present; another failure is wrapped with the zero value; success is passed through |
| Storage.AgrigatedResultShape | shortener/internal/storage/storage.go:110-116 | the result is nil exactly when the read succeeded with a non-zero total, and every failure carries the zero value |
| Storage.Storage.New | shortener/internal/storage/storage.go:41-46 | the layer starts with the given cache and table and no calls made |
| Storage.Storage.CreateURL | shortener/internal/storage/storage.go:48-61 | one insert call to the store, with the reply and the new table those of Create |
| Storage.Storage.DbInsertCall | shortener/internal/storage/storage.go:50 | the store's insert is called once and the table is updated as the store does |
| Storage.Storage.URL | shortener/internal/storage/storage.go:63-87 | the method's reply, its cache update and the calls it makes are those of Resolve, and the table is only read |
| Storage.Storage.CreateRedirects | shortener/internal/storage/storage.go:89-91 | the batch goes to the store unchanged, in one call |
| Storage.Storage.Shutdown | shortener/internal/storage/storage.go:119-122 | the cache is shut down before the store |
| Storage.ResolveCacheError | shortener/internal/storage/storage.go:66-69 | a cache read error is returned wrapped, the store is not consulted and the cache is unchanged |
| Storage.ResolveCacheHit | shortener/internal/storage/storage.go:70-72 | a non-empty cache hit is returned with a nil error and only the cache is read |
| Storage.ResolveMiss | shortener/internal/storage/storage.go:74-79 | on a miss, a missing row gives ErrNotFound and another store failure is returned wrapped; the cache is untouched and no AddURL is made |
| Storage.ResolveRepopulates | shortener/internal/storage/storage.go:81-86 | on a store hit, AddURL is called once, its failure is not reported, the original is returned with a nil error, and the cache holds the alias exactly when AddURL succeeded |
| Storage.ResolveTwice | shortener/internal/storage/storage.go:63-87 | after a miss answered by the store, the next read of the same alias is served by the cache alone with the same answer |
| Storage.CreateFreshOrDuplicate | shortener/internal/storage/storage.go:48-61 | a fresh alias is stored and returned; a taken one gives ("", ErrNotUnique) and leaves the table unchanged |
| Storage.CreateThenResolve | shortener/internal/storage/storage.go:63-87 | creating a link and then reading its alias returns the original |
| Postgres.HandleError | shortener/internal/storage/postgres/postgres.go:74-88 | a pq error in the chain with code 23505, or a message containing "unique constraint", becomes ErrNotUnique; every other error, nil and non-pq errors included, is returned unchanged |
| Postgres.HandleErrorNil | shortener/internal/storage/postgres/postgres.go:76-87 | the result is nil exactly when the input is nil |
| Postgres.HandleErrorIdempotent | shortener/internal/storage/postgres/postgres.go:74-88 | classifying twice gives the same as classifying once |
| Postgres.HandleErrorNotUniqueIff | shortener/internal/storage/postgres/postgres.go:76-84 | the result carries ErrNotUnique exactly when the input already did or its pq error has code 23505 or the text "unique constraint" at some position of its message |
| Postgres.DuplicateKeyIsNotUnique | shortener/internal/storage/postgres/postgres.go:77-79 | a wrapped pq error with code 23505 is classified as ErrNotUnique |
| Text.ContainsIff | shortener/internal/storage/postgres/postgres.go:82 | the substring test holds exactly when the text occurs at some position |
| Text.NatToStringRoundTrip | shortener/internal/storage/postgres/redirects.go:31 | the decimal text of a placeholder number reads back as that number |
| Text.NatToStringInjective | shortener/internal/storage/postgres/redirects.go:31 | distinct placeholder numbers are rendered as distinct texts |
| PostgresRedirects.InsertStatement | shortener/internal/storage/postgres/redirects.go:19-38 | a batch of n > 0 rows gives the prefix followed by n tuples ($k, $k+1, $k+2) with k = 1, 4, 7, ..., and the trailing ", " removed; the arguments are 3n values, alias, date and user agent of each row, in batch order |
| PostgresRedirects.GroupsEndWithSeparator | shortener/internal/storage/postgres/redirects.go:29-38 | the groups the loop writes are the joined tuples plus one trailing ", ", so cutting two characters leaves the joined tuples |
| PostgresRedirects.BatchArgsLayout | shortener/internal/storage/postgres/redirects.go:29-35 | row j's values sit at 3j, 3j+1, 3j+2, so placeholder $m binds argument m-1 of its row |
| PostgresRedirects.GenerateAgrigatedReq | shortener/internal/storage/postgres/redirects.go:74-107 | the method builds exactly the query text and argument list that AgrigatedQuery and AgrigatedArgs define clause by clause |
| PostgresRedirects.AgrigatedPlaceholdersBind | shortener/internal/storage/postgres/redirects.go:77-98 | the alias is argument $1, there are between 1 and 4 arguments, each placeholder a clause uses binds that clause's own value, and the counter ends at the argument count plus one |
| PostgresRedirects.DateBoundsOptional | shortener/internal/storage/postgres/redirects.go:80-93 | an empty date bound is the fixed literal and takes no placeholder, and a non-empty one is a placeholder bound that takes one |
| PostgresRedirects.PagingOffsets | shortener/internal/storage/postgres/redirects.go:99-105 | pages 0 and 1 both start at offset 0; from page 1 on, the offset is (page - 1) * 20 and each page starts 20 rows after the previous one |
| Request.Validate | shortener/internal/entities/request/request.go:10-18 | the message is empty exactly when the original is non-empty; an empty original gives the zero link and "empty original link"; otherwise the link has the request's alias and original |
| Request.EmptyAliasAccepted | shortener/internal/entities/request/request.go:15-17 | a request with an original and no alias is accepted as it is |
| Response.Error | shortener/internal/entities/response/response.go:15-20 | status "Error", the message as the error and no result |
| Response.OK | shortener/internal/entities/response/response.go:22-27 | status "OK", the result and an empty error |
| Response.StatusTellsConstructor | shortener/internal/entities/response/response.go:3-6 | both constructors give one of the two statuses, and never the same one |

## Left out

- The mutex of `CreateRedirect` and the goroutine that flushes a full batch are modelled as one atomic step. Interleavings of concurrent callers are not modelled. Neither is a later write reaching the live buffer before the asynchronous flush has read it.
- The PCG generator, its wall-clock seeding and the exact `rand.IntN` reduction are left out. A draw is an oracle value `raws(k)` reduced modulo 36.
- `net/url.Parse` and `time.Parse` (with the `DateTime` layout) are function parameters: what a link parses to, and whether a date string is a valid datetime.
- The urler, redirector, database and cache collaborators are function parameters or map fields with fault parameters. Query execution, row scanning, the connection pool, the Redis client and its `redis.Nil` rule are left out. The cache lookup returns an empty value for a missing key, which is that rule's effect.
- The Postgres semaphore and its polling `Shutdown`, and the two goroutines and `WaitGroup` of the Postgres `AgrigatedRedirects`, are concurrency and driver I/O and are left out.
- The logging of an `AddURL` failure is left out; the model records only that the failure is not reported.
- Go's 64-bit integers are unbounded here. The page-to-offset product and the placeholder counter are assumed not to overflow.
- `ServiceUrls.CreateURL` does not return the generator position after the call. `DrawPos` fixes which draws each alias uses.
- The HTTP handlers, routing, command entry points and tests are not part of this model.
