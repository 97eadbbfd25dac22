/** The link side of the service layer: validation of a new link, alias
    allocation with retries on a uniqueness conflict, and resolution of an
    alias. The urler collaborator is a function from the index of a call and
    the link passed to it to its reply; net/url.Parse is the function parse. */
module ServiceUrls {
  import opened Errors
  import opened Url
  import opened Alias
  import Storage

  const AliasLen: nat := 6
  const MaxAttempts: nat := 10
  const CreateOp: string := "internal.service.url.Create"
  const GetOp: string := "internal.service.url.Get"

  const EmptyOriginalDetail: string := "empty original link"
  const InvalidUrlDetail: string := "url is not valid (scheme://host/path)"
  const EmptyAliasDetail: string := "empty alias"

  /** What net/url.Parse reports about a link: failure, or its scheme and host. */
  datatype ParsedURL = ParseFailed | Parsed(scheme: string, host: string)

  /** The outcome of CreateURL: the alias and error returned, and the links
      handed to the urler, in call order. */
  datatype Allocation = Allocation(alias: string, err: Error, calls: seq<Url>)

  /** The reply of the urler to call number k with link v. */
  type Urler = (nat, Url) -> Reply<string>

  predicate ValidLink(u: Url, parse: string -> ParsedURL) {
    u.original != "" && parse(u.original).Parsed? &&
    parse(u.original).host != "" && parse(u.original).scheme != ""
  }

  // ---------------------------------------------------------------------
  // The links of the allocation loop

  /** The length of the alias the k-th call carries when aliases are
      generated: AliasLen for the first call; after conflict number k-1 the
      retry draws AliasLen + (k - 1). */
  function GeneratedLen(k: nat): nat {
    if k == 0 then AliasLen else AliasLen + k - 1
  }

  /** Where the alias of the k-th call starts in the generator's output: the
      first alias is drawn at pos, and each retry draws right after the
      alias before it. */
  function DrawPos(pos: nat, k: nat): nat {
    if k == 0 then pos else DrawPos(pos, k - 1) + GeneratedLen(k - 1)
  }

  /** The link of the k-th call: the caller's link, with the k-th generated
      alias when the caller gave none. The aliases drawn do not depend on the
      urler's replies, only on how many calls are made. */
  function LinkAt(u: Url, raws: nat -> nat, pos: nat, k: nat): Url {
    if u.alias == "" then u.(alias := AliasFrom(raws, DrawPos(pos, k), GeneratedLen(k))) else u
  }

  /** The links of all MaxAttempts calls the loop may make. */
  function Links(u: Url, raws: nat -> nat, pos: nat): seq<Url> {
    seq(MaxAttempts, k requires 0 <= k < MaxAttempts => LinkAt(u, raws, pos, k))
  }

  /** The urler's reply to each of those calls. */
  function Replies(links: seq<Url>, store: Urler): seq<Reply<string>> {
    seq(|links|, k requires 0 <= k < |links| => store(k, links[k]))
  }

  /** Every link keeps the caller's original; a caller alias is kept as
      given; generated aliases are GeneratedLen(k) alphabet characters, the
      first one the first AliasLen draws. */
  lemma LinksShape(u: Url, raws: nat -> nat, pos: nat)
    ensures |Links(u, raws, pos)| == MaxAttempts
    ensures forall k :: 0 <= k < MaxAttempts ==> Links(u, raws, pos)[k].original == u.original
    ensures u.alias != "" ==> forall k :: 0 <= k < MaxAttempts ==> Links(u, raws, pos)[k] == u
    ensures u.alias == "" ==> Links(u, raws, pos)[0] == u.(alias := AliasFrom(raws, pos, AliasLen))
    ensures u.alias == "" ==> forall k :: 0 <= k < MaxAttempts ==>
      |Links(u, raws, pos)[k].alias| == GeneratedLen(k) && InAlphabet(Links(u, raws, pos)[k].alias)
  {
    forall k | 0 <= k < MaxAttempts && u.alias == ""
      ensures |Links(u, raws, pos)[k].alias| == GeneratedLen(k) && InAlphabet(Links(u, raws, pos)[k].alias)
    {
      AliasFromAt(raws, DrawPos(pos, k), GeneratedLen(k));
      AliasFromInAlphabet(raws, DrawPos(pos, k), GeneratedLen(k));
    }
  }

  // ---------------------------------------------------------------------
  // CreateURL

  function Prepend(calls: seq<Url>, a: Allocation): Allocation {
    Allocation(a.alias, a.err, calls + a.calls)
  }

  /** Iterations i, i+1, ... of the allocation loop, given the links and the
      replies of every call, with last the alias the previous call returned.
      A conflict on a generated alias goes on to the next call; once the
      links run out the loop ends with a nil error. */
  function Run(links: seq<Url>, replies: seq<Reply<string>>, genAlias: bool, i: nat, last: string): Allocation
    decreases |links| - i
  {
    if i >= |links| || i >= |replies| then Allocation(last, None, [])
    else if Is(replies[i].err, StorageErrNotUnique) && genAlias then
      Prepend([links[i]], Run(links, replies, genAlias, i + 1, replies[i].value))
    else Settle(replies[i], links[i])
  }

  /** An iteration that does not retry: a conflict (on the caller's alias)
      is ErrNotUnique, any other failure ErrStorageInternal wrapping it, and
      a success is returned; in each case with the alias the call returned. */
  function Settle(res: Reply<string>, cur: Url): Allocation {
    if Is(res.err, StorageErrNotUnique) then
      Allocation(res.value, Some(Sentinel(ServiceErrNotUnique)), [cur])
    else match res.err
      case Some(e) => Allocation(res.value, Some(WrapTwo(CreateOp, Sentinel(ServiceErrStorageInternal), e)), [cur])
      case None => Allocation(res.value, None, [cur])
  }

  /** CreateURL as a whole: the two validation failures, then the
      allocation loop over the links. */
  function CreateURLSpec(u: Url, parse: string -> ParsedURL, raws: nat -> nat, pos: nat, store: Urler): Allocation {
    if u.original == "" then
      Allocation("", Some(Annotated(Sentinel(ServiceErrNotValidData), EmptyOriginalDetail)), [])
    else if !ValidLink(u, parse) then
      Allocation("", Some(Annotated(Sentinel(ServiceErrNotValidData), InvalidUrlDetail)), [])
    else
      var links := Links(u, raws, pos);
      Run(links, Replies(links, store), u.alias == "", 0, "")
  }

  lemma PrependPrepend(a: seq<Url>, b: seq<Url>, x: Allocation)
    ensures Prepend(a, Prepend(b, x)) == Prepend(a + b, x)
  {
    assert a + (b + x.calls) == (a + b) + x.calls;
  }

  /** CreateURL: the checks of the link, the first generated alias when the
      caller gave none, then the allocation loop. */
  method CreateURL(u: Url, parse: string -> ParsedURL, raws: nat -> nat, pos: nat, store: Urler)
    returns (alias: string, err: Error, calls: seq<Url>)
    ensures Allocation(alias, err, calls) == CreateURLSpec(u, parse, raws, pos, store)
  {
    if u.original == "" {
      return "", Some(Annotated(Sentinel(ServiceErrNotValidData), EmptyOriginalDetail)), [];
    }
    var original := parse(u.original);
    if original.ParseFailed? || original.host == "" || original.scheme == "" {
      return "", Some(Annotated(Sentinel(ServiceErrNotValidData), InvalidUrlDetail)), [];
    }
    var cur, next := u, pos;
    if u.alias == "" {
      var a;
      a, next := GenerateAlias(raws, pos, AliasLen);
      cur := u.(alias := a);
    }
    alias, err, calls := Allocate(u, raws, pos, store, cur, next);
  }

  /** The loop of CreateURL: at most MaxAttempts calls to the urler; a
      conflict on a generated alias draws a fresh alias of AliasLen + i from
      the generator position next and calls again. */
  method Allocate(u: Url, raws: nat -> nat, pos: nat, store: Urler, cur: Url, next: nat)
    returns (alias: string, err: Error, calls: seq<Url>)
    requires cur == LinkAt(u, raws, pos, 0)
    requires u.alias == "" ==> next == DrawPos(pos, 1)
    ensures Allocation(alias, err, calls) ==
      Run(Links(u, raws, pos), Replies(Links(u, raws, pos), store), u.alias == "", 0, "")
  {
    ghost var links := Links(u, raws, pos);
    ghost var replies := Replies(links, store);
    var genAlias := u.alias == "";
    var link, p := cur, next;
    alias, err, calls := "", None, [];
    var i := 0;
    while i < MaxAttempts
      invariant i <= MaxAttempts
      invariant i < MaxAttempts ==> link == links[i]
      invariant genAlias ==> p == DrawPos(pos, i + 1)
      invariant Run(links, replies, genAlias, 0, "") == Prepend(calls, Run(links, replies, genAlias, i, alias))
    {
      var res := store(i, link);
      assert res == replies[i];
      if Is(res.err, StorageErrNotUnique) && genAlias {
        ghost var rest := Run(links, replies, genAlias, i + 1, res.value);
        assert Run(links, replies, genAlias, i, alias) == Prepend([link], rest);
        PrependPrepend(calls, [link], rest);
        calls, alias := calls + [link], res.value;
        var a;
        a, p := GenerateAlias(raws, p, AliasLen + i);
        link := link.(alias := a);
        i := i + 1;
        continue;
      }
      assert Run(links, replies, genAlias, i, alias) == Settle(res, link);
      if Is(res.err, StorageErrNotUnique) {
        return res.value, Some(Sentinel(ServiceErrNotUnique)), calls + [link];
      }
      if res.err.Some? {
        return res.value, Some(WrapTwo(CreateOp, Sentinel(ServiceErrStorageInternal), res.err.value)), calls + [link];
      }
      return res.value, None, calls + [link];
    }
    assert calls + [] == calls;
  }

  // ---------------------------------------------------------------------
  // Properties of the loop

  /** The calls from iteration i on are the next links in order, at least one
      and no more than remain; a caller alias is tried exactly once. */
  lemma {:induction false} RunCalls(links: seq<Url>, replies: seq<Reply<string>>, genAlias: bool, i: nat,
                                    last: string, a: Allocation)
    requires |replies| == |links| && i < |links| && a == Run(links, replies, genAlias, i, last)
    ensures 1 <= |a.calls| <= |links| - i
    ensures a.calls == links[i..i + |a.calls|]
    ensures !genAlias ==> |a.calls| == 1
    decreases |links| - i
  {
    if Is(replies[i].err, StorageErrNotUnique) && genAlias {
      var rest := Run(links, replies, genAlias, i + 1, replies[i].value);
      assert a == Prepend([links[i]], rest);
      if i + 1 < |links| {
        RunCalls(links, replies, genAlias, i + 1, replies[i].value, rest);
        assert links[i..i + 1 + |rest.calls|] == [links[i]] + links[i + 1..i + 1 + |rest.calls|];
      } else {
        assert rest.calls == [];
      }
    } else {
      assert a == Settle(replies[i], links[i]);
    }
  }

  /** How the loop ends, read off the reply to its last call (number end-1):
      the alias is that reply's value; a conflict on a generated alias is
      only the last reply when the links ran out, and the result is then a
      nil error; a conflict on a caller alias is ErrNotUnique; any other
      failure is ErrStorageInternal wrapping it; a success is nil. */
  predicate EndsAsLastReply(a: Allocation, replies: seq<Reply<string>>, genAlias: bool, end: nat)
    requires 1 <= end <= |replies|
  {
    var reply := replies[end - 1];
    && a.alias == reply.value
    && (Is(reply.err, StorageErrNotUnique) && genAlias ==> end == |replies| && a.err == None)
    && (Is(reply.err, StorageErrNotUnique) && !genAlias ==> a.err == Some(Sentinel(ServiceErrNotUnique)))
    && (!Is(reply.err, StorageErrNotUnique) && reply.err.Some? ==>
          a.err == Some(WrapTwo(CreateOp, Sentinel(ServiceErrStorageInternal), reply.err.value)))
    && (reply.err == None ==> a.err == None)
  }

  lemma {:induction false} RunOutcome(links: seq<Url>, replies: seq<Reply<string>>, genAlias: bool, i: nat,
                                      last: string, a: Allocation)
    requires |replies| == |links| && i < |links| && a == Run(links, replies, genAlias, i, last)
    ensures 1 <= |a.calls| && i + |a.calls| <= |replies|
    ensures EndsAsLastReply(a, replies, genAlias, i + |a.calls|)
    decreases |links| - i
  {
    if Is(replies[i].err, StorageErrNotUnique) && genAlias {
      var rest := Run(links, replies, genAlias, i + 1, replies[i].value);
      assert a == Prepend([links[i]], rest);
      if i + 1 < |links| {
        RunOutcome(links, replies, genAlias, i + 1, replies[i].value, rest);
      } else {
        assert rest == Allocation(replies[i].value, None, []);
      }
    } else {
      assert a == Settle(replies[i], links[i]);
    }
  }

  /** The loop moves on from a call only after a conflict on a generated
      alias. */
  lemma {:induction false} RunRetried(links: seq<Url>, replies: seq<Reply<string>>, genAlias: bool, i: nat,
                                      last: string, a: Allocation)
    requires |replies| == |links| && i < |links| && a == Run(links, replies, genAlias, i, last)
    ensures i + |a.calls| <= |replies|
    ensures forall j :: i <= j < i + |a.calls| - 1 ==> genAlias && Is(replies[j].err, StorageErrNotUnique)
    decreases |links| - i
  {
    if Is(replies[i].err, StorageErrNotUnique) && genAlias {
      var rest := Run(links, replies, genAlias, i + 1, replies[i].value);
      assert a == Prepend([links[i]], rest);
      if i + 1 < |links| {
        RunRetried(links, replies, genAlias, i + 1, replies[i].value, rest);
      } else {
        assert rest.calls == [];
      }
    } else {
      assert a == Settle(replies[i], links[i]);
    }
  }

  // ---------------------------------------------------------------------
  // Properties of CreateURL

  /** A link that is empty or does not parse with a scheme and a host is
      ErrNotValidData with an empty alias, before any draw or call; a valid
      link makes between one and MaxAttempts calls, each with the link's
      original. */
  lemma CreateURLValidation(u: Url, parse: string -> ParsedURL, raws: nat -> nat, pos: nat, store: Urler)
    ensures var a := CreateURLSpec(u, parse, raws, pos, store);
      && (a.calls == [] <==> !ValidLink(u, parse))
      && (!ValidLink(u, parse) ==> a.alias == "" && Is(a.err, ServiceErrNotValidData))
      && (ValidLink(u, parse) ==>
            |a.calls| <= MaxAttempts && forall j :: 0 <= j < |a.calls| ==> a.calls[j].original == u.original)
  {
    var a := CreateURLSpec(u, parse, raws, pos, store);
    if ValidLink(u, parse) {
      var links := Links(u, raws, pos);
      LinksShape(u, raws, pos);
      RunCalls(links, Replies(links, store), u.alias == "", 0, "", a);
    }
  }

  /** A caller-chosen alias is tried exactly once, as given; its conflict is
      ErrNotUnique. */
  lemma CreateURLCallerAlias(u: Url, parse: string -> ParsedURL, raws: nat -> nat, pos: nat, store: Urler)
    requires ValidLink(u, parse) && u.alias != ""
    ensures var a := CreateURLSpec(u, parse, raws, pos, store);
      && a.calls == [u] && a.alias == store(0, u).value
      && (Is(store(0, u).err, StorageErrNotUnique) <==> a.err == Some(Sentinel(ServiceErrNotUnique)))
      && (store(0, u).err == None <==> a.err == None)
  {
    var links := Links(u, raws, pos);
    var replies := Replies(links, store);
    assert links[0] == u && replies[0] == store(0, u);
    assert CreateURLSpec(u, parse, raws, pos, store) == Settle(store(0, u), u);
  }

  /** Without a caller alias, the first call carries the first AliasLen draws
      of the generator, and the k-th call an alias of GeneratedLen(k)
      alphabet characters. */
  lemma CreateURLGenerated(u: Url, parse: string -> ParsedURL, raws: nat -> nat, pos: nat, store: Urler)
    requires ValidLink(u, parse) && u.alias == ""
    ensures var a := CreateURLSpec(u, parse, raws, pos, store);
      && a.calls[0] == u.(alias := AliasFrom(raws, pos, AliasLen))
      && forall k :: 0 <= k < |a.calls| ==> |a.calls[k].alias| == GeneratedLen(k) && InAlphabet(a.calls[k].alias)
  {
    var a := CreateURLSpec(u, parse, raws, pos, store);
    var links := Links(u, raws, pos);
    LinksShape(u, raws, pos);
    RunCalls(links, Replies(links, store), true, 0, "", a);
    assert a.calls == links[..|a.calls|];
  }

  /** A generated alias is replaced by the next one only after the urler
      reported a conflict on it. */
  lemma CreateURLRetriesOnConflict(u: Url, parse: string -> ParsedURL, raws: nat -> nat, pos: nat, store: Urler)
    requires ValidLink(u, parse)
    ensures var a := CreateURLSpec(u, parse, raws, pos, store);
      forall k :: 0 <= k < |a.calls| - 1 ==> u.alias == "" && Is(store(k, a.calls[k]).err, StorageErrNotUnique)
  {
    var a := CreateURLSpec(u, parse, raws, pos, store);
    var links := Links(u, raws, pos);
    var replies := Replies(links, store);
    RunCalls(links, replies, u.alias == "", 0, "", a);
    RunRetried(links, replies, u.alias == "", 0, "", a);
    forall k | 0 <= k < |a.calls| - 1
      ensures u.alias == "" && Is(store(k, a.calls[k]).err, StorageErrNotUnique)
    {
      assert a.calls[k] == links[k] && replies[k] == store(k, links[k]);
    }
  }

  /** CreateURL returns the alias the urler's last reply carries; a success
      of that call is a success, and a failure other than a conflict is
      ErrStorageInternal wrapping it. A conflict on a generated alias ends
      the loop only after MaxAttempts calls, and then with a nil error. */
  lemma CreateURLLastReply(u: Url, parse: string -> ParsedURL, raws: nat -> nat, pos: nat, store: Urler)
    requires ValidLink(u, parse)
    ensures var a := CreateURLSpec(u, parse, raws, pos, store);
      |a.calls| >= 1 &&
      var reply := store(|a.calls| - 1, a.calls[|a.calls| - 1]);
      && a.alias == reply.value
      && (reply.err == None ==> a.err == None)
      && (!Is(reply.err, StorageErrNotUnique) && reply.err.Some? ==>
            a.err == Some(WrapTwo(CreateOp, Sentinel(ServiceErrStorageInternal), reply.err.value)))
      && (Is(reply.err, StorageErrNotUnique) && u.alias == "" ==> |a.calls| == MaxAttempts && a.err == None)
  {
    var a := CreateURLSpec(u, parse, raws, pos, store);
    var links := Links(u, raws, pos);
    var replies := Replies(links, store);
    RunCalls(links, replies, u.alias == "", 0, "", a);
    RunOutcome(links, replies, u.alias == "", 0, "", a);
    var n := |a.calls|;
    assert a.calls[n - 1] == links[n - 1];
    assert replies[n - 1] == store(n - 1, a.calls[n - 1]);
    assert EndsAsLastReply(a, replies, u.alias == "", n);
  }

  /** When the urler reports a conflict on every one of the MaxAttempts
      generated links, CreateURL makes MaxAttempts calls and then reports success (a nil error) with the
      alias the last call returned. */
  lemma CreateURLExhausted(u: Url, parse: string -> ParsedURL, raws: nat -> nat, pos: nat, store: Urler)
    requires ValidLink(u, parse) && u.alias == ""
    requires forall k :: 0 <= k < MaxAttempts ==> Is(store(k, Links(u, raws, pos)[k]).err, StorageErrNotUnique)
    ensures var a := CreateURLSpec(u, parse, raws, pos, store);
      |a.calls| == MaxAttempts && a.err == None && a.alias == store(MaxAttempts - 1, a.calls[MaxAttempts - 1]).value
  {
    var a := CreateURLSpec(u, parse, raws, pos, store);
    var links := Links(u, raws, pos);
    var replies := Replies(links, store);
    RunCalls(links, replies, true, 0, "", a);
    RunOutcome(links, replies, true, 0, "", a);
    assert Is(replies[|a.calls| - 1].err, StorageErrNotUnique);
  }

  /** Every failure of CreateURL is ErrNotValidData, ErrNotUnique or
      ErrStorageInternal. */
  lemma CreateURLTaxonomy(u: Url, parse: string -> ParsedURL, raws: nat -> nat, pos: nat, store: Urler)
    ensures var a := CreateURLSpec(u, parse, raws, pos, store);
      a.err == None || IsOneOf(a.err, {ServiceErrNotValidData, ServiceErrNotUnique, ServiceErrStorageInternal})
  {
    var a := CreateURLSpec(u, parse, raws, pos, store);
    if !ValidLink(u, parse) {
      assert Is(a.err, ServiceErrNotValidData);
    } else {
      var links := Links(u, raws, pos);
      var replies := Replies(links, store);
      RunOutcome(links, replies, u.alias == "", 0, "", a);
      var reply := replies[|a.calls| - 1];
      if Is(reply.err, StorageErrNotUnique) && u.alias != "" {
        assert Is(a.err, ServiceErrNotUnique);
      } else if !Is(reply.err, StorageErrNotUnique) && reply.err.Some? {
        assert Is(a.err, ServiceErrStorageInternal);
      }
    }
  }

  // ---------------------------------------------------------------------
  // URL

  /** URL: an empty alias is ErrNotValidData without calling storage;
      otherwise one storage call, whose value is returned in every case, with
      storage ErrNotFound as ErrNotFound and any other failure as
      ErrStorageInternal wrapping it. */
  function URL(alias: string, storage: string -> Reply<string>): (t: Traced<string>)
    ensures t.storageCalls == 0 <==> alias == ""
    ensures alias == "" ==> t.reply == Reply("", Some(Annotated(Sentinel(ServiceErrNotValidData), EmptyAliasDetail)))
    ensures alias != "" ==> t.storageCalls == 1 && t.reply.value == storage(alias).value
    ensures alias != "" && Is(storage(alias).err, StorageErrNotFound) ==> t.reply.err == Some(Sentinel(ServiceErrNotFound))
    ensures alias != "" && !Is(storage(alias).err, StorageErrNotFound) && storage(alias).err.Some? ==>
      t.reply.err == Some(WrapTwo(GetOp, Sentinel(ServiceErrStorageInternal), storage(alias).err.value))
    ensures alias != "" && storage(alias).err == None ==> t.reply == storage(alias)
  {
    if alias == "" then
      Traced(Reply("", Some(Annotated(Sentinel(ServiceErrNotValidData), EmptyAliasDetail))), 0)
    else
      var res := storage(alias);
      if Is(res.err, StorageErrNotFound) then Traced(Reply(res.value, Some(Sentinel(ServiceErrNotFound))), 1)
      else match res.err
        case Some(e) => Traced(Reply(res.value, Some(WrapTwo(GetOp, Sentinel(ServiceErrStorageInternal), e))), 1)
        case None => Traced(res, 1)
  }

  /** Every failure of URL is ErrNotValidData, ErrNotFound or ErrStorageInternal. */
  lemma URLTaxonomy(alias: string, storage: string -> Reply<string>)
    ensures var r := URL(alias, storage).reply;
      r.err == None || IsOneOf(r.err, {ServiceErrNotValidData, ServiceErrNotFound, ServiceErrStorageInternal})
  {
    var r := URL(alias, storage).reply;
    if alias == "" {
      assert Is(r.err, ServiceErrNotValidData);
    } else if Is(storage(alias).err, StorageErrNotFound) {
      assert Is(r.err, ServiceErrNotFound);
    } else if r.err != None {
      assert Is(r.err, ServiceErrStorageInternal);
    }
  }

  // ---------------------------------------------------------------------
  // Through the storage layer

  /** Over the storage layer with no faults: a fresh caller alias is stored
      and returned, a taken one is ErrNotUnique with an empty alias. */
  lemma CreateThroughStorage(u: Url, parse: string -> ParsedURL, raws: nat -> nat, pos: nat,
                             urls: map<string, string>)
    requires ValidLink(u, parse) && u.alias != ""
    ensures var a := CreateURLSpec(u, parse, raws, pos, (k: nat, v: Url) => Storage.Create(urls, v, None).0);
      && (u.alias !in urls ==> a.alias == u.alias && a.err == None)
      && (u.alias in urls ==> a.alias == "" && a.err == Some(Sentinel(ServiceErrNotUnique)))
  {
    var store := (k: nat, v: Url) => Storage.Create(urls, v, None).0;
    Storage.CreateFreshOrDuplicate(urls, u);
    CreateURLCallerAlias(u, parse, raws, pos, store);
  }

  /** Over the storage layer, when the MaxAttempts aliases CreateURL would
      try are all taken already, it reports success with an empty alias. */
  lemma ExhaustedThroughStorage(u: Url, parse: string -> ParsedURL, raws: nat -> nat, pos: nat,
                                urls: map<string, string>)
    requires ValidLink(u, parse) && u.alias == ""
    requires forall k :: 0 <= k < MaxAttempts ==> Links(u, raws, pos)[k].alias in urls
    ensures var a := CreateURLSpec(u, parse, raws, pos, (k: nat, v: Url) => Storage.Create(urls, v, None).0);
      a.alias == "" && a.err == None
  {
    var store := (k: nat, v: Url) => Storage.Create(urls, v, None).0;
    var links := Links(u, raws, pos);
    forall k | 0 <= k < MaxAttempts
      ensures Is(store(k, links[k]).err, StorageErrNotUnique)
    {
      Storage.CreateFreshOrDuplicate(urls, links[k]);
    }
    CreateURLExhausted(u, parse, raws, pos, store);
    var a := CreateURLSpec(u, parse, raws, pos, store);
    RunCalls(links, Replies(links, store), true, 0, "", a);
    assert a.calls[MaxAttempts - 1] == links[MaxAttempts - 1];
    Storage.CreateFreshOrDuplicate(urls, links[MaxAttempts - 1]);
  }

  /** A link created under a fresh caller alias is then resolved by URL to
      its original, through the cache-aside read of the storage layer. */
  lemma CreateThenURL(u: Url, parse: string -> ParsedURL, raws: nat -> nat, pos: nat,
                      cache: map<string, string>, urls: map<string, string>, addFault: Error)
    requires ValidLink(u, parse) && u.alias != ""
    requires u.alias !in urls && u.alias !in cache
    ensures var a := CreateURLSpec(u, parse, raws, pos, (k: nat, v: Url) => Storage.Create(urls, v, None).0);
      var urls' := Storage.Create(urls, u, None).1;
      URL(a.alias, x => Storage.Resolve(cache, urls', x, None, None, addFault).reply).reply == Reply(u.original, None)
  {
    CreateThroughStorage(u, parse, raws, pos, urls);
    Storage.CreateThenResolve(cache, urls, u, addFault);
  }
}
