/** The SQL text and argument lists the Postgres store builds for the
    redirects table: the batch insert of CreateRedirects and the filtered,
    paged query of the aggregated view. */
module PostgresRedirects {
  import opened Text
  import opened Redirect

  const RedirectsTable: string := "redirects"

  /** A query argument: the store passes strings and instants. */
  datatype Arg = TextArg(text: string) | TimeArg(instant: Instant)

  // ---------------------------------------------------------------------
  // Batch insert

  const InsertPrefix: string := "insert into " + RedirectsTable + " (alias, dt, user_agent) values"

  /** The placeholder triple of one row whose first placeholder is $k. */
  function Tuple(k: nat): string {
    "($" + NatToString(k) + ", $" + NatToString(k + 1) + ", $" + NatToString(k + 2) + ")"
  }

  /** What one loop iteration writes for the row whose first placeholder is $k. */
  function Group(k: nat): string {
    " " + Tuple(k) + ", "
  }

  /** The groups of the first n rows, as the loop accumulates them. */
  function Groups(n: nat): string {
    if n == 0 then "" else Groups(n - 1) + Group(3 * (n - 1) + 1)
  }

  /** The tuples of n >= 1 rows separated by ", ", without a trailing separator:
      the row with index j gets placeholders $3j+1, $3j+2, $3j+3. */
  function Joined(n: nat): string
    requires n >= 1
  {
    if n == 1 then " " + Tuple(1) else Joined(n - 1) + ", " + " " + Tuple(3 * (n - 1) + 1)
  }

  /** The three arguments of one row, in column order. */
  function RowArgs(r: Redirect): seq<Arg> {
    [TextArg(r.alias), TimeArg(r.date), TextArg(r.userAgent)]
  }

  function BatchArgs(rs: seq<Redirect>): seq<Arg> {
    if rs == [] then [] else BatchArgs(rs[..|rs| - 1]) + RowArgs(rs[|rs| - 1])
  }

  lemma AppendAssoc<T>(a: seq<T>, b: seq<T>, c: seq<T>)
    ensures (a + b) + c == a + (b + c)
  {
  }

  lemma BatchArgsSnoc(rs: seq<Redirect>, j: nat)
    requires j < |rs|
    ensures BatchArgs(rs[..j + 1]) == BatchArgs(rs[..j]) + RowArgs(rs[j])
  {
    assert rs[..j + 1][..j] == rs[..j];
  }

  lemma {:induction false} GroupsEndWithSeparator(n: nat)
    requires n >= 1
    ensures Groups(n) == Joined(n) + ", "
  {
    if n > 1 {
      GroupsEndWithSeparator(n - 1);
    }
  }

  /** Row j's three arguments sit at 3j, 3j+1, 3j+2, so placeholder $m binds
      argument m-1 of the row its tuple stands for. */
  lemma {:induction false} BatchArgsLayout(rs: seq<Redirect>)
    ensures |BatchArgs(rs)| == 3 * |rs|
    ensures forall j :: 0 <= j < |rs| ==>
      BatchArgs(rs)[3 * j] == TextArg(rs[j].alias) &&
      BatchArgs(rs)[3 * j + 1] == TimeArg(rs[j].date) &&
      BatchArgs(rs)[3 * j + 2] == TextArg(rs[j].userAgent)
  {
    if rs != [] {
      var init := rs[..|rs| - 1];
      BatchArgsLayout(init);
      forall j | 0 <= j < |init|
        ensures rs[j] == init[j]
      {
      }
    }
  }

  /** The statement and argument list CreateRedirects executes for a batch.
      A non-empty batch gives one tuple per row with no trailing separator;
      the arguments are alias, date, user agent of each row, in batch order.
      An empty batch cuts the last two letters of the prefix (the callers
      never pass one). */
  method InsertStatement(tmp: seq<Redirect>) returns (q: string, vals: seq<Arg>)
    ensures |tmp| > 0 ==> q == InsertPrefix + Joined(|tmp|)
    ensures |tmp| == 0 ==> q == InsertPrefix[..|InsertPrefix| - 2]
    ensures |vals| == 3 * |tmp|
    ensures forall j :: 0 <= j < |tmp| ==>
      vals[3 * j] == TextArg(tmp[j].alias) &&
      vals[3 * j + 1] == TimeArg(tmp[j].date) &&
      vals[3 * j + 2] == TextArg(tmp[j].userAgent)
  {
    vals := [];
    var s := InsertPrefix;
    ghost var body := "";
    var counter := 1;
    for j := 0 to |tmp|
      invariant counter == 3 * j + 1
      invariant s == InsertPrefix + body
      invariant body == Groups(j)
      invariant vals == BatchArgs(tmp[..j])
    {
      var g := Group(counter);
      AppendAssoc(InsertPrefix, body, g);
      body := body + g;
      s := s + g;
      counter := counter + 3;
      BatchArgsSnoc(tmp, j);
      vals := vals + RowArgs(tmp[j]);
    }
    q := s[..|s| - 2];
    assert tmp[..|tmp|] == tmp;
    BatchArgsLayout(tmp);
    if |tmp| > 0 {
      GroupsEndWithSeparator(|tmp|);
      assert s == (InsertPrefix + Joined(|tmp|)) + ", ";
    }
  }

  // ---------------------------------------------------------------------
  // Aggregated query

  const SelectAlias: string := "select * from " + RedirectsTable + " where alias = $1"
  const LowerLiteral: string := " and dt >= '100-10-22 00:00:00'"
  const UpperLiteral: string := " and dt <= '100000-10-22 00:00:00'"

  /** The user-agent filter is applied only when asked for with a value. */
  predicate FilterOn(opts: AgrigateOpts) {
    opts.filterColumn == FilterUserAgent && opts.valueForFilter != ""
  }

  /** The argument a date bound adds: none for an empty bound. */
  function DateArg(date: string): seq<Arg> {
    if date == "" then [] else [TextArg(date)]
  }

  function FilterArg(opts: AgrigateOpts): seq<Arg> {
    if FilterOn(opts) then [TextArg(opts.valueForFilter)] else []
  }

  /** The placeholder numbers the optional clauses receive: they follow $1
      in clause order, each present clause taking the next one. */
  function StartSlot(opts: AgrigateOpts): nat { 2 }
  function EndSlot(opts: AgrigateOpts): nat { StartSlot(opts) + |DateArg(opts.startDate)| }
  function FilterSlot(opts: AgrigateOpts): nat { EndSlot(opts) + |DateArg(opts.endDate)| }
  function NextSlot(opts: AgrigateOpts): nat { FilterSlot(opts) + |FilterArg(opts)| }

  function LowerClause(opts: AgrigateOpts): string {
    if opts.startDate == "" then LowerLiteral else " and dt >= $" + NatToString(StartSlot(opts))
  }

  function UpperClause(opts: AgrigateOpts): string {
    if opts.endDate == "" then UpperLiteral else " and dt <= $" + NatToString(EndSlot(opts))
  }

  function FilterClause(opts: AgrigateOpts): string {
    if FilterOn(opts) then " and STRPOS(" + FilterUserAgent + ", $" + NatToString(FilterSlot(opts)) + ") > 0"
    else ""
  }

  /** Page 0 is read as page 1. */
  function EffectivePage(page: int): int {
    if page == 0 then 1 else page
  }

  function Offset(page: int): int {
    (EffectivePage(page) - 1) * PageSize
  }

  function PagingClause(page: int): string {
    " order by dt offset " + IntToString(Offset(page)) + " limit " + IntToString(PageSize)
  }

  function AgrigatedQuery(opts: AgrigateOpts): string {
    SelectAlias + LowerClause(opts) + UpperClause(opts) + FilterClause(opts) + PagingClause(opts.page)
  }

  function AgrigatedArgs(opts: AgrigateOpts): seq<Arg> {
    [TextArg(opts.alias)] + DateArg(opts.startDate) + DateArg(opts.endDate) + FilterArg(opts)
  }

  /** generateAgrigatedReq: the query text and its arguments. */
  method GenerateAgrigatedReq(opts: AgrigateOpts) returns (q: string, args: seq<Arg>)
    ensures q == AgrigatedQuery(opts)
    ensures args == AgrigatedArgs(opts)
  {
    q := SelectAlias;
    var i := 2;
    args := [TextArg(opts.alias)];
    if opts.startDate != "" {
      q := q + (" and dt >= $" + NatToString(i));
      i := i + 1;
      args := args + [TextArg(opts.startDate)];
    } else {
      q := q + LowerLiteral;
    }
    assert q == SelectAlias + LowerClause(opts);
    assert i == EndSlot(opts);
    if opts.endDate != "" {
      q := q + (" and dt <= $" + NatToString(i));
      i := i + 1;
      args := args + [TextArg(opts.endDate)];
    } else {
      q := q + UpperLiteral;
    }
    assert q == SelectAlias + LowerClause(opts) + UpperClause(opts);
    assert i == FilterSlot(opts);
    if opts.filterColumn == FilterUserAgent && opts.valueForFilter != "" {
      q := q + (" and STRPOS(" + FilterUserAgent + ", $" + NatToString(i) + ") > 0");
      i := i + 1;
      args := args + [TextArg(opts.valueForFilter)];
    }
    assert q == SelectAlias + LowerClause(opts) + UpperClause(opts) + FilterClause(opts);
    var page := opts.page;
    if page == 0 {
      page := page + 1;
    }
    var offset := (page - 1) * PageSize;
    var limit := PageSize;
    assert offset == Offset(opts.page);
    var paging := " order by dt offset " + IntToString(offset) + " limit " + IntToString(limit);
    assert paging == PagingClause(opts.page);
    q := q + paging;
  }

  /** The alias is always $1, at most three optional arguments follow it, and
      every placeholder a clause uses binds that clause's own value; the
      counter ends one past the last argument. */
  lemma AgrigatedPlaceholdersBind(opts: AgrigateOpts)
    ensures var args := AgrigatedArgs(opts);
      && 1 <= |args| <= 4
      && args[0] == TextArg(opts.alias)
      && NextSlot(opts) == |args| + 1
      && (opts.startDate != "" ==> StartSlot(opts) <= |args| && args[StartSlot(opts) - 1] == TextArg(opts.startDate))
      && (opts.endDate != "" ==> EndSlot(opts) <= |args| && args[EndSlot(opts) - 1] == TextArg(opts.endDate))
      && (FilterOn(opts) ==> FilterSlot(opts) == |args| && args[FilterSlot(opts) - 1] == TextArg(opts.valueForFilter))
  {
  }

  /** An empty date bound is a fixed literal and adds no argument; a
      non-empty one is a placeholder bound and adds its value. */
  lemma DateBoundsOptional(opts: AgrigateOpts)
    ensures opts.startDate == "" <==> LowerClause(opts) == LowerLiteral
    ensures opts.endDate == "" <==> UpperClause(opts) == UpperLiteral
    ensures opts.startDate == "" <==> EndSlot(opts) == StartSlot(opts)
    ensures opts.endDate == "" <==> FilterSlot(opts) == EndSlot(opts)
  {
    if opts.startDate != "" {
      assert LowerClause(opts)[11] == '$' != LowerLiteral[11];
    }
    if opts.endDate != "" {
      assert UpperClause(opts)[11] == '$' != UpperLiteral[11];
    }
  }

  /** Page 0 and page 1 both start at row 0; from page 1 on, each page starts
      PageSize rows after the previous one, and the limit is PageSize. */
  lemma PagingOffsets(page: int)
    ensures Offset(0) == 0 && Offset(1) == 0
    ensures page >= 1 ==> Offset(page) == (page - 1) * PageSize && Offset(page + 1) == Offset(page) + PageSize
    ensures page >= 0 ==> Offset(page) >= 0
  {
  }
}
