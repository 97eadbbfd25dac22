/** The redirect-event records and the analytics query options. */
module Redirect {

  /** time.Time, as an instant on a single time line. */
  type Instant = int

  /** One resolution of an alias. */
  datatype Redirect = Redirect(id: int, alias: string, date: Instant, userAgent: string)

  /** The zero value Go fills a freshly made slice with. */
  const ZeroRedirect: Redirect := Redirect(0, "", 0, "")

  /** Rows per page of the aggregated view. */
  const PageSize: int := 20

  /** The one filter column the aggregated query understands. */
  const FilterUserAgent: string := "user_agent"

  /** A page of the redirects of one alias, with their total count. */
  datatype Agrigated = Agrigated(alias: string, total: int, redirects: seq<Redirect>)

  const ZeroAgrigated: Agrigated := Agrigated("", 0, [])

  /** Filtering and paging options of the aggregated view. Page is a Go int:
      it may be zero or negative. */
  datatype AgrigateOpts = AgrigateOpts(
    alias: string,
    startDate: string,
    endDate: string,
    filterColumn: string,
    valueForFilter: string,
    page: int)
}
