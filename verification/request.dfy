/** The body of a "create short link" request and its validation. */
module Request {
  import opened Url

  datatype NewShort = NewShort(alias: string, original: string)

  const EmptyOriginalMessage: string := "empty original link"

  /** NewShort.Validate: the link to create and a message that is empty
      when the request is acceptable. Only an empty original is refused;
      an empty alias asks the service to generate one. */
  function Validate(ns: NewShort): (r: (Url, string))
    ensures r.1 == "" <==> ns.original != ""
    ensures ns.original == "" ==> r.0 == ZeroUrl && r.1 == EmptyOriginalMessage
    ensures ns.original != "" ==> r.0.alias == ns.alias && r.0.original == ns.original
  {
    if ns.original == "" then (ZeroUrl, EmptyOriginalMessage)
    else (Url(ns.alias, ns.original), "")
  }

  /** A request with no alias but an original is accepted and asks for a
      generated alias. */
  lemma EmptyAliasAccepted(original: string)
    requires original != ""
    ensures Validate(NewShort("", original)) == (Url("", original), "")
  {
  }
}
