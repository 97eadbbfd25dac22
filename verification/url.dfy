/** The short-link record handed between the layers: an alias and the
    original URL it stands for. The defining package (entities/url) is not
    part of this model; its two fields are those every caller uses. */
module Url {

  datatype Url = Url(alias: string, original: string)

  const ZeroUrl: Url := Url("", "")
}
