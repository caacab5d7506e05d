/**
 * The parsed-URL record that Node's legacy `url.parse` produces and `url.format`
 * consumes, reduced to the fields this crawler reads or writes. Parsing and
 * formatting themselves are foreign code; they are passed around as a codec value.
 */
module Urls {
  import opened Wrappers

  /**
   * A parsed URL. `host` includes the port and `hostname` does not, so a
   * port-only authority such as `http://:8080/x` has host `":8080"` and hostname
   * `""`. `None` is JavaScript `null` (nothing between the scheme and the path).
   */
  datatype Url = Url(protocol: string, host: Option<string>, hostname: Option<string>,
                     pathname: string, search: string, hash: string)

  /** `url.parse` and `url.format`; `None` means the call throws. */
  datatype UrlCodec = UrlCodec(parse: string -> Option<Url>, format: Url -> Option<string>)

  /** An argument that the source accepts either as a string or as an already parsed object. */
  datatype UrlInput = Text(s: string) | Parsed(u: Url)

  /** `!url.hostname` is false: the host is present and not empty. */
  predicate HasHostname(u: Url) {
    u.hostname.Some? && u.hostname.value != ""
  }

  /** A codec for which formatting a parsed string gives that string back. */
  predicate RoundTrips(codec: UrlCodec, s: string) {
    codec.parse(s).Some? && codec.format(codec.parse(s).value) == Some(s)
  }
}
