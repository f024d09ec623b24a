/** The library code the engine calls but does not define, passed in as values. */
module Externals {
  import opened Wrappers
  import opened Canonical
  import opened Dialects

  /** The three structural XML decodes of the whole document (each with the
      charset-translating reader) into one dialect tree; None when that decode
      returns an error. */
  datatype Decoders = Decoders(
    decodeAtom: seq<byte> -> Option<AtomFeed>,
    decodeRss: seq<byte> -> Option<Rss>,
    decodeRdf: seq<byte> -> Option<Rdf>)

  /** The calls the mappers make:
      - timeParse(layout, value): Go's time.Parse, None on a parse error;
      - parseRssDate: rssgo.ParseRssDate, None on a parse error;
      - sanitize: Sanitize, giving (sanitised content, summary);
      - unescape: html.UnescapeString;
      - urlString: url.Parse followed by URL.String, None when url.Parse fails. */
  datatype Library = Library(
    timeParse: (string, string) -> Option<Time>,
    parseRssDate: string -> Option<Time>,
    sanitize: string -> (string, string),
    unescape: string -> string,
    urlString: string -> Option<string>)
}
