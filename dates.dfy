/** The date normaliser: the Atom date wrapper and the ordered fallback over
    candidate date fields used by the RSS and RDF mappers. */
module Dates {
  import opened Wrappers
  import opened Canonical
  import opened Externals

  /** The Go reference-time layout used for Atom dates. */
  const AtomDateFormat := "2006-01-02T15:04:05-07:00"

  /** ParseAtomDate: time.Parse with the Atom layout; a parse error yields the
      zero time rather than an error. */
  function ParseAtomDate(d: string, lib: Library): (t: Time)
    ensures lib.timeParse(AtomDateFormat, d).None? ==> t == ZeroTime
    ensures lib.timeParse(AtomDateFormat, d).Some? ==> t == lib.timeParse(AtomDateFormat, d).value
  {
    match lib.timeParse(AtomDateFormat, d)
    case Some(t) => t
    case None => ZeroTime
  }

  /** The first candidate, in order, that `parse` accepts. */
  function FirstParsed(ds: seq<string>, parse: string -> Option<Time>): (r: Option<Time>)
    ensures r.None? <==> forall k :: 0 <= k < |ds| ==> parse(ds[k]).None?
    ensures r.Some? ==>
      exists k :: 0 <= k < |ds| && parse(ds[k]) == r && forall j :: 0 <= j < k ==> parse(ds[j]).None?
  {
    if ds == [] then None
    else if parse(ds[0]).Some? then parse(ds[0])
    else FirstParsed(ds[1..], parse)
  }

  /** Two candidates: the first when it parses, else the second. */
  lemma FirstParsedOfTwo(a: string, b: string, parse: string -> Option<Time>)
    ensures FirstParsed([a, b], parse) == if parse(a).Some? then parse(a) else parse(b)
  {
  }

  /** Three candidates, tried in order. */
  lemma {:induction false} FirstParsedOfThree(a: string, b: string, c: string, parse: string -> Option<Time>)
    ensures FirstParsed([a, b, c], parse) ==
      if parse(a).Some? then parse(a) else if parse(b).Some? then parse(b) else parse(c)
  {
    assert [a, b, c][1..] == [b, c];
    FirstParsedOfTwo(b, c, parse);
  }
}
