/** ParseFeed: the dispatcher that tries Atom, then RSS, then RDF, commits to the
    first dialect whose structural decode succeeds, and runs the post-pass. */
module FeedParser {
  import opened Wrappers
  import opened Canonical
  import opened Dialects
  import opened Externals
  import opened Dates
  import opened AtomMapper
  import opened RssMapper
  import opened RdfMapper
  import opened PostFix

  /** A mapped result after the post-pass. */
  function FixParsed(p: Parsed, lib: Library): Parsed
  {
    Parsed(p.feed, FixAll(p.stories, lib.urlString))
  }

  /** The outcome of ParseFeed on the bytes `b`; None is the (nil, nil) result. */
  function Parse(b: seq<byte>, dec: Decoders, lib: Library, now: Time): Option<Parsed>
  {
    match dec.decodeAtom(b)
    case Some(a) => Some(FixParsed(AtomParsed(a, lib), lib))
    case None =>
      match dec.decodeRss(b)
      case Some(r) => (match RssParsed(r, lib, now) case None => None case Some(p) => Some(FixParsed(p, lib)))
      case None =>
        match dec.decodeRdf(b)
        case Some(d) => (match RdfParsed(d, lib) case None => None case Some(p) => Some(FixParsed(p, lib)))
        case None => None
  }

  /** `return parseFix(&f, s)`: the stories go into an array that the post-pass
      updates in place. */
  method FinishWithFix(p: Parsed, lib: Library) returns (res: Option<Parsed>)
    ensures res == Some(FixParsed(p, lib))
  {
    var ss := new Story[|p.stories|](k requires 0 <= k < |p.stories| => p.stories[k]);
    assert ss[..] == p.stories;
    var f, rs := ParseFix(p.feed, ss, lib.urlString);
    res := Some(Parsed(f, rs[..]));
  }

  /** ParseFeed.  Each later decode is attempted only when every earlier one
      failed; a mapper's hard failure is the result of the whole call. */
  method ParseFeed(b: seq<byte>, dec: Decoders, lib: Library, now: Time) returns (res: Option<Parsed>)
    ensures res == Parse(b, dec, lib, now)
  {
    var a := dec.decodeAtom(b);
    if a.Some? {
      var p := MapAtom(a.value, lib);
      assert p == AtomParsed(a.value, lib);
      res := FinishWithFix(p, lib);
      return;
    }
    var r := dec.decodeRss(b);
    if r.Some? {
      var p := MapRss(r.value, lib, now);
      if p.None? {
        return None;
      }
      res := FinishWithFix(p.value, lib);
      return;
    }
    var d := dec.decodeRdf(b);
    if d.Some? {
      var p := MapRdf(d.value, lib);
      if p.None? {
        return None;
      }
      res := FinishWithFix(p.value, lib);
      return;
    }
    res := None;
  }

  /** Atom has priority: once the Atom decode succeeds the parse cannot fail, gives
      one story per entry, and depends neither on the RSS and RDF decoders nor on
      the clock. */
  lemma AtomPriority(b: seq<byte>, dec: Decoders, lib: Library, now: Time,
                     otherRss: seq<byte> -> Option<Rss>, otherRdf: seq<byte> -> Option<Rdf>, otherNow: Time)
    requires dec.decodeAtom(b).Some?
    ensures Parse(b, dec, lib, now).Some?
    ensures |Parse(b, dec, lib, now).value.stories| == |dec.decodeAtom(b).value.entries|
    ensures Parse(b, dec, lib, now).value.feed == AtomHeader(dec.decodeAtom(b).value, lib)
    ensures Parse(b, dec, lib, now) == Parse(b, dec.(decodeRss := otherRss, decodeRdf := otherRdf), lib, otherNow)
  {
  }

  /** RDF is never consulted once the RSS decode succeeds, even when the RSS
      mapper then fails. */
  lemma RssBeforeRdf(b: seq<byte>, dec: Decoders, lib: Library, now: Time, otherRdf: seq<byte> -> Option<Rdf>)
    requires dec.decodeAtom(b).None? && dec.decodeRss(b).Some?
    ensures Parse(b, dec, lib, now) == Parse(b, dec.(decodeRdf := otherRdf), lib, now)
  {
  }

  /** Every way the whole call returns (nil, nil), and no other. */
  lemma ParseFailure(b: seq<byte>, dec: Decoders, lib: Library, now: Time)
    ensures Parse(b, dec, lib, now).None? <==>
      dec.decodeAtom(b).None? &&
      match dec.decodeRss(b)
      case Some(r) => exists k :: 0 <= k < |r.items| && !HasTitleOrDescription(r.items[k])
      case None =>
        match dec.decodeRdf(b)
        case Some(d) => exists k :: 0 <= k < |d.items| && d.items[k].about == "" && d.items[k].link == ""
        case None => true
  {
    match dec.decodeRss(b)
    case Some(r) => RssParsedCases(r, lib, now);
    case None =>
      match dec.decodeRdf(b)
      case Some(d) => RdfParsedCases(d, lib);
      case None =>
  }

  /** When all three structural decodes fail the result is (nil, nil). */
  lemma NoDialectMatches(b: seq<byte>, dec: Decoders, lib: Library, now: Time)
    requires dec.decodeAtom(b).None? && dec.decodeRss(b).None? && dec.decodeRdf(b).None?
    ensures Parse(b, dec, lib, now) == None
  {
  }

  /** An RSS item some date field of which parses. */
  predicate RssItemDated(i: RssItem, lib: Library)
  {
    lib.parseRssDate(i.pubDate).Some? || lib.parseRssDate(i.date).Some? || lib.parseRssDate(i.published).Some?
  }

  lemma {:induction false} RssStoryClockFree(i: RssItem, lib: Library, now: Time, otherNow: Time)
    requires RssItemDated(i, lib)
    ensures RssStory(i, lib, now) == RssStory(i, lib, otherNow)
  {
    FirstParsedOfThree(i.pubDate, i.date, i.published, lib.parseRssDate);
  }

  /** Re-running the parse gives the same result whatever the clock reads, unless
      the RSS path is taken and some item has no parseable date. */
  lemma ParseClockFree(b: seq<byte>, dec: Decoders, lib: Library, now: Time, otherNow: Time)
    requires dec.decodeAtom(b).None? && dec.decodeRss(b).Some? ==>
      forall k :: 0 <= k < |dec.decodeRss(b).value.items| ==> RssItemDated(dec.decodeRss(b).value.items[k], lib)
    ensures Parse(b, dec, lib, now) == Parse(b, dec, lib, otherNow)
  {
    if dec.decodeAtom(b).None? && dec.decodeRss(b).Some? {
      var r := dec.decodeRss(b).value;
      RssParsedCases(r, lib, now);
      RssParsedCases(r, lib, otherNow);
      forall k | 0 <= k < |r.items|
        ensures RssStory(r.items[k], lib, now) == RssStory(r.items[k], lib, otherNow)
      {
        RssStoryClockFree(r.items[k], lib, now, otherNow);
      }
      if RssParsed(r, lib, now).Some? {
        assert RssParsed(r, lib, now).value.stories == RssParsed(r, lib, otherNow).value.stories;
      }
    }
  }

  /** A story with its clock-tied fields blanked. */
  function WithoutDates(st: Story): Story
  {
    st.(published := ZeroTime, updated := ZeroTime, date := 0)
  }

  /** Re-running the parse with another clock reading succeeds or fails alike and
      gives the same feed and the same stories, apart from their dates. */
  lemma ParseRerun(b: seq<byte>, dec: Decoders, lib: Library, now: Time, otherNow: Time)
    ensures Parse(b, dec, lib, now).None? <==> Parse(b, dec, lib, otherNow).None?
    ensures Parse(b, dec, lib, now).Some? ==>
      var p, q := Parse(b, dec, lib, now).value, Parse(b, dec, lib, otherNow).value;
      p.feed == q.feed && |p.stories| == |q.stories| &&
      forall k :: 0 <= k < |p.stories| ==> WithoutDates(p.stories[k]) == WithoutDates(q.stories[k])
  {
    ParseFailure(b, dec, lib, now);
    ParseFailure(b, dec, lib, otherNow);
    if dec.decodeAtom(b).None? && dec.decodeRss(b).Some? {
      var r := dec.decodeRss(b).value;
      RssParsedCases(r, lib, now);
      RssParsedCases(r, lib, otherNow);
    }
  }

  /** In a successful parse every story still without a link has an id that does
      not parse as a URL (or re-serialises to the empty string), and the
      epoch mirror matches the updated time on the Atom and RSS paths. */
  lemma ParsedStories(b: seq<byte>, dec: Decoders, lib: Library, now: Time)
    requires Parse(b, dec, lib, now).Some?
    ensures var ss := Parse(b, dec, lib, now).value.stories;
      forall k :: 0 <= k < |ss| && ss[k].link == "" ==> lib.urlString(ss[k].id) in {None, Some("")}
    ensures dec.decodeAtom(b).Some? || dec.decodeRss(b).Some? ==>
      var ss := Parse(b, dec, lib, now).value.stories;
      forall k :: 0 <= k < |ss| ==> ss[k].date == ss[k].updated.Unix()
  {
    var p: Parsed;
    if dec.decodeAtom(b).Some? {
      p := AtomParsed(dec.decodeAtom(b).value, lib);
    } else if dec.decodeRss(b).Some? {
      p := RssParsed(dec.decodeRss(b).value, lib, now).value;
      RssParsedCases(dec.decodeRss(b).value, lib, now);
    } else {
      p := RdfParsed(dec.decodeRdf(b).value, lib).value;
    }
    assert Parse(b, dec, lib, now).value == FixParsed(p, lib);
    FixAllLinks(p.stories, lib.urlString);
  }
}
