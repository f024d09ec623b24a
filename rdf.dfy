/** The RSS 1.0 / RDF branch of ParseFeed. */
module RdfMapper {
  import opened Wrappers
  import opened Canonical
  import opened Dialects
  import opened Externals
  import opened Sequences

  /** The Feed built from the channel block; a missing channel leaves the zero Feed. */
  function RdfHeader(d: Rdf, lib: Library): Feed
  {
    match d.channel
    case None => EmptyFeed
    case Some(c) =>
      Feed(c.title, c.link, match lib.parseRssDate(c.date) case Some(t) => t case None => ZeroTime)
  }

  /** The Story built from one RDF item, None when it has neither about nor link.
      An unparsed date leaves the zero times and a zero epoch mirror. */
  function RdfStory(i: RdfItem, lib: Library): Option<Story>
  {
    if i.about == "" && i.link == "" then None
    else
      var (content, summary) := lib.sanitize(lib.unescape(i.description));
      var st := Story(
        id := if i.about != "" then i.about else i.link,
        title := i.title,
        link := i.link,
        author := i.creator,
        published := ZeroTime,
        updated := ZeroTime,
        date := 0,
        content := content,
        summary := summary);
      match lib.parseRssDate(i.date)
      case Some(t) => Some(st.(published := t, updated := t, date := t.Unix()))
      case None => Some(st)
  }

  /** Header and stories of an RDF document before the post-pass; None when any
      item has no id. */
  function RdfParsed(d: Rdf, lib: Library): Option<Parsed>
  {
    match CollectAll(d.items, (i: RdfItem) => RdfStory(i, lib))
    case None => None
    case Some(ss) => Some(Parsed(RdfHeader(d, lib), ss))
  }

  /** One item with neither about nor link fails the whole document; otherwise
      there is one story per item, in order. */
  lemma RdfParsedCases(d: Rdf, lib: Library)
    ensures RdfParsed(d, lib).None? <==>
      exists k :: 0 <= k < |d.items| && d.items[k].about == "" && d.items[k].link == ""
    ensures RdfParsed(d, lib).Some? ==>
      var p := RdfParsed(d, lib).value;
      p.feed == RdfHeader(d, lib) && |p.stories| == |d.items| &&
      forall k :: 0 <= k < |d.items| ==> RdfStory(d.items[k], lib) == Some(p.stories[k])
  {
  }

  /** The loop's exit when every item succeeded. */
  lemma RdfParsedAll(d: Rdf, lib: Library, s: seq<Story>)
    requires |s| == |d.items|
    requires forall k :: 0 <= k < |d.items| ==> RdfStory(d.items[k], lib) == Some(s[k])
    ensures RdfParsed(d, lib) == Some(Parsed(RdfHeader(d, lib), s))
  {
    RdfParsedCases(d, lib);
    assert RdfParsed(d, lib).value.stories == s;
  }

  /** The loop's early return at an item without an id. */
  lemma RdfParsedFailsAt(d: Rdf, lib: Library, n: nat)
    requires n < |d.items| && RdfStory(d.items[n], lib).None?
    ensures RdfParsed(d, lib) == None
  {
    RdfParsedCases(d, lib);
  }

  /** Field selection for an RDF item that has an id. */
  lemma RdfStoryFields(i: RdfItem, lib: Library)
    requires i.about != "" || i.link != ""
    ensures RdfStory(i, lib).Some?
    ensures var st := RdfStory(i, lib).value;
      (st.content, st.summary) == lib.sanitize(lib.unescape(i.description)) &&
      st.id == (if i.about != "" then i.about else i.link) &&
      st.title == i.title && st.link == i.link && st.author == i.creator
  {
  }

  /** The epoch mirror agrees with the updated time exactly when the item date
      parsed: an unparsed date leaves the zero time, whose Unix seconds are not 0. */
  lemma RdfStoryDates(i: RdfItem, lib: Library)
    requires i.about != "" || i.link != ""
    ensures var st := RdfStory(i, lib).value;
      st.published == st.updated &&
      (st.date == st.updated.Unix() <==> lib.parseRssDate(i.date).Some?) &&
      (lib.parseRssDate(i.date).Some? ==> st.updated == lib.parseRssDate(i.date).value) &&
      (lib.parseRssDate(i.date).None? ==> st.updated == ZeroTime && st.date == 0)
  {
  }

  /** A missing channel leaves the feed's title, link and updated time at their zero values. */
  lemma RdfHeaderFields(d: Rdf, lib: Library)
    ensures d.channel.None? ==> RdfHeader(d, lib) == Feed("", "", ZeroTime)
    ensures d.channel.Some? ==>
      RdfHeader(d, lib).title == d.channel.value.title && RdfHeader(d, lib).link == d.channel.value.link
    ensures d.channel.Some? && lib.parseRssDate(d.channel.value.date).None? ==> RdfHeader(d, lib).updated == ZeroTime
    ensures d.channel.Some? && lib.parseRssDate(d.channel.value.date).Some? ==>
      RdfHeader(d, lib).updated == lib.parseRssDate(d.channel.value.date).value
  {
  }

  /** The body of the item loop: the description is unescaped and sanitised
      before the id check, and None is where the loop returns (nil, nil). */
  method BuildRdfStory(i: RdfItem, lib: Library) returns (res: Option<Story>)
    ensures res == RdfStory(i, lib)
  {
    var st := EmptyStory.(id := i.about, title := i.title, link := i.link, author := i.creator);
    var (content, summary) := lib.sanitize(lib.unescape(i.description));
    st := st.(content := content, summary := summary);
    if i.about == "" && i.link != "" {
      st := st.(id := i.link);
    } else if i.about == "" && i.link == "" {
      return None;
    }
    var t := lib.parseRssDate(i.date);
    if t.Some? {
      st := st.(published := t.value, updated := t.value, date := t.value.Unix());
    }
    res := Some(st);
  }

  /** The channel part of the RDF branch, skipped when the channel is missing. */
  method BuildRdfHeader(d: Rdf, lib: Library) returns (f: Feed)
    ensures f == RdfHeader(d, lib)
  {
    f := EmptyFeed;
    if d.channel.Some? {
      f := f.(title := d.channel.value.title);
      f := f.(link := d.channel.value.link);
      var t := lib.parseRssDate(d.channel.value.date);
      if t.Some? {
        f := f.(updated := t.value);
      }
    }
  }

  /** The RDF branch: the Feed, then the item loop, which returns at once (no
      feed, no stories) on an item with neither about nor link. */
  method MapRdf(d: Rdf, lib: Library) returns (res: Option<Parsed>)
    ensures res == RdfParsed(d, lib)
  {
    var f := BuildRdfHeader(d, lib);
    var s: seq<Story> := [];
    var n := 0;
    while n < |d.items|
      invariant 0 <= n <= |d.items| && |s| == n
      invariant forall k :: 0 <= k < n ==> RdfStory(d.items[k], lib) == Some(s[k])
    {
      var st := BuildRdfStory(d.items[n], lib);
      if st.None? {
        RdfParsedFailsAt(d, lib, n);
        return None;
      }
      s := s + [st.value];
      n := n + 1;
    }
    RdfParsedAll(d, lib, s);
    res := Some(Parsed(f, s));
  }
}
