/** The RSS 2.0 branch of ParseFeed. */
module RssMapper {
  import opened Wrappers
  import opened Canonical
  import opened Dialects
  import opened Externals
  import opened Dates
  import opened Sequences

  /** The feed's updated time: LastBuildDate, else PubDate, else the zero time. */
  function RssFeedDate(r: Rss, lib: Library): Time
  {
    match FirstParsed([r.lastBuildDate, r.pubDate], lib.parseRssDate)
    case Some(t) => t
    case None => ZeroTime
  }

  /** The Feed built from an RSS channel. */
  function RssHeader(r: Rss, lib: Library): Feed
  {
    Feed(r.title, r.link, RssFeedDate(r, lib))
  }

  /** An item's date: PubDate, else Date, else Published, else the current time. */
  function RssItemDate(i: RssItem, lib: Library, now: Time): Time
  {
    match FirstParsed([i.pubDate, i.date, i.published], lib.parseRssDate)
    case Some(t) => t
    case None => now
  }

  /** The minimum an RSS item needs; without it the whole parse fails. */
  predicate HasTitleOrDescription(i: RssItem)
  {
    i.title != "" || i.description != ""
  }

  /** The Story built from one RSS item, None for the hard failure.  An item whose
      title is empty keeps that empty title in the story, yet its description
      stands in for the title when choosing the content and the id. */
  function RssStory(i: RssItem, lib: Library, now: Time): Option<Story>
  {
    if !HasTitleOrDescription(i) then None
    else
      var (content, summary) :=
        if i.content != "" then lib.sanitize(i.content)
        else if i.description != "" then lib.sanitize(i.description)
        else ("", "");
      var t := RssItemDate(i, lib, now);
      Some(Story(
        id := if i.guid.Some? then i.guid.value else if i.title != "" then i.title else i.description,
        title := i.title,
        link := i.link,
        author := i.author,
        published := t,
        updated := t,
        date := t.Unix(),
        content := content,
        summary := summary))
  }

  /** Header and stories of an RSS document before the post-pass; None when any
      item fails. */
  function RssParsed(r: Rss, lib: Library, now: Time): Option<Parsed>
  {
    match CollectAll(r.items, (i: RssItem) => RssStory(i, lib, now))
    case None => None
    case Some(ss) => Some(Parsed(RssHeader(r, lib), ss))
  }

  /** One item with neither title nor description fails the whole document,
      whatever the other items hold; otherwise there is one story per item, in order. */
  lemma RssParsedCases(r: Rss, lib: Library, now: Time)
    ensures RssParsed(r, lib, now).None? <==>
      exists k :: 0 <= k < |r.items| && !HasTitleOrDescription(r.items[k])
    ensures RssParsed(r, lib, now).Some? ==>
      var p := RssParsed(r, lib, now).value;
      p.feed == RssHeader(r, lib) && |p.stories| == |r.items| &&
      forall k :: 0 <= k < |r.items| ==> RssStory(r.items[k], lib, now) == Some(p.stories[k])
  {
  }

  /** The loop's exit when every item succeeded. */
  lemma RssParsedAll(r: Rss, lib: Library, now: Time, s: seq<Story>)
    requires |s| == |r.items|
    requires forall k :: 0 <= k < |r.items| ==> RssStory(r.items[k], lib, now) == Some(s[k])
    ensures RssParsed(r, lib, now) == Some(Parsed(RssHeader(r, lib), s))
  {
    RssParsedCases(r, lib, now);
    assert RssParsed(r, lib, now).value.stories == s;
  }

  /** The loop's early return at a failing item. */
  lemma RssParsedFailsAt(r: Rss, lib: Library, now: Time, n: nat)
    requires n < |r.items| && RssStory(r.items[n], lib, now).None?
    ensures RssParsed(r, lib, now) == None
  {
    RssParsedCases(r, lib, now);
  }

  /** The fallbacks for an item whose title is empty but whose description is not. */
  lemma RssTitleFromDescription(i: RssItem, lib: Library, now: Time)
    requires i.title == "" && i.description != ""
    ensures RssStory(i, lib, now).Some?
    ensures RssStory(i, lib, now).value.title == ""
    ensures i.content == "" ==>
      (RssStory(i, lib, now).value.content, RssStory(i, lib, now).value.summary) == lib.sanitize(i.description)
    ensures i.guid.None? ==> RssStory(i, lib, now).value.id == i.description
  {
  }

  /** Content is preferred over description, the guid over the title. */
  lemma RssPreferences(i: RssItem, lib: Library, now: Time)
    requires HasTitleOrDescription(i)
    ensures RssStory(i, lib, now).Some?
    ensures var st := RssStory(i, lib, now).value;
      st.title == i.title && st.link == i.link && st.author == i.author &&
      (i.content != "" ==> (st.content, st.summary) == lib.sanitize(i.content)) &&
      (i.content == "" && i.description != "" ==> (st.content, st.summary) == lib.sanitize(i.description)) &&
      (i.content == "" && i.description == "" ==> st.content == "" && st.summary == "") &&
      (i.guid.Some? ==> st.id == i.guid.value) &&
      (i.guid.None? && i.title != "" ==> st.id == i.title)
  {
  }

  /** The item date is the first of PubDate, Date, Published that parses, else
      `now`; published, updated and the epoch mirror all carry it. */
  lemma RssItemDates(i: RssItem, lib: Library, now: Time)
    requires HasTitleOrDescription(i)
    ensures var st := RssStory(i, lib, now).value;
      st.published == st.updated && st.date == st.updated.Unix() &&
      (lib.parseRssDate(i.pubDate).Some? ==> st.updated == lib.parseRssDate(i.pubDate).value) &&
      (lib.parseRssDate(i.pubDate).None? && lib.parseRssDate(i.date).Some? ==>
         st.updated == lib.parseRssDate(i.date).value) &&
      ((lib.parseRssDate(i.pubDate).None? && lib.parseRssDate(i.date).None? &&
        lib.parseRssDate(i.published).Some?) ==> st.updated == lib.parseRssDate(i.published).value) &&
      ((lib.parseRssDate(i.pubDate).None? && lib.parseRssDate(i.date).None? &&
        lib.parseRssDate(i.published).None?) ==> st.updated == now)
  {
    FirstParsedOfThree(i.pubDate, i.date, i.published, lib.parseRssDate);
  }

  /** The feed date is LastBuildDate, else PubDate, else the zero time. */
  lemma RssFeedDates(r: Rss, lib: Library)
    ensures lib.parseRssDate(r.lastBuildDate).Some? ==> RssFeedDate(r, lib) == lib.parseRssDate(r.lastBuildDate).value
    ensures lib.parseRssDate(r.lastBuildDate).None? && lib.parseRssDate(r.pubDate).Some? ==>
      RssFeedDate(r, lib) == lib.parseRssDate(r.pubDate).value
    ensures lib.parseRssDate(r.lastBuildDate).None? && lib.parseRssDate(r.pubDate).None? ==>
      RssFeedDate(r, lib) == ZeroTime
  {
    FirstParsedOfTwo(r.lastBuildDate, r.pubDate, lib.parseRssDate);
  }

  /** The body of the item loop: builds the story field by field, reassigning the
      local copy's title to the description when the title is empty, and gives
      None where the loop returns (nil, nil). */
  method BuildRssStory(item: RssItem, lib: Library, now: Time) returns (res: Option<Story>)
    ensures res == RssStory(item, lib, now)
  {
    FirstParsedOfThree(item.pubDate, item.date, item.published, lib.parseRssDate);
    var i := item;
    var st := EmptyStory.(link := i.link, author := i.author);
    if i.title != "" {
      st := st.(title := i.title);
    } else if i.description != "" {
      i := i.(title := i.description);
    } else {
      return None;
    }
    if i.content != "" {
      var (content, summary) := lib.sanitize(i.content);
      st := st.(content := content, summary := summary);
    } else if i.title != "" && i.description != "" {
      var (content, summary) := lib.sanitize(i.description);
      st := st.(content := content, summary := summary);
    }
    if i.guid.Some? {
      st := st.(id := i.guid.value);
    } else {
      st := st.(id := i.title);
    }
    var t: Time;
    var d := lib.parseRssDate(i.pubDate);
    if d.Some? {
      t := d.value;
    } else {
      d := lib.parseRssDate(i.date);
      if d.Some? {
        t := d.value;
      } else {
        d := lib.parseRssDate(i.published);
        if d.Some? {
          t := d.value;
        } else {
          t := now;
        }
      }
    }
    st := st.(published := t, updated := t, date := t.Unix());
    res := Some(st);
  }

  /** The channel part of the RSS branch: title and link verbatim, then the
      LastBuildDate / PubDate fallback for the updated time. */
  method BuildRssHeader(r: Rss, lib: Library) returns (f: Feed)
    ensures f == RssHeader(r, lib)
  {
    FirstParsedOfTwo(r.lastBuildDate, r.pubDate, lib.parseRssDate);
    f := EmptyFeed;
    f := f.(title := r.title);
    f := f.(link := r.link);
    var t := lib.parseRssDate(r.lastBuildDate);
    if t.Some? {
      f := f.(updated := t.value);
    } else {
      t := lib.parseRssDate(r.pubDate);
      if t.Some? {
        f := f.(updated := t.value);
      }
    }
  }

  /** The RSS branch: the Feed, then the item loop, which returns at once (no
      feed, no stories) on an item with neither title nor description. */
  method MapRss(r: Rss, lib: Library, now: Time) returns (res: Option<Parsed>)
    ensures res == RssParsed(r, lib, now)
  {
    var f := BuildRssHeader(r, lib);
    var s: seq<Story> := [];
    var n := 0;
    while n < |r.items|
      invariant 0 <= n <= |r.items| && |s| == n
      invariant forall k :: 0 <= k < n ==> RssStory(r.items[k], lib, now) == Some(s[k])
    {
      var st := BuildRssStory(r.items[n], lib, now);
      if st.None? {
        RssParsedFailsAt(r, lib, now, n);
        return None;
      }
      s := s + [st.value];
      n := n + 1;
    }
    RssParsedAll(r, lib, now, s);
    res := Some(Parsed(f, s));
  }
}
