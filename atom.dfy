/** The Atom branch of ParseFeed: the feed header and one story per entry. */
module AtomMapper {
  import opened Canonical
  import opened Dialects
  import opened Externals
  import opened Dates

  /** The feed's site link: the href of the first link whose rel is not
      "self", and empty when every link is a self link. */
  function FeedLink(links: seq<AtomLink>): (href: string)
    ensures (forall k :: 0 <= k < |links| ==> links[k].rel == "self") ==> href == ""
    ensures forall k ::
      0 <= k < |links| && links[k].rel != "self" && (forall j :: 0 <= j < k ==> links[j].rel == "self")
      ==> href == links[k].href
  {
    if links == [] then ""
    else if links[0].rel != "self" then links[0].href
    else
      assert forall j :: 0 <= j < |links| - 1 ==> links[1..][j] == links[j + 1];
      FeedLink(links[1..])
  }

  /** The Feed built from an Atom document. */
  function AtomHeader(a: AtomFeed, lib: Library): Feed
  {
    Feed(a.title, FeedLink(a.links), if a.updated != "" then ParseAtomDate(a.updated, lib) else ZeroTime)
  }

  /** The Story built from one Atom entry. */
  function AtomStory(e: AtomEntry, lib: Library): Story
  {
    var updated := ParseAtomDate(e.updated, lib);
    var (content, summary) := if e.content.Some? then lib.sanitize(e.content.value.body) else ("", "");
    Story(
      id := e.id,
      title := e.title,
      link := if |e.links| > 0 then e.links[0].href else "",
      author := if e.author.Some? then e.author.value.name else "",
      published := ParseAtomDate(e.published, lib),
      updated := updated,
      date := updated.Unix(),
      content := content,
      summary := summary)
  }

  /** Header and stories of an Atom document, before the post-pass. */
  function AtomParsed(a: AtomFeed, lib: Library): Parsed
  {
    Parsed(AtomHeader(a, lib), seq(|a.entries|, k requires 0 <= k < |a.entries| => AtomStory(a.entries[k], lib)))
  }

  lemma AtomHeaderFields(a: AtomFeed, lib: Library)
    ensures AtomHeader(a, lib).title == a.title
    ensures a.updated == "" ==> AtomHeader(a, lib).updated == ZeroTime
    ensures a.updated != "" && lib.timeParse(AtomDateFormat, a.updated).None? ==> AtomHeader(a, lib).updated == ZeroTime
    ensures a.updated != "" && lib.timeParse(AtomDateFormat, a.updated).Some? ==>
      AtomHeader(a, lib).updated == lib.timeParse(AtomDateFormat, a.updated).value
  {
  }

  lemma AtomStoryFields(e: AtomEntry, lib: Library)
    ensures AtomStory(e, lib).id == e.id && AtomStory(e, lib).title == e.title
    ensures |e.links| == 0 ==> AtomStory(e, lib).link == ""
    ensures |e.links| > 0 ==> AtomStory(e, lib).link == e.links[0].href
    ensures e.author.None? ==> AtomStory(e, lib).author == ""
    ensures e.author.Some? ==> AtomStory(e, lib).author == e.author.value.name
    ensures AtomStory(e, lib).published == ParseAtomDate(e.published, lib)
    ensures AtomStory(e, lib).updated == ParseAtomDate(e.updated, lib)
    ensures e.content.None? ==> AtomStory(e, lib).content == "" && AtomStory(e, lib).summary == ""
    ensures e.content.Some? ==>
      (AtomStory(e, lib).content, AtomStory(e, lib).summary) == lib.sanitize(e.content.value.body)
    ensures AtomStory(e, lib).date == AtomStory(e, lib).updated.Unix()
    ensures lib.timeParse(AtomDateFormat, e.updated).None? ==>
      AtomStory(e, lib).updated == ZeroTime && AtomStory(e, lib).date == -62135596800
  {
  }

  /** The channel part of the Atom branch: the title, the updated time when the
      document has one, and the loop that picks the first non-self link. */
  method BuildAtomHeader(a: AtomFeed, lib: Library) returns (f: Feed)
    ensures f == AtomHeader(a, lib)
  {
    f := EmptyFeed;
    f := f.(title := a.title);
    if a.updated != "" {
      f := f.(updated := ParseAtomDate(a.updated, lib));
    }
    var n := 0;
    while n < |a.links|
      invariant 0 <= n <= |a.links|
      invariant forall j :: 0 <= j < n ==> a.links[j].rel == "self"
      invariant f == Feed(a.title, "", AtomHeader(a, lib).updated)
    {
      if a.links[n].rel != "self" {
        f := f.(link := a.links[n].href);
        break;
      }
      n := n + 1;
    }
  }

  /** The body of the entry loop: the story built field by field. */
  method BuildAtomStory(i: AtomEntry, lib: Library) returns (st: Story)
    ensures st == AtomStory(i, lib)
  {
    st := EmptyStory.(
      id := i.id,
      title := i.title,
      published := ParseAtomDate(i.published, lib),
      updated := ParseAtomDate(i.updated, lib));
    if |i.links| > 0 {
      st := st.(link := i.links[0].href);
    }
    if i.author.Some? {
      st := st.(author := i.author.value.name);
    }
    if i.content.Some? {
      var (content, summary) := lib.sanitize(i.content.value.body);
      st := st.(content := content, summary := summary);
    }
    st := st.(date := st.updated.Unix());
  }

  /** The Atom branch: the Feed, then one Story per entry, in entry order. */
  method MapAtom(a: AtomFeed, lib: Library) returns (p: Parsed)
    ensures p.feed == AtomHeader(a, lib)
    ensures |p.stories| == |a.entries|
    ensures forall k :: 0 <= k < |a.entries| ==> p.stories[k] == AtomStory(a.entries[k], lib)
  {
    var f := BuildAtomHeader(a, lib);
    var s: seq<Story> := [];
    var m := 0;
    while m < |a.entries|
      invariant 0 <= m <= |a.entries| && |s| == m
      invariant forall k :: 0 <= k < m ==> s[k] == AtomStory(a.entries[k], lib)
    {
      var st := BuildAtomStory(a.entries[m], lib);
      s := s + [st];
      m := m + 1;
    }
    p := Parsed(f, s);
  }
}
