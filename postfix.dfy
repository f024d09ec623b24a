/** parseFix: the post-pass that gives a link to every story that has none,
    taken from its id when the id parses as a URL. */
module PostFix {
  import opened Wrappers
  import opened Canonical

  /** One story after the pass; `urlString` is url.Parse followed by URL.String. */
  function FixStory(st: Story, urlString: string -> Option<string>): Story
  {
    if st.link == "" then
      match urlString(st.id)
      case Some(u) => st.(link := u)
      case None => st
    else st
  }

  /** The whole story list after the pass. */
  function FixAll(ss: seq<Story>, urlString: string -> Option<string>): seq<Story>
  {
    seq(|ss|, k requires 0 <= k < |ss| => FixStory(ss[k], urlString))
  }

  /** Only the link of a link-less story can change; it becomes the re-serialised
      id when the id parses and stays empty otherwise. */
  lemma FixStoryFields(st: Story, urlString: string -> Option<string>)
    ensures FixStory(st, urlString) == st.(link := FixStory(st, urlString).link)
    ensures st.link != "" ==> FixStory(st, urlString) == st
    ensures st.link == "" && urlString(st.id).Some? ==> FixStory(st, urlString).link == urlString(st.id).value
    ensures st.link == "" && urlString(st.id).None? ==> FixStory(st, urlString).link == ""
  {
  }

  /** A second pass changes nothing. */
  lemma FixStoryIdempotent(st: Story, urlString: string -> Option<string>)
    ensures FixStory(FixStory(st, urlString), urlString) == FixStory(st, urlString)
  {
  }

  /** A link-less story whose id is already in the URL parser's canonical form
      ends up with link == id. */
  lemma FixStoryIdAsLink(st: Story, urlString: string -> Option<string>)
    requires st.link == "" && urlString(st.id) == Some(st.id)
    ensures FixStory(st, urlString).link == st.id
  {
  }

  /** After the pass, a story is left without a link only when its id does not
      parse as a URL or re-serialises to the empty string. */
  lemma FixAllLinks(ss: seq<Story>, urlString: string -> Option<string>)
    ensures |FixAll(ss, urlString)| == |ss|
    ensures forall k :: 0 <= k < |ss| && FixAll(ss, urlString)[k].link == "" ==>
      urlString(ss[k].id) in {None, Some("")}
    ensures forall k :: 0 <= k < |ss| ==> FixAll(ss, urlString)[k].id == ss[k].id
  {
  }

  /** parseFix: one pass over the stories, updating each link-less story in
      place; the feed and the array itself are handed back unchanged. */
  method ParseFix(f: Feed, ss: array<Story>, urlString: string -> Option<string>) returns (rf: Feed, rs: array<Story>)
    modifies ss
    ensures rf == f && rs == ss
    ensures ss[..] == FixAll(old(ss[..]), urlString)
  {
    for n := 0 to ss.Length
      invariant forall k :: 0 <= k < n ==> ss[k] == FixStory(old(ss[k]), urlString)
      invariant forall k :: n <= k < ss.Length ==> ss[k] == old(ss[k])
    {
      if ss[n].link == "" {
        var u := urlString(ss[n].id);
        if u.Some? {
          ss[n] := ss[n].(link := u.value);
        }
      }
    }
    rf, rs := f, ss;
  }
}
