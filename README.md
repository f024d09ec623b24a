# Feed normalisation engine of goread, in Dafny

This project models the feed-normalisation core of goread: `ParseFeed`, `ParseAtomDate`
and `parseFix` in `goapp/utils.go`. `ParseFeed` takes the raw bytes of a fetched feed.
It tries three structural XML decodes in a fixed order: Atom, then RSS 2.0, then
RSS 1.0/RDF. It commits to the first decode that succeeds and maps that dialect's tree
to one canonical `Feed` header plus an ordered list of `Story` records. Three outcomes
abort the whole call with `(nil, nil)`:

- an RSS item with neither title nor description;
- an RDF item with neither `about` nor link;
- no dialect decoding at all.

`parseFix` then fills in the link of every story that has none, using the story's id
when that id parses as a URL.

Layout:

- `wrappers.dfy`: `Option`.
- `canonical.dfy`: `Time` (with Go's zero time, whose `Unix()` is -62135596800), `Feed`, `Story`, `Parsed`.
- `dialects.dfy`: the Atom, RSS and RDF trees the decoder produces.
- `externals.dfy`: the library calls, passed in as function values.
  - `Decoders` holds the three structural decodes.
  - `Library` holds `time.Parse`, `rssgo.ParseRssDate`, `Sanitize`, `html.UnescapeString` and `url.Parse` + `URL.String`.
- `sequences.dfy`: `CollectAll`, the all-or-nothing item loop.
- `dates.dfy`: `ParseAtomDate` and the ordered date-field fallback.
- `atom.dfy`, `rss.dfy`, `rdf.dfy`: the three branches of `ParseFeed`.
  - Each branch has a specification function per story and for the whole document.
  - Each branch has methods that build the `Feed` and each `Story` field by field, as the Go code does.
  - The item loops return early on a hard failure.
- `postfix.dfy`: `parseFix`, as an in-place loop over an array of stories.
- `parse_feed.dfy`: the dispatcher `ParseFeed`, its specification `Parse`, and the lemmas about whole calls: priority, failure cases, independence from the clock, and repaired links.

`time.Now()` is the parameter `now`. Every method is proved equal to a specification
function. The lemmas then state the source's promises about those functions.

Where the natural reading of the feature and the code differ, the model follows the code:

- RSS item with an empty title and a non-empty description: the code copies the description into the loop's local copy of the item, not into the story. So `Story.title` stays empty. The description is still used as the fallback title when choosing the content and the id (`RssTitleFromDescription`).
- RDF item whose date does not parse: `Published` and `Updated` stay at the zero time but `Date` stays 0. So `Date == Updated.Unix()` holds for an RDF story exactly when its date parsed (`RdfStoryDates`). For Atom and RSS it always holds (`ParsedStories`).
- The id is **not** always copied into the link: the link becomes the id only when `url.Parse` + `String` gives the id back unchanged (`FixStoryIdAsLink`).

## Model

| member | source | states |
|---|---|---|
| `Dates.ParseAtomDate` | goapp/utils.go:96-102 | a parse error with the Atom layout gives the zero time, not an error; otherwise the parsed time |
| `Dates.FirstParsed` | goapp/utils.go:184-192 | the result is None exactly when no candidate parses; otherwise it is the parse of a candidate all of whose predecessors fail to parse |
| `Dates.FirstParsedOfTwo` | goapp/utils.go:153-159 | with two candidates, the first wins whenever it parses |
| `Dates.FirstParsedOfThree` | goapp/utils.go:186-192 | with three candidates, they are tried strictly in order |
| `Sequences.CollectAll` | goapp/utils.go:161-198 | the item loop fails as a whole exactly when some item fails; otherwise one result per item, in item order |
| `AtomMapper.FeedLink` | goapp/utils.go:117-122 | the feed link is the href of the first link whose rel is not "self", and empty when every link is a self link |
| `AtomMapper.AtomHeaderFields` | goapp/utils.go:113-122 | the feed's updated time is set only when the document's updated text is non-empty; an unparsable one leaves the zero time |
| `AtomMapper.AtomStoryFields` | goapp/utils.go:125-140 | id and title are copied; Published and Updated are ParseAtomDate of the entry's texts; the story link is the first link's href or empty; content and summary are the sanitised body, and stay empty without a content body; the author is the author's name, and empty without an author; Date equals Updated.Unix(), so -62135596800 for an unparsed updated date |
| `AtomMapper.BuildAtomHeader` | goapp/utils.go:105-122 | the header built by field assignments and the link loop with `break` is the Atom header |
| `AtomMapper.BuildAtomStory` | goapp/utils.go:125-140 | the story built field by field is the entry's Atom story |
| `AtomMapper.MapAtom` | goapp/utils.go:112-142 | exactly one story per entry, in entry order, each the entry's Atom story, under the Atom header |
| `RssMapper.RssParsedCases` | goapp/utils.go:161-198 | the RSS mapping fails exactly when some item has both an empty title and an empty description, whatever the other items hold; otherwise one story per item, in order |
| `RssMapper.RssParsedAll` | goapp/utils.go:161-200 | when every item yields a story, the mapping is the header with those stories |
| `RssMapper.RssParsedFailsAt` | goapp/utils.go:166-173 | one failing item makes the whole RSS mapping fail |
| `RssMapper.RssTitleFromDescription` | goapp/utils.go:166-183 | with an empty title and a non-empty description, the story's title stays empty, the description is sanitised when there is no content, and the description is the id when there is no guid |
| `RssMapper.RssPreferences` | goapp/utils.go:162-183 | content is preferred over description (a non-empty content is sanitised; with no content a non-empty description is sanitised), the guid over the title; title, link and author are copied; with no content and no description, content and summary stay empty |
| `RssMapper.RssItemDates` | goapp/utils.go:184-195 | the item date is the first of PubDate, Date and Published that parses, else `now`; Published == Updated and Date == Updated.Unix() |
| `RssMapper.RssFeedDates` | goapp/utils.go:153-159 | the feed date is LastBuildDate, else PubDate, else the zero time |
| `RssMapper.BuildRssStory` | goapp/utils.go:161-195 | the loop body, including the reassignment of the local item title and the early exit, computes the item's RSS story or the failure |
| `RssMapper.BuildRssHeader` | goapp/utils.go:151-159 | the header built field by field is the RSS header |
| `RssMapper.MapRss` | goapp/utils.go:150-198 | the RSS branch, with its early return from the loop, computes the RSS mapping |
| `RdfMapper.RdfParsedCases` | goapp/utils.go:217-239 | the RDF mapping fails exactly when some item has both an empty about and an empty link; otherwise one story per item, in order |
| `RdfMapper.RdfParsedAll` | goapp/utils.go:217-241 | when every item yields a story, the mapping is the header with those stories |
| `RdfMapper.RdfParsedFailsAt` | goapp/utils.go:225-230 | one item without an id makes the whole RDF mapping fail |
| `RdfMapper.RdfStoryFields` | goapp/utils.go:218-230 | content and summary are always the sanitised, unescaped description; the id is about when non-empty, else the link; title, link and creator are copied |
| `RdfMapper.RdfStoryDates` | goapp/utils.go:231-237 | Published == Updated; an unparsed date leaves the zero time and Date 0; Date == Updated.Unix() exactly when the date parsed |
| `RdfMapper.RdfHeaderFields` | goapp/utils.go:207-215 | a missing channel leaves the feed's title, link and updated time at their zero values; otherwise title and link are copied, a parsed channel date becomes the updated time and an unparsed one leaves the zero time |
| `RdfMapper.BuildRdfStory` | goapp/utils.go:218-238 | the loop body, with its early exit, computes the item's RDF story or the failure |
| `RdfMapper.BuildRdfHeader` | goapp/utils.go:207-215 | the header built field by field is the RDF header |
| `RdfMapper.MapRdf` | goapp/utils.go:206-239 | the RDF branch, with its early return from the loop, computes the RDF mapping |
| `PostFix.FixStoryFields` | goapp/utils.go:251-258 | only the link of a story with an empty link changes; it becomes the re-serialised id when the id parses and stays empty otherwise |
| `PostFix.FixStoryIdempotent` | goapp/utils.go:251-258 | a second post-pass changes nothing |
| `PostFix.FixStoryIdAsLink` | goapp/utils.go:252-256 | a link-less story whose id re-serialises to itself ends with link == id |
| `PostFix.FixAllLinks` | goapp/utils.go:250-260 | the pass keeps the number and order of the stories and their ids; a story still without a link has an id that does not parse as a URL or re-serialises to "" |
| `PostFix.ParseFix` | goapp/utils.go:250-261 | the in-place loop leaves each array slot as the fixed version of its old story; the feed and the array are returned unchanged |
| `FeedParser.FinishWithFix` | goapp/utils.go:144 | `return parseFix(&f, s)` gives the mapped feed with the fixed stories |
| `FeedParser.ParseFeed` | goapp/utils.go:104-248 | the dispatcher computes `Parse`: Atom, else RSS, else RDF, else (nil, nil), with the post-pass on success |
| `FeedParser.AtomPriority` | goapp/utils.go:112-145 | once the Atom decode succeeds, the call succeeds with one story per entry and the Atom header, and the result depends neither on the RSS and RDF decoders nor on the clock |
| `FeedParser.RssBeforeRdf` | goapp/utils.go:147-201 | once the RSS decode succeeds, the RDF decoder is irrelevant, even when the RSS mapping fails |
| `FeedParser.ParseFailure` | goapp/utils.go:104-248 | the call returns (nil, nil) exactly when no dialect decodes, or the committed RSS has an item without title and description, or the committed RDF has an item without about and link |
| `FeedParser.NoDialectMatches` | goapp/utils.go:244-247 | all three decodes failing gives (nil, nil) |
| `FeedParser.RssStoryClockFree` | goapp/utils.go:184-192 | an RSS item with a parseable date field does not depend on the clock |
| `FeedParser.ParseClockFree` | goapp/utils.go:184-195 | re-running the parse gives the same result for any clock reading, unless the RSS path is taken and some item has no parseable date |
| `FeedParser.ParseRerun` | goapp/utils.go:104-248 | for any two clock readings the parse succeeds or fails alike, with the same feed, the same number of stories, and each pair of stories equal apart from Published, Updated and Date |
| `FeedParser.ParsedStories` | goapp/utils.go:124-144 | after a successful parse, a story without a link has an id that is no URL (or re-serialises to ""); on the Atom and RSS paths every Date equals Updated.Unix() |

## Left out

- `serveError`, `Includes`, the package variables, `init` and `includes` (goapp/utils.go:36-92): HTTP plumbing, CDN and dev-server configuration and a datastore lookup. None of it is feed logic.
- XML structural decoding and `CharsetReader`: each decode is an opaque function in `Decoders` that either returns a tree or fails. The structural error values are only logged in the source, so the model does not keep them.
- `time.Parse`, `rssgo.ParseRssDate`, `Sanitize`, `html.UnescapeString` and `url.Parse` / `URL.String` are foreign library code. They are uninterpreted function values in `Library`, so no lemma depends on their grammars.
- RssItemDate, MapRss: the source calls `time.Now()` afresh for each RSS item without a parseable date (goapp/utils.go:191, inside the loop at 161). The model uses one reading, `now`, for all those calls, so it does not capture two such items getting different times.
- `time.Now()` is the parameter `now`. `c.Errorf` diagnostics are omitted because they never affect control flow.
- `Sanitize` is a pure function value here, so whether it was called is visible only through the fields it fills. The RDF code calls it even for the item that then fails. That ordering appears in `BuildRdfStory`'s statement order but in no contract.
- Go pointers: stories are values held in an `array<Story>` that `ParseFix` updates in place. Aliasing between `*Story` pointers is not modelled. The `*Feed` is returned as a value.
- `Story.Date` is Go's `int64`; the model uses an unbounded `int`. Overflow cannot happen for seconds since the epoch.
- `Time` carries seconds and nanoseconds only. Go's location and monotonic reading are not modelled.
- The `Feed` and `Story` declarations live outside `goapp/utils.go` and are not part of this model. Only the fields this code sets are modelled.
- An Atom entry is a `*Entry` in Go. A nil entry would cause a panic, but the decoder never produces one, so entries are modelled as values.
