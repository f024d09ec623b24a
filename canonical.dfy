/** The canonical records every dialect is normalised into: one Feed header and
    an ordered list of Story records. */
module Canonical {

  /** One byte of the raw, still undecoded feed document. */
  newtype byte = x: int | 0 <= x < 256

  /** Nanoseconds within one second. */
  type Nanos = n: int | 0 <= n < 1_000_000_000

  /** An instant, as Go's time.Time: `sec` counts seconds since the Unix epoch
      and `nsec` the nanoseconds within that second. */
  datatype Time = Time(sec: int, nsec: Nanos) {
    /** Seconds since the Unix epoch, as Go's Time.Unix. */
    function Unix(): int { sec }
  }

  /** Go's zero time.Time{}: January 1 of year 1, 00:00:00 UTC. */
  const ZeroTime := Time(-62135596800, 0)

  /** One syndication source. */
  datatype Feed = Feed(title: string, link: string, updated: Time)

  /** The Go zero value Feed{}. */
  const EmptyFeed := Feed("", "", ZeroTime)

  /** One entry or item.  `date` is the epoch-seconds mirror of `updated`;
      `content` is the sanitised body and `summary` its plain-text digest. */
  datatype Story = Story(
    id: string,
    title: string,
    link: string,
    author: string,
    published: Time,
    updated: Time,
    date: int,
    content: string,
    summary: string)

  /** The Go zero value Story{}. */
  const EmptyStory := Story("", "", "", "", ZeroTime, ZeroTime, 0, "", "")

  /** A successful parse: the non-nil *Feed and the story slice. */
  datatype Parsed = Parsed(feed: Feed, stories: seq<Story>)
}
