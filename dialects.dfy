/** The three dialect trees the XML decoder produces, one field per element or
    attribute that the mappers read.  A nil pointer in the Go tree is None. */
module Dialects {
  import opened Wrappers

  // Atom (package atom)

  datatype AtomLink = AtomLink(rel: string, href: string)

  datatype AtomPerson = AtomPerson(name: string)

  datatype AtomText = AtomText(body: string)

  /** Dates are kept as the raw TimeStr text of the document. */
  datatype AtomEntry = AtomEntry(
    id: string,
    title: string,
    links: seq<AtomLink>,
    published: string,
    updated: string,
    author: Option<AtomPerson>,
    content: Option<AtomText>)

  datatype AtomFeed = AtomFeed(
    title: string,
    links: seq<AtomLink>,
    updated: string,
    entries: seq<AtomEntry>)

  // RSS 2.0 (package rssgo)

  /** `guid` is the text of the item's guid element, None when the element is absent. */
  datatype RssItem = RssItem(
    title: string,
    link: string,
    author: string,
    description: string,
    content: string,
    guid: Option<string>,
    pubDate: string,
    date: string,
    published: string)

  datatype Rss = Rss(
    title: string,
    link: string,
    lastBuildDate: string,
    pubDate: string,
    items: seq<RssItem>)

  // RSS 1.0 / RDF

  datatype RdfChannel = RdfChannel(title: string, link: string, date: string)

  datatype RdfItem = RdfItem(
    about: string,
    title: string,
    link: string,
    creator: string,
    description: string,
    date: string)

  datatype Rdf = Rdf(channel: Option<RdfChannel>, items: seq<RdfItem>)
}
