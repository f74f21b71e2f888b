/**
 * An RSS podcast feed as the ingestion job reads it, already parsed. Every
 * value is the string form SimpleXML gives for it: an element or attribute
 * that is absent reads as "".
 */
module Feed {
  import opened Wrappers
  import opened Php

  /** One `<item>` of the channel. */
  datatype Item = Item(
    title: string,            // <title>
    enclosureUrl: string,     // <enclosure url="...">
    enclosureLength: string,  // <enclosure length="...">, a byte count
    itunesDuration: string    // <duration> in the namespace bound to the `itunes` prefix
  )

  /** The channel: its title, its image url, the namespaces used anywhere in the
      document, as `getNamespaces(true)` gives them (prefix to namespace URI),
      and its items in document order. */
  datatype Feed = Feed(
    title: string,
    imageUrl: string,
    namespaces: map<string, string>,
    items: seq<Item>
  )

  /** `$namespaces['itunes'] ?? null`: the URI bound to the `itunes` prefix, if any. */
  function ItunesNamespace(feed: Feed): (r: Option<string>)
    ensures r.None? <==> "itunes" !in feed.namespaces
    ensures r.Some? ==> r.value == feed.namespaces["itunes"]
  {
    if "itunes" in feed.namespaces then Some(feed.namespaces["itunes"]) else None
  }

  /** `if ($itunesNamespace)`: a URI is truthy unless it is "" or "0". */
  predicate ItunesDeclared(feed: Feed): (b: bool)
    ensures b <==> "itunes" in feed.namespaces && feed.namespaces["itunes"] != ""
                   && feed.namespaces["itunes"] != "0"
  {
    var ns := ItunesNamespace(feed);
    ns.Some? && !IsEmpty(ns.value)
  }

  /** The feeds the job can process: there is a first item (the latest
      episode), and when the size estimate is needed, its enclosure length
      does not cast to a negative number. */
  predicate Processable(feed: Feed)
  {
    |feed.items| > 0
    && ((!ItunesDeclared(feed) || IsEmpty(feed.items[0].itunesDuration))
        ==> IntCast(feed.items[0].enclosureLength) >= 0)
  }
}
