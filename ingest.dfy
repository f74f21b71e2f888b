/**
 * The queued job `ProcessPodcastUrl`: it reads a feed, works out how long the
 * latest episode is, links the episode to the feed's podcast and fixes the
 * listening party's end time. The feed arrives already parsed.
 */
module Ingest {
  import opened Wrappers
  import opened Feed
  import opened Duration
  import opened Records

  /** The episode after the job: linked to `podcastId`, with the item's title
      and enclosure url. */
  function LinkedEpisode(e: Episode, podcastId: nat, item: Item): (r: Episode)
    ensures r.podcastId == Some(podcastId)
    ensures r.title == item.title && r.mediaUrl == item.enclosureUrl
  {
    e.(podcastId := Some(podcastId), title := item.title, mediaUrl := item.enclosureUrl)
  }

  /** The party after the job: it ends `seconds` after it starts; its episode,
      start time and active flag are untouched. */
  function ScheduledParty(p: ListeningParty, seconds: int): (r: ListeningParty)
    ensures r.endTime == Some(p.startTime + seconds)
    ensures r.episodeId == p.episodeId && r.startTime == p.startTime && r.isActive == p.isActive
  {
    p.(endTime := Some(p.startTime + seconds))
  }

  /** The podcast key the job upserts for a feed fetched from `rssUrl`. */
  function PodcastKey(feed: Feed, rssUrl: string): (key: Podcast)
    ensures key.title == feed.title && key.artworkUrl == feed.imageUrl && key.rssUrl == rssUrl
  {
    Podcast(feed.title, feed.imageUrl, rssUrl)
  }

  /** Running the writes again with the same values changes nothing more: the
      podcast table, the episode and the party are where the first run left them. */
  lemma SaveIdempotent(key: Podcast, item: Item, seconds: int, rows: seq<Podcast>, e: Episode, p: ListeningParty)
    ensures var rows1 := UpsertPodcast(rows, key);
            var e1 := LinkedEpisode(e, FindPodcast(rows1, key).value, item);
            var p1 := ScheduledParty(p, seconds);
            var rows2 := UpsertPodcast(rows1, key);
            rows2 == rows1
            && LinkedEpisode(e1, FindPodcast(rows2, key).value, item) == e1
            && ScheduledParty(p1, seconds) == p1
  {
  }

  class ProcessPodcastUrl {
    const rssUrl: string
    /** The listening party and the episode the job was dispatched for. */
    const partyId: nat
    const episodeId: nat

    constructor (rssUrl: string, partyId: nat, episodeId: nat)
      ensures this.rssUrl == rssUrl && this.partyId == partyId && this.episodeId == episodeId
    {
      this.rssUrl := rssUrl;
      this.partyId := partyId;
      this.episodeId := episodeId;
    }

    /**
     * `handle()` on a feed already fetched from `rssUrl`: upserts the podcast,
     * links and renames the episode, sets the party's end time, and returns
     * what was logged when the duration could not be parsed.
     */
    method Handle(feed: Feed, db: Database) returns (logged: Option<LogEntry>)
      requires Processable(feed)
      requires partyId < db.parties.Length && episodeId < db.episodes.Length
      modifies db, db.episodes, db.parties
      ensures db.podcasts == UpsertPodcast(old(db.podcasts), PodcastKey(feed, rssUrl))
      ensures db.episodes[episodeId].podcastId.Some?
      ensures var id := db.episodes[episodeId].podcastId.value;
              id < |db.podcasts| && db.podcasts[id] == PodcastKey(feed, rssUrl)
              && db.episodes[episodeId] == LinkedEpisode(old(db.episodes[episodeId]), id, feed.items[0])
      ensures FindPodcast(db.podcasts, PodcastKey(feed, rssUrl)) == db.episodes[episodeId].podcastId
      ensures var d := EpisodeDuration(feed, rssUrl);
              logged == d.logged && db.parties[partyId] == ScheduledParty(old(db.parties[partyId]), d.seconds)
      ensures forall i :: 0 <= i < db.episodes.Length && i != episodeId ==> db.episodes[i] == old(db.episodes[i])
      ensures forall i :: 0 <= i < db.parties.Length && i != partyId ==> db.parties[i] == old(db.parties[i])
    {
      var duration := EpisodeDuration(feed, rssUrl);
      Save(PodcastKey(feed, rssUrl), feed.items[0], duration.seconds, db);
      logged := duration.logged;
    }

    /** Lines 88-103: the three writes, for an interval already computed. */
    method Save(key: Podcast, item: Item, seconds: int, db: Database)
      requires partyId < db.parties.Length && episodeId < db.episodes.Length
      modifies db, db.episodes, db.parties
      ensures db.podcasts == UpsertPodcast(old(db.podcasts), key)
      ensures db.episodes[episodeId].podcastId.Some?
      ensures var id := db.episodes[episodeId].podcastId.value;
              id < |db.podcasts| && db.podcasts[id] == key
              && db.episodes[episodeId] == LinkedEpisode(old(db.episodes[episodeId]), id, item)
      ensures FindPodcast(db.podcasts, key) == db.episodes[episodeId].podcastId
      ensures db.parties[partyId] == ScheduledParty(old(db.parties[partyId]), seconds)
      ensures forall i :: 0 <= i < db.episodes.Length && i != episodeId ==> db.episodes[i] == old(db.episodes[i])
      ensures forall i :: 0 <= i < db.parties.Length && i != partyId ==> db.parties[i] == old(db.parties[i])
    {
      var podcastId := db.UpdateOrCreatePodcast(key);
      db.episodes[episodeId] := LinkedEpisode(db.episodes[episodeId], podcastId, item);
      db.parties[partyId] := ScheduledParty(db.parties[partyId], seconds);
    }
  }
}
