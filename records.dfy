/**
 * The three tables the ingestion job writes and the `updateOrCreate` lookup
 * on the podcast table. A podcast's id is its position in the table.
 */
module Records {
  import opened Wrappers

  /** A `podcasts` row; (title, artwork_url, rss_url) is the key the job upserts on. */
  datatype Podcast = Podcast(title: string, artworkUrl: string, rssUrl: string)

  /** An `episodes` row: the podcast it belongs to, its title and its media url. */
  datatype Episode = Episode(podcastId: Option<nat>, title: string, mediaUrl: string)

  /** A `listening_parties` row; times are seconds since the epoch, and
      `endTime` is null until the job has computed it. */
  datatype ListeningParty = ListeningParty(
    episodeId: nat,
    startTime: int,
    endTime: Option<int>,
    isActive: bool
  )

  /** The first row equal to `key`, the one `updateOrCreate` finds. */
  function FindPodcast(rows: seq<Podcast>, key: Podcast): (r: Option<nat>)
    ensures r.None? <==> key !in rows
    ensures r.Some? ==> r.value < |rows| && rows[r.value] == key && key !in rows[..r.value]
  {
    if rows == [] then None
    else if rows[0] == key then Some(0)
    else
      match FindPodcast(rows[1..], key)
      case None => None
      case Some(i) =>
        assert rows[..i + 1] == [rows[0]] + rows[1..][..i];
        Some(i + 1)
  }

  /** The podcast table after `Podcast::updateOrCreate(key)` with no further
      values: unchanged when a row with the key exists, else one row longer. */
  function UpsertPodcast(rows: seq<Podcast>, key: Podcast): (r: seq<Podcast>)
    ensures rows <= r && |r| <= |rows| + 1
    ensures key in rows ==> r == rows
    ensures key !in rows ==> |r| == |rows| + 1
    ensures key in r
  {
    if key in rows then rows else rows + [key]
  }

  /** Upserting the same key twice leaves the table as one upsert does, and the
      row found is the same. */
  lemma UpsertIdempotent(rows: seq<Podcast>, key: Podcast)
    ensures UpsertPodcast(UpsertPodcast(rows, key), key) == UpsertPodcast(rows, key)
    ensures FindPodcast(UpsertPodcast(rows, key), key).Some?
  {
  }

  /** The row the upsert resolves to: an existing row keeps its id, a new one
      gets the next id. */
  lemma UpsertFinds(rows: seq<Podcast>, key: Podcast)
    ensures key in rows ==> FindPodcast(UpsertPodcast(rows, key), key) == FindPodcast(rows, key)
    ensures key !in rows ==> FindPodcast(UpsertPodcast(rows, key), key) == Some(|rows|)
  {
  }

  /** The database the job and the sweep work on. Episodes and parties are
      only updated here, never added, so their tables are arrays. */
  class Database {
    var podcasts: seq<Podcast>
    const episodes: array<Episode>
    const parties: array<ListeningParty>

    constructor (podcasts: seq<Podcast>, episodes: array<Episode>, parties: array<ListeningParty>)
      ensures this.podcasts == podcasts && this.episodes == episodes && this.parties == parties
    {
      this.podcasts := podcasts;
      this.episodes := episodes;
      this.parties := parties;
    }

    /** `Podcast::updateOrCreate(key)`: finds the first row with the key or
        appends one, and returns the id of that row. */
    method UpdateOrCreatePodcast(key: Podcast) returns (id: nat)
      modifies this
      ensures podcasts == UpsertPodcast(old(podcasts), key)
      ensures id < |podcasts| && podcasts[id] == key
      ensures FindPodcast(podcasts, key) == Some(id)
    {
      UpsertFinds(podcasts, key);
      match FindPodcast(podcasts, key)
      case Some(i) =>
        id := i;
      case None =>
        id := |podcasts|;
        podcasts := podcasts + [key];
    }
  }
}
