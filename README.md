# Listening party: feed ingestion and deactivation sweep

A Dafny model of the two pieces of behaviour in the listening-party
application:

- the queued job `ProcessPodcastUrl`. It takes the latest episode of a podcast's
  RSS feed and works out how long that episode plays. It uses the iTunes
  `<duration>` when there is one. Otherwise it estimates the time from the
  enclosure's byte size at 128 kbit/s. The duration string is normalised to
  seconds: `M:S`, `H:M:S` or a plain number, with a one-hour default when a
  colon string cannot be read. The job then writes three records. It upserts
  the podcast on (title, artwork url, feed url). It links and renames the
  episode. It sets the listening party's end time to its start time plus the
  duration.
- the closure scheduled every minute. It marks inactive every listening party
  whose end time falls on today's date or earlier.

Modules:

- `Php` (php.dfy): the PHP string semantics the job relies on. This covers the
  `(int)` cast of a string, `empty()`, the string form of an integral float,
  and `explode(':')` with its inverse `implode(':')`.
- `Feed` (feed.dfy): the feed, already parsed, as a datatype.
- `Duration` (duration.dfy): choosing the raw duration, the size estimate and
  the normalisation. These are pure functions with lemmas.
- `Records` (records.dfy): the rows of the three tables, the podcast lookup and
  upsert, and a `Database` class holding the tables.
- `Ingest` (ingest.dfy): the job as a class whose `Handle` method updates the
  database in place.
- `Schedule` (schedule.dfy): the sweep as a loop over the array of parties.
- `Wrappers` (wrappers.dfy): `Option` and `Result`.

Times are integer seconds. A date is the day index `t / 86400`, which rounds
down; that is the date in UTC. A podcast's id is its position in the podcast
table.

Behaviour of the code a reader might not expect:

- A duration string without a colon goes through PHP's `(int)` cast, which
  never fails. So `"abc"` gives 0 seconds with nothing logged. The one-hour
  default comes only from a string with a colon.
- There is no "one part" case: a string with a colon always explodes into at
  least two parts.
- The sweep compares calendar dates (`whereDate`), not instants. A party that
  ends later today is already deactivated.
- The sweep does not filter on `is_active`. Re-running it leaves the modelled
  fields as they were. It still stamps `updated_at` on every matched row,
  including rows that were already inactive.

## Model

| member | source | states |
|---|---|---|
| `Php.IntCast` | app/Jobs/ProcessPodcastUrl.php:74 | `(int)` of a string: a negative result comes only from a minus sign after the leading whitespace; `IntCastSkipsWhitespace`, `IntCastSigned`, `IntCastDigitPrefix` and `IntCastNoNumber` give its value after any leading whitespace, for a signed or unsigned digit run and for a string with no number |
| `Php.IsEmpty` | app/Jobs/ProcessPodcastUrl.php:53 | `empty()` holds only for `""` and `"0"`, and both cast to 0; an empty duration is never cast but replaced by the size estimate (`EstimateUsed`) |
| `Php.LeadingDigits` | app/Jobs/ProcessPodcastUrl.php:74 | the digits `(int)` reads: the result is the length of the longest all-digit prefix (every character before it is a digit, the next one is not) |
| `Php.IntCastDigitPrefix` | app/Jobs/ProcessPodcastUrl.php:74 | `(int)` of a digit run followed by a non-digit is the value of the run, so `"12abc"` casts to 12 |
| `Php.IntCastSkipsWhitespace` | app/Jobs/ProcessPodcastUrl.php:74 | leading whitespace does not change the cast, so a pretty-printed `"\n 2730\n"` casts as `"2730\n"` does |
| `Php.IntCastSigned` | app/Jobs/ProcessPodcastUrl.php:74 | a minus or plus sign before a digit run gives the run's value negated or as it is, whatever non-digit follows |
| `Php.IntCastNoNumber` | app/Jobs/ProcessPodcastUrl.php:74 | a string that starts with neither whitespace, a sign nor a digit casts to 0 |
| `Php.IntCastDigits` | app/Jobs/ProcessPodcastUrl.php:54 | a digit string, such as an enclosure length, casts to the number it denotes |
| `Php.DecimalString` | app/Jobs/ProcessPodcastUrl.php:57 | the string form of the estimate is a non-empty digit run in canonical form: no leading zero unless the number is 0 |
| `Php.DecimalStringValue` | app/Jobs/ProcessPodcastUrl.php:57 | reading the decimal form of `n` back as digits gives `n` |
| `Php.CanonicalDecimalString` | app/Jobs/ProcessPodcastUrl.php:57 | a digit string without a leading zero is the decimal form of its own value (the other half of the round trip) |
| `Php.IntCastDecimalString` | app/Jobs/ProcessPodcastUrl.php:74 | `(int)` of the decimal form of `n` is `n` |
| `Php.Explode` | app/Jobs/ProcessPodcastUrl.php:64 | `explode(':')` always yields at least one part |
| `Php.ExplodeLength` | app/Jobs/ProcessPodcastUrl.php:64-67 | the part count that selects the format is the number of colons plus one |
| `Php.ExplodePartsColonFree` | app/Jobs/ProcessPodcastUrl.php:64 | no part contains a colon |
| `Php.ImplodeExplode` | app/Jobs/ProcessPodcastUrl.php:64 | joining the parts with colons gives the original string back |
| `Php.ExplodeImplode` | app/Jobs/ProcessPodcastUrl.php:64 | exploding colon-free parts joined with colons gives the parts back |
| `Php.ColonGivesTwoParts` | app/Jobs/ProcessPodcastUrl.php:62-64 | a string containing a colon explodes into at least two parts, so the single-part case cannot occur |
| `Feed.ItunesNamespace` | app/Jobs/ProcessPodcastUrl.php:43 | `$namespaces['itunes'] ?? null`: the URI bound to the `itunes` prefix, and none exactly when the prefix is not in the map |
| `Feed.ItunesDeclared` | app/Jobs/ProcessPodcastUrl.php:48 | `if ($itunesNamespace)`: the prefix is bound to a URI other than `""` and `"0"` |
| `Duration.ItunesDuration` | app/Jobs/ProcessPodcastUrl.php:45-50 | `$episodeLength` after the namespace test: the first item's iTunes duration exactly when the namespace is truthy, null otherwise |
| `Duration.IsEmptyOrNull` | app/Jobs/ProcessPodcastUrl.php:53 | `empty()` on the nullable duration: null, `""` or `"0"` |
| `Duration.RawDuration` | app/Jobs/ProcessPodcastUrl.php:45-58 | with a truthy namespace and a non-empty duration the raw string is that duration; otherwise it is a canonical, colon-free digit string that casts to the size estimate |
| `Duration.ParseInterval` | app/Jobs/ProcessPodcastUrl.php:62-75 | a string without a colon parses as its `(int)` cast; every failure comes from a string with a colon; the unexpected-format failure only from three or more colons |
| `Duration.EpisodeDuration` | app/Jobs/ProcessPodcastUrl.php:45-82 | whenever an error is logged, the duration came from iTunes and contains a colon, and the interval is 3600 s |
| `Duration.EstimateSeconds` | app/Jobs/ProcessPodcastUrl.php:54-56 | the estimate is the ceiling of size*8/128000: the smallest whole number of seconds covering the file at 128 kbit/s |
| `Duration.EstimateClosedForm` | app/Jobs/ProcessPodcastUrl.php:55-56 | the estimate equals `(size + 15999) / 16000` |
| `Duration.IsIntegerPart` | app/Jobs/ProcessPodcastUrl.php:66-68 | the parts `CarbonInterval::createFromFormat` accepts for a unit: an optional minus and digits, so never empty and never holding a colon; `NormalizeMinutesSeconds` and `NormalizeInvalidPart` show which strings it lets through |
| `Duration.PartValue` | app/Jobs/ProcessPodcastUrl.php:66-68 | the units a part adds, negative only with a minus sign; `NormalizeMinutesSeconds` and `NormalizeHoursMinutesSeconds` give the interval it builds |
| `Duration.PartValueIntCast` | app/Jobs/ProcessPodcastUrl.php:66-68 | every part Carbon accepts is read as the same number PHP's `(int)` cast gives |
| `Duration.ExceptionMessage` | app/Jobs/ProcessPodcastUrl.php:70-79 | `$e->getMessage()`: "Unexpected duration format" exactly for the part-count exception, with Carbon's own text not modelled; `NormalizeTooManyParts` shows it reaches the log |
| `Duration.Normalize` | app/Jobs/ProcessPodcastUrl.php:60-82 | when an error is logged the interval is exactly 3600 s, the string contains a colon, and the log carries the message and the feed url |
| `Duration.NormalizeMinutesSeconds` | app/Jobs/ProcessPodcastUrl.php:65-66 | `"M:S"` with integer parts gives `M*60+S` seconds and logs nothing |
| `Duration.NormalizeHoursMinutesSeconds` | app/Jobs/ProcessPodcastUrl.php:67-68 | `"H:M:S"` with integer parts gives `H*3600+M*60+S` seconds and logs nothing |
| `Duration.NormalizeExampleHours` | app/Jobs/ProcessPodcastUrl.php:67-68 | `"1:02:03"` gives 3723 seconds |
| `Duration.NormalizeExampleMinutes` | app/Jobs/ProcessPodcastUrl.php:65-66 | `"45:30"` gives 2730 seconds |
| `Duration.NormalizeExampleSignedPart` | app/Jobs/ProcessPodcastUrl.php:65-66 | `"90:-30"` gives 5370 seconds: minutes are not capped at 59 and a part may be negative |
| `Duration.NormalizeTooManyParts` | app/Jobs/ProcessPodcastUrl.php:69-81 | three or more colons give exactly 3600 s, with the "Unexpected duration format" error logged against the feed url |
| `Duration.NormalizeInvalidPart` | app/Jobs/ProcessPodcastUrl.php:65-81 | two or three parts, one of them not an integer: 3600 s and Carbon's refusal logged |
| `Duration.NormalizeNoColon` | app/Jobs/ProcessPodcastUrl.php:72-75 | a string without a colon gives its `(int)` cast and logs nothing |
| `Duration.NormalizeLoggedIff` | app/Jobs/ProcessPodcastUrl.php:60-82 | nothing is logged if and only if the string has no colon, or has one or two colons and only integer parts |
| `Duration.NormalizeExampleLetters` | app/Jobs/ProcessPodcastUrl.php:72-75 | `"abc"` gives 0 seconds with nothing logged, not the default |
| `Duration.NormalizeExampleDigitPrefix` | app/Jobs/ProcessPodcastUrl.php:72-75 | `"12abc"` gives 12 seconds with nothing logged |
| `Duration.NormalizeExampleNumber` | app/Jobs/ProcessPodcastUrl.php:72-75 | `"90"` gives 90 seconds with nothing logged |
| `Duration.ItunesDurationUsed` | app/Jobs/ProcessPodcastUrl.php:43-50 | a truthy `itunes` namespace URI and a non-empty duration: that duration is what gets normalised |
| `Duration.EstimateUsed` | app/Jobs/ProcessPodcastUrl.php:53-58 | with no namespace, a falsy URI, or a duration of `""` or `"0"`, the interval is the size estimate and nothing is logged |
| `Duration.EstimateExampleOneMegabyte` | app/Jobs/ProcessPodcastUrl.php:53-58 | a 1,000,000-byte enclosure without an iTunes namespace gives 63 seconds |
| `Duration.EstimateExampleMissingLength` | app/Jobs/ProcessPodcastUrl.php:53-58 | an enclosure without a length, with an iTunes duration `"0"`, gives 0 seconds |
| `Records.FindPodcast` | app/Jobs/ProcessPodcastUrl.php:88-92 | the row found is the first equal to the key; there is none exactly when the key is absent |
| `Records.UpsertPodcast` | app/Jobs/ProcessPodcastUrl.php:88-92 | the table only grows, by at most one row, not at all if the key is present, and afterwards holds the key |
| `Records.UpsertIdempotent` | app/Jobs/ProcessPodcastUrl.php:88-92 | a second upsert of the same key changes nothing |
| `Records.UpsertFinds` | app/Jobs/ProcessPodcastUrl.php:88-94 | an existing podcast keeps its id; a new one gets the next id |
| `Records.Database.UpdateOrCreatePodcast` | app/Jobs/ProcessPodcastUrl.php:88-92 | the table becomes the upserted table and the returned id is that of the first row with the key |
| `Ingest.PodcastKey` | app/Jobs/ProcessPodcastUrl.php:88-92 | the upsert key is the channel title, the channel image url and the url the job was dispatched with |
| `Ingest.LinkedEpisode` | app/Jobs/ProcessPodcastUrl.php:94-99 | the episode belongs to the given podcast and has the item's title and enclosure url |
| `Ingest.ScheduledParty` | app/Jobs/ProcessPodcastUrl.php:84 | end time is start time plus the interval; episode, start time and active flag are unchanged |
| `Ingest.SaveIdempotent` | app/Jobs/ProcessPodcastUrl.php:88-103 | doing the three writes a second time with the same key, item and interval leaves the table, the episode and the party as they were |
| `Ingest.ProcessPodcastUrl.constructor` | app/Jobs/ProcessPodcastUrl.php:20-24 | the job keeps the feed url, the party and the episode it was given |
| `Ingest.ProcessPodcastUrl.Handle` | app/Jobs/ProcessPodcastUrl.php:29-103 | the podcast table is upserted with (channel title, image url, feed url); the episode links to the first row with that key, the one `updateOrCreate` finds, and takes the first item's title and url; the party's end time is start plus the normalised duration; what was logged is returned; no other row changes |
| `Ingest.ProcessPodcastUrl.Save` | app/Jobs/ProcessPodcastUrl.php:88-103 | the upsert, the episode linked to the first row with the key and renamed, and the party's new end time, for an interval already computed; no other row changes |
| `Schedule.Day` | routes/console.php:7 | the date of an instant: the day whose midnight-to-midnight span contains it |
| `Schedule.Ended` | routes/console.php:7 | a party has ended exactly when its end time is set and lies before the midnight that closes today |
| `Schedule.EndedSameDay` | routes/console.php:7 | an end time later today counts as ended; one on a later date does not |
| `Schedule.EndedExample` | routes/console.php:7 | at 01:00, an end time of 23:59:59 that day has ended; midnight of the next day and a null end time have not |
| `Schedule.Deactivated` | routes/console.php:7 | a party is active afterwards exactly when it was active and had not ended; its other fields are unchanged |
| `Schedule.Sweep` | routes/console.php:7 | the table keeps its length and each row is updated on its own |
| `Schedule.DeactivateEnded` | routes/console.php:6-8 | the array after the loop is the sweep of the array before it |
| `Schedule.SweepDeactivatesEnded` | routes/console.php:7 | every ended party is inactive afterwards; every other party is left as it was |
| `Schedule.SweepMonotone` | routes/console.php:7 | the sweep never makes a party active |
| `Schedule.SweepLaterCovers` | routes/console.php:6-8 | a sweep after an earlier sweep gives the same table as the later sweep alone |
| `Schedule.SweepIdempotent` | routes/console.php:7 | two sweeps at the same time equal one |

## Left out

- Fetching the feed and parsing the XML (`simplexml_load_file`, `getNamespaces`, `children`). This is network I/O and a foreign library. The feed is an already-parsed `Feed` value. Each field holds the string SimpleXML gives, and an absent element reads as `""`.
- Malformed or unreachable feeds, and feeds without items. These make the source fail on a null chain. `Handle` requires `Processable(feed)`: there is a first item.
- Negative enclosure lengths. When the size estimate is used, `Processable` also requires the length to cast to a number of at least 0.
- Carbon internals. A colon part is accepted when it is an optional minus followed by digits, which is what `createFromFormat` reads for each unit. The text of Carbon's own exception is not modelled (`ExceptionMessage` gives none for it). Instants and intervals are integer seconds, with no time zones or daylight-saving shifts.
- Integer width and PHP float details. `(int)` here reads whitespace, a sign and a digit prefix. It does not saturate at `PHP_INT_MAX` and does not read exponent notation such as `"1e3"`. The estimate is integer ceiling division. `ceil` on floats, and the exponent string form of very large floats, are not modelled.
- `Log::error`. This is I/O. It is represented only by the `LogEntry` value `Handle` returns.
- Queueing, retries, model serialisation, the `everyMinute` cadence, and concurrent runs of the job for the same feed. These are infrastructure the code does not implement.
- Eloquent timestamps, which the model does not carry. `updateOrCreate` and `update` write `created_at`/`updated_at` when they insert or change a row. The sweep's mass update sets `updated_at` on every row it matches, on every run. Database ids are positions in the tables.
- Database collation and row order. The podcast lookup is exact string equality, while a case-insensitive collation would match more rows. "First" means the lowest id, while `where(...)->first()` has no `ORDER BY` and may return any matching row.
- app/Models/ListeningParty.php. It declares casts and relations, not behaviour. Only its fields (`episode_id`, `start_time`, `end_time`, `is_active`) appear, in `Records.ListeningParty`.
