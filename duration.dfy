/**
 * How the ingestion job turns the latest episode of a feed into a number of
 * seconds: choosing the raw duration string, estimating it from the file
 * size when the feed gives none, and normalising the string, with a one-hour
 * default when the string cannot be read.
 */
module Duration {
  import opened Wrappers
  import opened Php
  import opened Feed

  /** The bitrate assumed for the size estimate: 128 kbit/s. */
  const Bitrate: nat := 128000

  /** `CarbonInterval::hour()`, used when the duration cannot be parsed. */
  const DefaultSeconds: int := 3600

  /** The message of the error logged when parsing fails. */
  const LogMessage: string := "Error parsing episode duration"

  /** The message of the exception thrown for a part count other than 2 or 3. */
  const UnexpectedFormatMessage: string := "Unexpected duration format"

  /** Why the duration string was rejected. */
  datatype ParseError =
    | UnexpectedFormat          // a colon string with neither 2 nor 3 parts
    | InvalidInterval(format: string)  // `CarbonInterval::createFromFormat` refused a part

  /** The `Log::error` call: its message and the context it carries. */
  datatype LogEntry = LogEntry(message: string, error: ParseError, rssUrl: string)

  /** The interval the job adds to the start time, and the error it logged, if any. */
  datatype Normalized = Normalized(seconds: int, logged: Option<LogEntry>)

  /**
   * `ceil(fileSize * 8 / 128000)`: the playing time of `fileSize` bytes at the
   * assumed bitrate, rounded up to a whole second.
   */
  function EstimateSeconds(fileSize: nat): (r: nat)
    ensures r * Bitrate >= fileSize * 8
    ensures r > 0 ==> (r - 1) * Bitrate < fileSize * 8
  {
    (fileSize * 8 + Bitrate - 1) / Bitrate
  }

  /** The estimate is the ceiling of `fileSize / 16000`. */
  lemma EstimateClosedForm(fileSize: nat)
    ensures EstimateSeconds(fileSize) == (fileSize + 15999) / 16000
  {
  }

  /** `$episodeLength` after line 50: the iTunes duration when the namespace is
      truthy, null otherwise. */
  function ItunesDuration(feed: Feed): (r: Option<string>)
    requires |feed.items| > 0
    ensures r.Some? <==> ItunesDeclared(feed)
    ensures r.Some? ==> r.value == feed.items[0].itunesDuration
  {
    if ItunesDeclared(feed) then Some(feed.items[0].itunesDuration) else None
  }

  /** PHP's `empty()` on a nullable string: null, "" or "0". */
  predicate IsEmptyOrNull(s: Option<string>): (b: bool)
    ensures b <==> s.None? || s.value == "" || s.value == "0"
  {
    s.None? || IsEmpty(s.value)
  }

  /** The raw duration string the job goes on to parse (lines 45-58). */
  function RawDuration(feed: Feed): (r: string)
    requires Processable(feed)
    ensures ItunesDeclared(feed) && !IsEmpty(feed.items[0].itunesDuration)
            ==> r == feed.items[0].itunesDuration
    ensures !ItunesDeclared(feed) || IsEmpty(feed.items[0].itunesDuration)
            ==> IsCanonical(r) && ':' !in r
                && IntCast(r) == EstimateSeconds(IntCast(feed.items[0].enclosureLength))
  {
    var fromItunes := ItunesDuration(feed);
    if IsEmptyOrNull(fromItunes) then
      var n := EstimateSeconds(IntCast(feed.items[0].enclosureLength));
      DigitsColonFree(DecimalString(n));
      IntCastDecimalString(n);
      DecimalString(n)
    else
      fromItunes.value
  }

  /** A part `CarbonInterval::createFromFormat` accepts for a unit: an optional
      minus sign and a run of digits, nothing else; so it never holds a colon. */
  predicate IsIntegerPart(p: string): (b: bool)
    ensures b ==> |p| > 0 && ':' !in p
  {
    IsDigits(p) || (|p| >= 2 && p[0] == '-' && IsDigits(p[1..]))
  }

  /** The number of units such a part adds to the interval; it is negative only
      with a minus sign. */
  function PartValue(p: string): (r: int)
    requires IsIntegerPart(p)
    ensures r < 0 ==> p[0] == '-'
  {
    if p[0] == '-' then -(DigitsValue(p[1..]) as int) else DigitsValue(p)
  }

  /** Carbon reads a part as the same number PHP's `(int)` cast reads from it. */
  lemma PartValueIntCast(p: string)
    requires IsIntegerPart(p)
    ensures PartValue(p) == IntCast(p)
  {
    if p[0] == '-' {
      var d := p[1..];
      assert d[..|d|] == d;
      LeadingDigitsExact(d, |d|);
    } else {
      IntCastDigits(p);
    }
  }

  /** A part count other than 2 or 3 throws; a part that is not an integer
      makes Carbon throw. */
  function ParseInterval(raw: string): (r: Result<int, ParseError>)
    ensures ':' !in raw ==> r == Success(IntCast(raw))
    ensures r.Failure? ==> ':' in raw
    ensures r == Failure(UnexpectedFormat) ==> Colons(raw) >= 3
  {
    if ':' in raw then
      var parts := Explode(raw);
      ColonGivesTwoParts(raw);
      ExplodeLength(raw);
      if |parts| == 2 then
        if IsIntegerPart(parts[0]) && IsIntegerPart(parts[1])
        then Success(PartValue(parts[0]) * 60 + PartValue(parts[1]))
        else Failure(InvalidInterval("i:s"))
      else if |parts| == 3 then
        if IsIntegerPart(parts[0]) && IsIntegerPart(parts[1]) && IsIntegerPart(parts[2])
        then Success(PartValue(parts[0]) * 3600 + PartValue(parts[1]) * 60 + PartValue(parts[2]))
        else Failure(InvalidInterval("H:i:s"))
      else
        Failure(UnexpectedFormat)
    else
      Success(IntCast(raw))
  }

  /** The try/catch of lines 61-82: a parse failure is logged with the feed url
      and replaced by one hour; the default comes only from a string with a colon. */
  function Normalize(raw: string, rssUrl: string): (r: Normalized)
    ensures r.logged.Some? ==> r.seconds == DefaultSeconds && ':' in raw
    ensures r.logged.Some? ==> r.logged.value.message == LogMessage && r.logged.value.rssUrl == rssUrl
  {
    match ParseInterval(raw)
    case Success(seconds) => Normalized(seconds, None)
    case Failure(e) => Normalized(DefaultSeconds, Some(LogEntry(LogMessage, e, rssUrl)))
  }

  /** The interval for the latest episode of a feed. */
  function EpisodeDuration(feed: Feed, rssUrl: string): (r: Normalized)
    requires Processable(feed)
    ensures r.logged.Some? ==> ItunesDeclared(feed) && ':' in feed.items[0].itunesDuration
    ensures r.logged.Some? ==> r.seconds == DefaultSeconds
  {
    Normalize(RawDuration(feed), rssUrl)
  }

  /** The text of the exception carried in the log context. The message
      Carbon gives when it refuses a part is not part of this model. */
  function ExceptionMessage(e: ParseError): (r: Option<string>)
    ensures r.Some? <==> e.UnexpectedFormat?
    ensures r.Some? ==> r.value == "Unexpected duration format"
  {
    match e
    case UnexpectedFormat => Some(UnexpectedFormatMessage)
    case InvalidInterval(_) => None
  }

  // ---------------------------------------------------------------------
  // Normalisation

  /** "M:S" with integer parts is M minutes and S seconds. */
  lemma NormalizeMinutesSeconds(m: string, s: string, rssUrl: string)
    requires IsIntegerPart(m) && IsIntegerPart(s)
    ensures Normalize(m + ":" + s, rssUrl) == Normalized(PartValue(m) * 60 + PartValue(s), None)
  {
    ExplodeCons(m, s);
    ExplodeColonFree(s);
    assert (m + ":" + s)[|m|] == ':';
  }

  /** "H:M:S" with integer parts is H hours, M minutes and S seconds. */
  lemma NormalizeHoursMinutesSeconds(h: string, m: string, s: string, rssUrl: string)
    requires IsIntegerPart(h) && IsIntegerPart(m) && IsIntegerPart(s)
    ensures Normalize(h + ":" + m + ":" + s, rssUrl)
         == Normalized(PartValue(h) * 3600 + PartValue(m) * 60 + PartValue(s), None)
  {
    assert h + ":" + m + ":" + s == h + ":" + (m + ":" + s);
    ExplodeCons(h, m + ":" + s);
    ExplodeCons(m, s);
    ExplodeColonFree(s);
    assert (h + ":" + m + ":" + s)[|h|] == ':';
  }

  /** "1:02:03" is 3723 seconds. */
  lemma NormalizeExampleHours(rssUrl: string)
    ensures Normalize("1:02:03", rssUrl) == Normalized(3723, None)
  {
    assert PartValue("1") == 1 && PartValue("02") == 2 && PartValue("03") == 3 by {
      assert "02"[..1] == "0" && "03"[..1] == "0";
    }
    assert "1:02:03" == "1" + ":" + "02" + ":" + "03";
    NormalizeHoursMinutesSeconds("1", "02", "03", rssUrl);
  }

  /** "45:30" is 2730 seconds. */
  lemma NormalizeExampleMinutes(rssUrl: string)
    ensures Normalize("45:30", rssUrl) == Normalized(2730, None)
  {
    assert PartValue("45") == 45 && PartValue("30") == 30 by {
      assert "45"[..1] == "4" && "4"[..0] == "";
      assert "30"[..1] == "3" && "3"[..0] == "";
    }
    assert "45:30" == "45" + ":" + "30";
    NormalizeMinutesSeconds("45", "30", rssUrl);
  }

  /** Minutes are not capped at 59 and a part may be negative: "90:-30" is
      5370 seconds. */
  lemma NormalizeExampleSignedPart(rssUrl: string)
    ensures Normalize("90:-30", rssUrl) == Normalized(5370, None)
  {
    assert PartValue("90") == 90 && PartValue("-30") == -30 by {
      assert "90"[..1] == "9" && "9"[..0] == "";
      assert "-30"[1..] == "30";
      assert "30"[..1] == "3" && "3"[..0] == "";
    }
    assert "90:-30" == "90" + ":" + "-30";
    NormalizeMinutesSeconds("90", "-30", rssUrl);
  }

  /** Three or more colons (four or more parts) give exactly the default, with
      the "unexpected format" error logged against the feed url. */
  lemma NormalizeTooManyParts(raw: string, rssUrl: string)
    requires Colons(raw) >= 3
    ensures Normalize(raw, rssUrl)
         == Normalized(DefaultSeconds, Some(LogEntry(LogMessage, UnexpectedFormat, rssUrl)))
    ensures ExceptionMessage(Normalize(raw, rssUrl).logged.value.error) == Some("Unexpected duration format")
  {
    ColonsCount(raw);
    ExplodeLength(raw);
  }

  /** A colon string with 2 or 3 parts of which one is not an integer gives
      the default, with Carbon's refusal logged: "5:" and "1:2:x" are refused. */
  lemma NormalizeInvalidPart(raw: string, rssUrl: string, k: nat)
    requires Colons(raw) == 1 || Colons(raw) == 2
    requires k < |Explode(raw)| && !IsIntegerPart(Explode(raw)[k])
    ensures Normalize(raw, rssUrl).seconds == DefaultSeconds
    ensures Normalize(raw, rssUrl).logged.Some?
    ensures Normalize(raw, rssUrl).logged.value.error.InvalidInterval?
  {
    ColonsCount(raw);
    ExplodeLength(raw);
  }

  /** Without a colon the string is cast to an integer; nothing is logged. */
  lemma NormalizeNoColon(raw: string, rssUrl: string)
    requires ':' !in raw
    ensures Normalize(raw, rssUrl) == Normalized(IntCast(raw), None)
  {
  }

  /** Parsing succeeds exactly when the string has no colon, or has one or two
      colons and every part is an integer. */
  lemma NormalizeLoggedIff(raw: string, rssUrl: string)
    ensures Normalize(raw, rssUrl).logged.None? <==>
      (Colons(raw) == 0 ||
       ((Colons(raw) == 1 || Colons(raw) == 2) &&
        forall i :: 0 <= i < |Explode(raw)| ==> IsIntegerPart(Explode(raw)[i])))
  {
    ColonsCount(raw);
    ExplodeLength(raw);
  }

  /** The no-colon branch never yields the default: "abc" gives 0 seconds. */
  lemma NormalizeExampleLetters(rssUrl: string)
    ensures Normalize("abc", rssUrl) == Normalized(0, None)
  {
  }

  /** "12abc" gives 12 seconds: the cast stops at the first letter. */
  lemma NormalizeExampleDigitPrefix(rssUrl: string)
    ensures Normalize("12abc", rssUrl) == Normalized(12, None)
  {
    assert ':' !in "12abc";
    assert "12abc" == "12" + "abc";
    assert "12"[..1] == "1" && "1"[..0] == "";
    IntCastDigitPrefix("12", "abc");
    NormalizeNoColon("12abc", rssUrl);
  }

  /** "90" gives 90 seconds. */
  lemma NormalizeExampleNumber(rssUrl: string)
    ensures Normalize("90", rssUrl) == Normalized(90, None)
  {
    assert ':' !in "90";
    assert "90"[..1] == "9" && "9"[..0] == "";
    IntCastDigits("90");
    NormalizeNoColon("90", rssUrl);
  }

  // ---------------------------------------------------------------------
  // Source selection

  /** A truthy `itunes` namespace and a non-empty duration: that duration is parsed. */
  lemma ItunesDurationUsed(feed: Feed, rssUrl: string)
    requires Processable(feed)
    requires ItunesDeclared(feed) && !IsEmpty(feed.items[0].itunesDuration)
    ensures EpisodeDuration(feed, rssUrl) == Normalize(feed.items[0].itunesDuration, rssUrl)
  {
  }

  /** Otherwise (no namespace, a falsy URI, a duration "" or "0") the size estimate
      is used, and it goes through the seconds branch: never the default. */
  lemma EstimateUsed(feed: Feed, rssUrl: string)
    requires Processable(feed)
    requires !ItunesDeclared(feed) || IsEmpty(feed.items[0].itunesDuration)
    ensures EpisodeDuration(feed, rssUrl)
         == Normalized(EstimateSeconds(IntCast(feed.items[0].enclosureLength)), None)
  {
  }

  /** A 1,000,000-byte enclosure with no iTunes namespace plays for 63 seconds. */
  lemma EstimateExampleOneMegabyte(title: string, url: string, rssUrl: string)
    ensures EpisodeDuration(Feed("", "", map[], [Item(title, url, "1000000", "")]), rssUrl)
         == Normalized(63, None)
  {
    var f := Feed("", "", map[], [Item(title, url, "1000000", "")]);
    assert EstimateSeconds(1000000) == 63;
    IntCastOneMillion();
    assert !ItunesDeclared(f);
    EstimateUsed(f, rssUrl);
  }

  lemma IntCastOneMillion()
    ensures IntCast("1000000") == 1000000
  {
    IntCastDigits("1000000");
    assert "1"[..0] == "";
    assert "10"[..1] == "1";
    assert "100"[..2] == "10";
    assert "1000"[..3] == "100";
    assert "10000"[..4] == "1000";
    assert "100000"[..5] == "10000";
    assert "1000000"[..6] == "100000";
  }

  /** An enclosure without a length, under a declared namespace whose duration
      is "0" (empty to PHP), gives 0 seconds. */
  lemma EstimateExampleMissingLength(title: string, url: string, ns: string, rssUrl: string)
    ensures EpisodeDuration(Feed("", "", map["itunes" := ns], [Item(title, url, "", "0")]), rssUrl)
         == Normalized(0, None)
  {
  }
}
