/**
 * The closure the scheduler runs every minute: every listening party whose
 * end time falls on today's date or earlier is marked inactive.
 */
module Schedule {
  import opened Wrappers
  import opened Records

  const SecondsPerDay: int := 86400

  /** The calendar day of an instant: `whereDate` compares dates, not instants.
      Division by a positive number rounds down, also before the epoch. */
  function Day(t: int): (d: int)
    ensures d * SecondsPerDay <= t < (d + 1) * SecondsPerDay
  {
    t / SecondsPerDay
  }

  /** `whereDate('end_time', '<=', now())`: a null end time never matches. It is
      a date comparison: the party has ended exactly when its end time is
      before the midnight that closes the day of `now`. */
  predicate Ended(p: ListeningParty, now: int): (b: bool)
    ensures b <==> p.endTime.Some? && p.endTime.value < (Day(now) + 1) * SecondsPerDay
  {
    p.endTime.Some? && Day(p.endTime.value) <= Day(now)
  }

  /** A party that ends later today is already due; one that ends tomorrow is not. */
  lemma EndedSameDay(p: ListeningParty, now: int)
    requires p.endTime.Some? && now <= p.endTime.value
    ensures Day(p.endTime.value) == Day(now) ==> Ended(p, now)
    ensures Day(p.endTime.value) > Day(now) ==> !Ended(p, now)
  {
  }

  lemma EndedExample()
    ensures Ended(ListeningParty(0, 0, Some(86399), true), 3600)
    ensures !Ended(ListeningParty(0, 0, Some(86400), true), 3600)
    ensures !Ended(ListeningParty(0, 0, None, true), 3600)
  {
  }

  /** A party after the update: inactive when it has ended, otherwise as it was;
      only `is_active` is written. */
  function Deactivated(p: ListeningParty, now: int): (r: ListeningParty)
    ensures r.isActive == (p.isActive && !Ended(p, now))
    ensures r.episodeId == p.episodeId && r.startTime == p.startTime && r.endTime == p.endTime
  {
    if Ended(p, now) then p.(isActive := false) else p
  }

  /** The table after one sweep at `now`. */
  function Sweep(parties: seq<ListeningParty>, now: int): (r: seq<ListeningParty>)
    ensures |r| == |parties|
    ensures forall i :: 0 <= i < |parties| ==> r[i] == Deactivated(parties[i], now)
  {
    seq(|parties|, i requires 0 <= i < |parties| => Deactivated(parties[i], now))
  }

  /**
   * `ListeningParty::whereDate('end_time', '<=', now())->update(['is_active' => false])`,
   * done row by row over the table.
   */
  method DeactivateEnded(parties: array<ListeningParty>, now: int)
    modifies parties
    ensures parties[..] == Sweep(old(parties[..]), now)
  {
    var i := 0;
    while i < parties.Length
      invariant 0 <= i <= parties.Length
      invariant forall k :: 0 <= k < i ==> parties[k] == Deactivated(old(parties[k]), now)
      invariant forall k :: i <= k < parties.Length ==> parties[k] == old(parties[k])
    {
      if Ended(parties[i], now) {
        parties[i] := parties[i].(isActive := false);
      }
      i := i + 1;
    }
  }

  /** After a sweep every ended party is inactive, and every other party keeps
      its flag. */
  lemma SweepDeactivatesEnded(parties: seq<ListeningParty>, now: int, i: nat)
    requires i < |parties|
    ensures Ended(parties[i], now) ==> !Sweep(parties, now)[i].isActive
    ensures !Ended(parties[i], now) ==> Sweep(parties, now)[i] == parties[i]
  {
  }

  /** The sweep never activates a party. */
  lemma SweepMonotone(parties: seq<ListeningParty>, now: int, i: nat)
    requires i < |parties|
    ensures Sweep(parties, now)[i].isActive ==> parties[i].isActive
  {
  }

  /** A sweep at a later time covers an earlier one, so the minute-by-minute
      runs add up to the last of them; with equal times, sweeping twice is
      sweeping once. */
  lemma SweepLaterCovers(parties: seq<ListeningParty>, earlier: int, later: int)
    requires earlier <= later
    ensures Sweep(Sweep(parties, earlier), later) == Sweep(parties, later)
  {
  }

  lemma SweepIdempotent(parties: seq<ListeningParty>, now: int)
    ensures Sweep(Sweep(parties, now), now) == Sweep(parties, now)
  {
  }
}
