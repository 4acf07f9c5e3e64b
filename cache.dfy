/**
 * The data source accessor (`getLeaderboard`) as a pure decision. The stored
 * record, the clock reading and the outcome of the network retrieval are
 * parameters; the result says what is returned, whether the network was
 * used, and what the store holds afterwards.
 */
module Cache {
  import opened Wrappers
  import opened Leaderboard

  /** The freshness window: five minutes, in milliseconds. */
  const CacheTime: int := 5 * 60 * 1000

  /** The stored record: a snapshot and the clock reading (milliseconds) when it was fetched. */
  datatype Cached = Cached(timestamp: int, leaderboard: Snapshot)

  /** A failed retrieval: the request failed or its body was not valid JSON. */
  datatype FetchError = FetchFailed

  /**
   * The effect of one call: the snapshot returned (or the failure that
   * propagates), whether a network retrieval happened, and the store's
   * record afterwards.
   */
  datatype Access = Access(result: Result<Snapshot, FetchError>, fetched: bool, stored: Option<Cached>)

  /** The cached snapshot, when a record exists and is younger than the window. */
  function Lookup(item: Option<Cached>, now: int): (r: Option<Snapshot>)
    ensures r.Some? <==> item.Some? && now - item.value.timestamp < 300000
    ensures r.Some? ==> r.value == item.value.leaderboard
  {
    if item.Some? && now - item.value.timestamp < CacheTime then Some(item.value.leaderboard) else None
  }

  /**
   * `getLeaderboard`: on a hit the cached snapshot is returned and nothing
   * is written; on a miss the retrieval's outcome is returned and, when it
   * succeeded, the store is overwritten with `(now, snapshot)`. A failed
   * retrieval leaves the store as it was.
   */
  function GetLeaderboard(item: Option<Cached>, now: int, fetch: Result<Snapshot, FetchError>): (a: Access)
    ensures !a.fetched <==> item.Some? && now - item.value.timestamp < 300000
    ensures !a.fetched ==> a.result == Success(item.value.leaderboard) && a.stored == item
    ensures a.fetched ==> a.result == fetch
    ensures a.fetched && fetch.Success? ==> a.stored == Some(Cached(now, fetch.value))
    ensures a.fetched && fetch.Failure? ==> a.stored == item
  {
    match Lookup(item, now)
    case Some(lb) => Access(Success(lb), false, item)
    case None =>
      match fetch
      case Success(lb) => Access(Success(lb), true, Some(Cached(now, lb)))
      case Failure(e) => Access(Failure(e), true, item)
  }

  /**
   * The window is strict: a record is used up to 4:59.999 after it was
   * written, and not at exactly 5:00 or at 5:01.
   */
  lemma FreshnessBoundary(c: Cached, fetch: Result<Snapshot, FetchError>)
    ensures GetLeaderboard(Some(c), c.timestamp + 299999, fetch) == Access(Success(c.leaderboard), false, Some(c))
    ensures GetLeaderboard(Some(c), c.timestamp + 300000, fetch).fetched
    ensures GetLeaderboard(Some(c), c.timestamp + 301000, fetch).fetched
  {
  }

  /** A record that is stale stays stale as the clock advances. */
  lemma StaleStaysStale(item: Option<Cached>, now: int, later: int,
                        f1: Result<Snapshot, FetchError>, f2: Result<Snapshot, FetchError>)
    requires now <= later
    requires GetLeaderboard(item, now, f1).fetched
    ensures GetLeaderboard(item, later, f2).fetched
  {
  }

  /**
   * A successful refresh serves the next calls: until the window has passed
   * they return the fetched snapshot without the network and leave the store
   * alone; from then on they fetch again.
   */
  lemma RefreshServesLaterCalls(item: Option<Cached>, now: int, lb: Snapshot, later: int,
                                fetch: Result<Snapshot, FetchError>)
    requires GetLeaderboard(item, now, Success(lb)).fetched
    requires now <= later
    ensures var stored := GetLeaderboard(item, now, Success(lb)).stored;
      && stored == Some(Cached(now, lb))
      && (later < now + 300000 ==> GetLeaderboard(stored, later, fetch) == Access(Success(lb), false, stored))
      && (later >= now + 300000 ==> GetLeaderboard(stored, later, fetch).fetched)
  {
  }

  /** No record at all always means a retrieval. */
  lemma EmptyStoreFetches(now: int, fetch: Result<Snapshot, FetchError>)
    ensures GetLeaderboard(None, now, fetch).fetched
    ensures GetLeaderboard(None, now, fetch).result == fetch
  {
  }
}
