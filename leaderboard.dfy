/**
 * The data the userscript reads from a private leaderboard's JSON document,
 * and the log it derives from it.
 */
module Leaderboard {
  import opened Wrappers

  /** One star record: the completion time of one part, in whole seconds since the epoch. */
  datatype GetStar = GetStar(getStarTs: int)

  /** The per-day completion entry: part 1 and part 2 are each present or absent. */
  datatype DayLevel = DayLevel(part1: Option<GetStar>, part2: Option<GetStar>)

  /**
   * A leaderboard member. `name` is None for an anonymous user. The scores,
   * `last_start_ts` and `stars` fields of the JSON member are not read by the
   * script and are not modelled.
   */
  datatype Member = Member(
    id: string,
    name: Option<string>,
    completionDayLevel: map<int, DayLevel>)

  /**
   * A leaderboard snapshot. `members` holds the member records in the order
   * in which the JSON object's values are enumerated. The `owner_id` field
   * is not read by the script and is not modelled.
   */
  datatype Snapshot = Snapshot(event: string, members: seq<Member>)

  /** The two parts of a day's puzzle. */
  type Part = p: int | p == 1 || p == 2 witness 1

  /** The star record of `part` in a day's completion entry, if present. */
  function StarOf(lv: DayLevel, part: Part): Option<GetStar>
  {
    if part == 1 then lv.part1 else lv.part2
  }

  /** One scoring event; `timestamp` is in milliseconds since the epoch. */
  datatype LogEntry = LogEntry(timestamp: int, member: Member, day: int, part: Part)

  /** The derived log: the event identifier and the entries, newest first. */
  datatype Log = Log(event: string, entries: seq<LogEntry>)

  /** Member identifiers are unique within a snapshot. */
  predicate UniqueIds(ms: seq<Member>)
  {
    forall i, j :: 0 <= i < j < |ms| ==> ms[i].id != ms[j].id
  }
}
