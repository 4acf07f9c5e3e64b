# Advent of Code leaderboard log — a verified model

The userscript `aoc-leaderboard-log.user.ts` adds an event log to an Advent of
Code private leaderboard page. It runs three steps once per page load:

1. **Data source accessor** (`getLeaderboard`). It reads a cached copy of
   the leaderboard JSON from local storage and uses it if it is less than
   five minutes old. Otherwise it fetches the document and overwrites the
   cached record with `(now, leaderboard)`.
2. **Log builder** (`leaderboardToLog`). It flattens members → days →
   parts 1 and 2 into one log entry per star actually present, drops the
   absent parts and sorts the entries newest first.
3. **Log renderer** (`addLogToPage`). It walks the sorted entries. It emits
   a date header whenever the formatted date changes, then a row per entry.
   A row holds the time, a link to the day's puzzle, a star styled by part,
   and the user's name.

This project models the three steps in Dafny and proves their properties:

- `wrappers.dfy`: the Option and Result types.
- `leaderboard.dfy`: the data model. A snapshot, its members, per-day
  completion entries, star records, log entries and the log.
- `log_builder.dfy`: the log builder as pure functions. This file also holds
  soundness, completeness, exactly-once, count, sort and permutation lemmas.
- `cache.dfy`: the accessor's freshness decision as a pure function of the
  stored record, the clock reading and the retrieval's outcome.
- `text.dfy`: decimal formatting of integers and `padStart`, with the
  decoders that invert them.
- `render.dfy`: the renderer as a method with a loop that builds the
  sequence of header and row items. It is proved equal to the pure
  function `Plan`, built from `PlanUpTo`, `Segment` and `NeedsHeader`. This
  file also holds the lemmas about header placement and the row labels.

Modelling choices:

- Star times are integer seconds. Timestamps are integer milliseconds, equal
  to 1000 × seconds. Day keys are integers.
- `members` is the sequence of member records in the order
  `Object.values` enumerates them.
- A member's days are a `map<int, DayLevel>`, flattened in ascending key
  order. For keys 0 ≤ k < 2^32 − 1 (array-index property names) this
  is the order in which JavaScript enumerates them.
- The sort is a functional insertion sort. It is stable, but no contract
  promises a particular order for equal timestamps.
- A log entry holds its member by value. In the source it holds a reference.
- The date and time formatters are parameters of type `int -> string`,
  applied to the timestamp in milliseconds.
- The fragment is a `seq<Item>`: `Header(date)` for an `h2`, and
  `Row(RowLabels(time, dayLabel, href, starClass, user))` for a row `div`.
  The fixed separators (`" "` after the time, `" "` between link and star,
  the `*` glyph, `" "` before the user) and the `privboard-row` class are
  constant. They are described in `render.dfy`, not stored in the item.
- The specification functions for the renderer (`Segment`, `PlanUpTo`) take
  the row-label function as a parameter. Grouping does not depend on what a
  row holds. `Plan` instantiates them with the source's labels (`RowOf`).

## Model

| member | source | states |
|---|---|---|
| `LogBuilder.LeaderboardToLog` | aoc-leaderboard-log.user.ts:77-101 | the log's event is the snapshot's event; its entries are newest first and are a permutation of the filtered flat-mapped entries |
| `LogBuilder.SortNewestFirst` | aoc-leaderboard-log.user.ts:95 | the result's timestamps never increase along it, and it is a rearrangement (same multiset) of the input |
| `LogBuilder.Insert` | aoc-leaderboard-log.user.ts:95 | inserting into a newest-first sequence keeps it newest first and adds exactly that one element |
| `LogBuilder.Least` | aoc-leaderboard-log.user.ts:88 | the day enumerated next is a key of the member's days and is no larger than any other remaining key |
| `LogBuilder.PresentIn` | aoc-leaderboard-log.user.ts:94 | the filter keeps an entry if and only if it occurs as a present (non-null) slot |
| `LogBuilder.DaysSlotsIn` | aoc-leaderboard-log.user.ts:88-92 | a member's slots hold an entry exactly when its day is a key, its part is present that day, and its timestamp is 1000 × that star's seconds, with that member |
| `LogBuilder.MembersSlotsIn` | aoc-leaderboard-log.user.ts:87-93 | all slots hold exactly the present-star entries whose member is one of the snapshot's members |
| `LogBuilder.LogEntriesAreStars` | aoc-leaderboard-log.user.ts:87-95 | an entry is in the log if and only if its member is a snapshot member and it is that member's present star (both directions: soundness and completeness) |
| `LogBuilder.LogComplete` | aoc-leaderboard-log.user.ts:78-94 | for every member, day key and present part, the log holds the entry with that member, day, part and 1000 × the star's seconds |
| `LogBuilder.LogSound` | aoc-leaderboard-log.user.ts:78-94 | every log entry names a snapshot member, a day key of it, a part present on that day, and carries 1000 × that star's seconds; absent parts yield nothing |
| `LogBuilder.LogLength` | aoc-leaderboard-log.user.ts:87-94 | the number of entries equals the total number of present part-1 and part-2 star records, counted as a set of (day, part) coordinates per member |
| `LogBuilder.LogEntryOnce` | aoc-leaderboard-log.user.ts:87-95 | with unique member ids, each present star's entry occurs exactly once in the log |
| `LogBuilder.TwoStarsOneDay` | aoc-leaderboard-log.user.ts:77-101 | day 3 part 1 at second 1000 and part 2 at second 2000 give exactly [part 2 at 2000000 ms, part 1 at 1000000 ms] |
| `LogBuilder.StarToLogEntry` | aoc-leaderboard-log.user.ts:78-85 | `starToLogEntry`: timestamp 1000 × the star's seconds, with the given part, day and member; specified by `LogComplete` / `LogSound` |
| `Leaderboard.StarOf` | aoc-leaderboard-log.user.ts:90-91 | `levels[1]` / `levels[2]`: the star record of a part; used by `StarEntryIn` in `DaysSlotsIn` / `LogSound` |
| `LogBuilder.DaySlots` | aoc-leaderboard-log.user.ts:89-92 | the two-slot list for one day, None where the part is absent; specified by `DaySlotsIn` |
| `LogBuilder.DaysSlots` | aoc-leaderboard-log.user.ts:88-92 | the inner `flatMap` over a member's days in ascending key order; specified by `DaysSlotsIn` |
| `LogBuilder.MembersSlots` | aoc-leaderboard-log.user.ts:87-93 | the outer `flatMap` over members; specified by `MembersSlotsIn` |
| `LogBuilder.Present` | aoc-leaderboard-log.user.ts:94 | the `.filter(entry != null)`: never longer than its input; membership specified by `PresentIn` |
| `Cache.Lookup` | aoc-leaderboard-log.user.ts:54-65 | a cached snapshot is used if and only if a record exists and `now - timestamp < 300000`; it is the record's leaderboard |
| `Cache.GetLeaderboard` | aoc-leaderboard-log.user.ts:53-75 | no retrieval exactly when the record is fresh, and then the cached snapshot is returned and the store is unchanged; otherwise the retrieval's outcome is returned, and a success stores `(now, fetched)` while a failure leaves the store as it was |
| `Cache.FreshnessBoundary` | aoc-leaderboard-log.user.ts:54-64 | a record 299999 ms old is used unchanged without a retrieval; at exactly 300000 ms and at 301000 ms a retrieval happens |
| `Cache.StaleStaysStale` | aoc-leaderboard-log.user.ts:62 | a record that needs a refresh at one time needs one at every later time |
| `Cache.RefreshServesLaterCalls` | aoc-leaderboard-log.user.ts:62-72 | after a successful refresh at `now`, calls before `now + 300000` return the fetched snapshot without a retrieval and leave the store alone; later calls fetch again |
| `Cache.EmptyStoreFetches` | aoc-leaderboard-log.user.ts:58-68 | with no stored record the network is always used and its outcome returned |
| `Render.DayLabel` | aoc-leaderboard-log.user.ts:130 | the link text `day.toString().padStart(2, ' ')`; specified by `DayLabelWidth` / `DayLabelDecodes` |
| `Render.Href` | aoc-leaderboard-log.user.ts:131 | the link target `/${event}/day/${day}`; specified by `HrefDecodes` |
| `Render.StarClass` | aoc-leaderboard-log.user.ts:139 | the star's class; specified by `StarClassByPart` |
| `Render.UserLabel` | aoc-leaderboard-log.user.ts:142 | `name ?? "(anonymous user #" + id + ")"`; specified by `UserLabelCases` |
| `Render.RowOf` | aoc-leaderboard-log.user.ts:126-143 | the labels of one row; specified by `LogPlan` with the label lemmas |
| `Render.NeedsHeader` | aoc-leaderboard-log.user.ts:117-119 | the `formattedDate !== lastDate` test, stated against the previous entry's date; tied to the loop by `AddLogToPage` |
| `Render.Segment` | aoc-leaderboard-log.user.ts:117-145 | one iteration's items; specified by `SegmentShape` |
| `Render.PlanUpTo` | aoc-leaderboard-log.user.ts:114-146 | the items after the first n iterations; specified by `PlanRows` / `PlanHeaderCount` / `HeaderBeforeRow` / `PlanPlacement` |
| `Render.Plan` | aoc-leaderboard-log.user.ts:114-146 | the whole fragment; specified by `AddLogToPage` and `LogPlan` |
| `Render.AddLogToPage` | aoc-leaderboard-log.user.ts:114-146 | the loop that tracks `lastDate` produces exactly the plan: per entry, a header when the entry is first or its date differs from the previous entry's, then its row |
| `Render.SegmentShape` | aoc-leaderboard-log.user.ts:119-145 | each entry contributes exactly its own row, plus one header exactly when a header is needed |
| `Render.PlanRows` | aoc-leaderboard-log.user.ts:116-145 | the plan holds exactly one row per entry, in entry order |
| `Render.PlanHeaderCount` | aoc-leaderboard-log.user.ts:114-124 | the number of headers is 1 plus the number of adjacent date changes, or 0 for no entries |
| `Render.HeaderBeforeRow` | aoc-leaderboard-log.user.ts:119-145 | every header is immediately followed by a row |
| `Render.PlanPrefix` | aoc-leaderboard-log.user.ts:116 | the items for the first m entries are a prefix of the items for the first n ≥ m entries (items are only appended) |
| `Render.PlanPlacement` | aoc-leaderboard-log.user.ts:116-124 | entry k's row is in the fragment, and the item right before it is a header exactly when k is first or its date differs from entry k−1's; that header shows entry k's date |
| `Render.LogPlan` | aoc-leaderboard-log.user.ts:114-146 | for a log, the k-th row carries the k-th entry's time, day label, link, star class and user label; the header count is 1 + date changes (0 if empty); every header precedes a row |
| `Render.DayLabelWidth` | aoc-leaderboard-log.user.ts:130 | for days 0–99 the link text has width 2: a space then the digit for one-digit days, the two digits otherwise |
| `Render.DayLabelExamples` | aoc-leaderboard-log.user.ts:130 | day 3 is labelled `" 3"` and day 12 `"12"` |
| `Render.DayLabelDecodes` | aoc-leaderboard-log.user.ts:130 | the link text has at least two characters, and removing the leading spaces and reading the digits gives back the day |
| `Render.HrefDecodes` | aoc-leaderboard-log.user.ts:131 | the link starts with `"/" + event + "/day/"` and the rest is decimal digits whose value is the day |
| `Render.StarClassByPart` | aoc-leaderboard-log.user.ts:139 | the class is `privboard-star-both` exactly when the part is 2, and `privboard-star-firstonly` exactly when it is 1 |
| `Render.UserLabelCases` | aoc-leaderboard-log.user.ts:142 | a named member is labelled by the name (even an empty one); an anonymous member's label is `(anonymous user #`, the id, then `)`, and the id can be read back from it |
| `Render.AnonymousExample` | aoc-leaderboard-log.user.ts:142 | an anonymous member with id `42` is labelled `(anonymous user #42)` |
| `Text.IntToDecimal` | aoc-leaderboard-log.user.ts:130-131 | `Number#toString` for integers (minus sign before negatives); specified through `NatToDecimal` and `DecimalRoundTrip` |
| `Text.PadStart` | aoc-leaderboard-log.user.ts:130 | `String#padStart` with a one-character fill; specified by `PadStartShape` / `TrimPadStart` |
| `Text.NatToDecimal` | aoc-leaderboard-log.user.ts:130-131 | decimal notation is a non-empty string of digits without a leading zero, one digit exactly for numbers below 10 |
| `Text.DecimalRoundTrip` | aoc-leaderboard-log.user.ts:130-131 | reading back the decimal notation of n gives n |
| `Text.PadStartShape` | aoc-leaderboard-log.user.ts:130 | `padStart` leaves a string of at least the width alone; it brings a shorter one to exactly the width, with fill characters before the unchanged original |
| `Text.TrimPadStart` | aoc-leaderboard-log.user.ts:130 | stripping the fill characters from a padded string gives back the original, when the original does not start with the fill character |

## Left out

- The network retrieval (`fetch`, `response.json()`) is a parameter of
  `Cache.GetLeaderboard`: its outcome is passed in, and `fetched` records
  whether it was used. The request itself is not modelled.
- A response body that is valid JSON but not a leaderboard (for example `{}`
  or an error object) is stored and returned by the source
  (aoc-leaderboard-log.user.ts:68-74), and then served from the store for five
  minutes while `leaderboardToLog` fails on it. The model cannot express this:
  a successful retrieval is typed `Snapshot`, and `FetchFailed` stands only for
  a failed request or a body that is not valid JSON, which leave the store
  unchanged.
- Local storage and JSON (`localStorage.getItem/setItem`,
  `JSON.parse/stringify`) are not modelled. The stored record is passed in
  and returned as a value. `localStorage.setItem` throwing after a
  successful fetch (for example when the storage quota is exceeded) is not
  modelled: the source then rejects, while `Cache.GetLeaderboard` returns
  `Success` with the new record. A stored item that fails to parse (an unhandled
  failure in the source) is not modelled.
- The cache key built from `location.pathname` is the store's own business.
  The model holds the single record for the current page.
- The renderer's DOM construction is not modelled: `createElement`,
  `classList`, the `DocumentFragment` and appending it to the first
  `article` element. A fragment is a sequence of items. A missing `article`
  element, an unhandled failure in the source, is not modelled.
- `Intl.DateTimeFormat` locale formatting is not modelled. The date and time
  formatters are arbitrary functions passed in.
- JavaScript number coercion (`+gs.get_star_ts`, `+day`) and `Date`
  representation are not modelled. Star times and day keys are integers, so
  non-numeric strings (NaN), fractions and `Date`'s range limit are outside
  the model. Day keys beyond 2^53 would lose precision in JavaScript, and
  from 10^21 up `Number#toString` prints them in exponent form, while
  `Text.IntToDecimal` prints plain digits; such keys are outside the model.
- Negative day keys and keys from 2^32 − 1 up are not array-index property
  names, so JavaScript enumerates them after the array indices, in insertion
  order; the model puts them in ascending order with the rest. This changes
  only the traversal order, which matters only among entries with equal
  timestamps, and no contract states that order.
- The promise chain `getLeaderboard().then(leaderboardToLog).then(addLogToPage)`
  only sequences the three steps. It is not modelled as a separate member.
- The member fields `global_score`, `local_score`, `last_start_ts` and
  `stars`, and the snapshot's `owner_id`, are never read by the script and
  are not modelled.
- `LogBuilder.SortNewestFirst`: the order of entries with equal timestamps
  is not stated. The source does not rely on one.
- The JSON keys of `members` are dropped: `members` is the sequence of
  values, as `Object.values` returns them.
- The builder's determinism (building twice gives the same entries) is not
  stated as a lemma. Dafny functions are deterministic by definition.
