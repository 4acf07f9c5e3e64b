/**
 * The log builder: a pure transformation from a leaderboard snapshot to a
 * log holding one entry per star actually present, newest first.
 *
 * The JavaScript expression chain is modelled stage by stage:
 *   Object.values(members).flatMap(member => Object.entries(days).flatMap(...))
 * becomes MembersSlots (a two-slot list per day, a slot being None where
 * the part is absent), `.filter(entry != null)` becomes Present, and
 * `.sort((a, b) => b.timestamp - a.timestamp)` becomes SortNewestFirst.
 */
module LogBuilder {
  import opened Wrappers
  import opened Leaderboard

  // ---------------------------------------------------------------------
  // Enumeration order of a member's day keys
  // ---------------------------------------------------------------------

  /** A set without elements is empty. */
  lemma EmptyIfNoElement(s: set<int>)
    ensures (forall k :: k !in s) ==> s == {}
  {
    if forall k :: k !in s {
      assert s == {};
    }
  }

  /** Every non-empty finite set of integers has a least element. */
  lemma {:induction false} LeastExists(s: set<int>)
    requires s != {}
    ensures exists k :: k in s && forall j :: j in s ==> k <= j
  {
    EmptyIfNoElement(s);
    var x :| x in s;
    var rest := s - {x};
    if s == {x} {
      assert forall j :: j in s ==> x <= j;
    } else {
      LeastExists(rest);
      var m :| m in rest && forall j :: j in rest ==> m <= j;
      var k := if x < m then x else m;
      forall j | j in s ensures k <= j {
        if j != x { assert j in rest; }
      }
      assert k in s;
    }
  }

  /**
   * The least day key. Keys 0 <= k < 2^32 - 1 are array-index property
   * names, which a JavaScript object enumerates in ascending numeric order.
   */
  function Least(s: set<int>): (k: int)
    requires s != {}
    ensures k in s && forall j :: j in s ==> k <= j
  {
    LeastExists(s);
    var k :| k in s && forall j :: j in s ==> k <= j; k
  }

  // ---------------------------------------------------------------------
  // Flattening
  // ---------------------------------------------------------------------

  /** The entry for one present star (`starToLogEntry`): seconds become milliseconds. */
  function StarToLogEntry(day: int, part: Part, gs: GetStar, member: Member): LogEntry
  {
    LogEntry(1000 * gs.getStarTs, member, day, part)
  }

  /** `[levels[1] && entry(day, 1), levels[2] && entry(day, 2)]`: None where the part is absent. */
  function DaySlots(member: Member, day: int, lv: DayLevel): seq<Option<LogEntry>>
  {
    [ if lv.part1.Some? then Some(StarToLogEntry(day, 1, lv.part1.value, member)) else None,
      if lv.part2.Some? then Some(StarToLogEntry(day, 2, lv.part2.value, member)) else None ]
  }

  /** The slots of all of a member's days, in ascending day order. */
  function DaysSlots(member: Member, days: map<int, DayLevel>): seq<Option<LogEntry>>
    decreases days.Keys
  {
    if days.Keys == {} then []
    else
      var d := Least(days.Keys);
      DaySlots(member, d, days[d]) + DaysSlots(member, days - {d})
  }

  /** The slots of all members, in member order. */
  function MembersSlots(ms: seq<Member>): seq<Option<LogEntry>>
  {
    if ms == [] then []
    else DaysSlots(ms[0], ms[0].completionDayLevel) + MembersSlots(ms[1..])
  }

  /** `.filter(entry => entry != null)`: the entries of the present slots, in order. */
  function Present(s: seq<Option<LogEntry>>): (r: seq<LogEntry>)
    ensures |r| <= |s|
  {
    if s == [] then []
    else (if s[0].Some? then [s[0].value] else []) + Present(s[1..])
  }

  // ---------------------------------------------------------------------
  // Sorting newest first
  // ---------------------------------------------------------------------

  /** Timestamps never increase along the sequence. */
  predicate NewestFirst(s: seq<LogEntry>)
  {
    forall i, j :: 0 <= i < j < |s| ==> s[i].timestamp >= s[j].timestamp
  }

  /** Inserts `x` into a newest-first sequence. */
  function Insert(x: LogEntry, s: seq<LogEntry>): (r: seq<LogEntry>)
    requires NewestFirst(s)
    ensures NewestFirst(r)
    ensures multiset(r) == multiset(s) + multiset{x}
  {
    if s == [] || s[0].timestamp <= x.timestamp then [x] + s
    else
      var t := Insert(x, s[1..]);
      assert s == [s[0]] + s[1..];
      forall k | 0 <= k < |t| ensures s[0].timestamp >= t[k].timestamp {
        assert t[k] in multiset(t);
      }
      [s[0]] + t
  }

  /**
   * The comparator `(a, b) => b.timestamp - a.timestamp`. The result is
   * newest first and a rearrangement of the input; the order of entries with
   * equal timestamps is not part of the contract.
   */
  function SortNewestFirst(s: seq<LogEntry>): (r: seq<LogEntry>)
    ensures NewestFirst(r)
    ensures multiset(r) == multiset(s)
  {
    if s == [] then []
    else
      assert s == [s[0]] + s[1..];
      Insert(s[0], SortNewestFirst(s[1..]))
  }

  /** `leaderboardToLog`. */
  function LeaderboardToLog(lb: Snapshot): (log: Log)
    ensures log.event == lb.event
    ensures NewestFirst(log.entries)
    ensures multiset(log.entries) == multiset(Present(MembersSlots(lb.members)))
  {
    Log(lb.event, SortNewestFirst(Present(MembersSlots(lb.members))))
  }

  // ---------------------------------------------------------------------
  // Soundness and completeness
  // ---------------------------------------------------------------------

  /**
   * `e` is what a present star of `member` in `days` yields: its day is a
   * key, its part is present on that day, and its timestamp is 1000 times
   * that star's seconds.
   */
  predicate StarEntryIn(member: Member, days: map<int, DayLevel>, e: LogEntry)
  {
    && e.member == member
    && e.day in days
    && StarOf(days[e.day], e.part).Some?
    && e.timestamp == 1000 * StarOf(days[e.day], e.part).value.getStarTs
  }

  /** `e` is what a present star of its own member yields. */
  predicate IsStarEntry(e: LogEntry)
  {
    StarEntryIn(e.member, e.member.completionDayLevel, e)
  }

  lemma {:induction false} PresentConcat(a: seq<Option<LogEntry>>, b: seq<Option<LogEntry>>)
    ensures Present(a + b) == Present(a) + Present(b)
  {
    if a == [] {
      assert a + b == b;
    } else {
      var head := if a[0].Some? then [a[0].value] else [];
      assert (a + b)[0] == a[0];
      assert (a + b)[1..] == a[1..] + b;
      PresentConcat(a[1..], b);
      calc {
        Present(a + b);
        head + Present(a[1..] + b);
        head + (Present(a[1..]) + Present(b));
        (head + Present(a[1..])) + Present(b);
      }
    }
  }

  /** Filtering keeps exactly the present entries. */
  lemma {:induction false} PresentIn(s: seq<Option<LogEntry>>, e: LogEntry)
    ensures e in Present(s) <==> Some(e) in s
  {
    if s != [] {
      PresentIn(s[1..], e);
      assert s == [s[0]] + s[1..];
    }
  }

  /** The slots of one day hold exactly that day's present stars. */
  lemma DaySlotsIn(member: Member, days: map<int, DayLevel>, d: int, e: LogEntry)
    requires d in days
    ensures Some(e) in DaySlots(member, d, days[d]) <==> e.day == d && StarEntryIn(member, days, e)
  {
  }

  /** The slots of a member's days hold exactly the member's present stars. */
  lemma {:induction false} DaysSlotsIn(member: Member, days: map<int, DayLevel>, e: LogEntry)
    ensures Some(e) in DaysSlots(member, days) <==> StarEntryIn(member, days, e)
    decreases days.Keys
  {
    if days.Keys != {} {
      var d := Least(days.Keys);
      var rest := days - {d};
      DaySlotsIn(member, days, d, e);
      DaysSlotsIn(member, rest, e);
      if e.day != d {
        assert StarEntryIn(member, rest, e) <==> StarEntryIn(member, days, e);
      } else {
        assert !StarEntryIn(member, rest, e);
      }
    }
  }

  /** The slots of all members hold exactly the present stars of those members. */
  lemma {:induction false} MembersSlotsIn(ms: seq<Member>, e: LogEntry)
    ensures Some(e) in MembersSlots(ms) <==> e.member in ms && IsStarEntry(e)
  {
    if ms != [] {
      DaysSlotsIn(ms[0], ms[0].completionDayLevel, e);
      MembersSlotsIn(ms[1..], e);
      assert ms == [ms[0]] + ms[1..];
    }
  }

  /**
   * Soundness and completeness: an entry is in the log if and only if it is
   * the entry of a present star of one of the snapshot's members.
   */
  lemma LogEntriesAreStars(lb: Snapshot, e: LogEntry)
    ensures e in LeaderboardToLog(lb).entries <==> e.member in lb.members && IsStarEntry(e)
  {
    var slots := MembersSlots(lb.members);
    assert e in LeaderboardToLog(lb).entries <==> e in multiset(Present(slots));
    PresentIn(slots, e);
    MembersSlotsIn(lb.members, e);
  }

  /**
   * Completeness, by coordinates: for every member, every day key and every
   * part present on that day, the log holds the entry with that member, day
   * and part and with 1000 times the star's seconds as its timestamp.
   */
  lemma LogComplete(lb: Snapshot, i: int, day: int, part: Part)
    requires 0 <= i < |lb.members|
    requires day in lb.members[i].completionDayLevel
    requires StarOf(lb.members[i].completionDayLevel[day], part).Some?
    ensures StarToLogEntry(day, part, StarOf(lb.members[i].completionDayLevel[day], part).value, lb.members[i])
              in LeaderboardToLog(lb).entries
  {
    var m := lb.members[i];
    LogEntriesAreStars(lb, StarToLogEntry(day, part, StarOf(m.completionDayLevel[day], part).value, m));
  }

  /**
   * Soundness, by fields: every entry names one of the snapshot's members, a
   * day key of that member, a part present on that day, and carries 1000
   * times that star's seconds.
   */
  lemma LogSound(lb: Snapshot, k: int)
    requires 0 <= k < |LeaderboardToLog(lb).entries|
    ensures var e := LeaderboardToLog(lb).entries[k];
      && e.member in lb.members
      && e.day in e.member.completionDayLevel
      && StarOf(e.member.completionDayLevel[e.day], e.part).Some?
      && e.timestamp == 1000 * StarOf(e.member.completionDayLevel[e.day], e.part).value.getStarTs
  {
    LogEntriesAreStars(lb, LeaderboardToLog(lb).entries[k]);
  }

  // ---------------------------------------------------------------------
  // Counting
  // ---------------------------------------------------------------------

  /** The (day, part) coordinates of the stars present on one day. */
  function DayKeys(d: int, lv: DayLevel): set<(int, int)>
  {
    set p: int | 1 <= p <= 2 && StarOf(lv, p).Some? :: (d, p)
  }

  /** The (day, part) coordinates of all stars present in a member's days. */
  function StarKeys(days: map<int, DayLevel>): set<(int, int)>
  {
    set d, p: int | d in days && 1 <= p <= 2 && StarOf(days[d], p).Some? :: (d, p)
  }

  /** The number of present part-1 and part-2 star records across all members and days. */
  function TotalStars(ms: seq<Member>): nat
  {
    if ms == [] then 0 else |StarKeys(ms[0].completionDayLevel)| + TotalStars(ms[1..])
  }

  lemma DaySlotsCount(member: Member, d: int, lv: DayLevel)
    ensures |Present(DaySlots(member, d, lv))| == |DayKeys(d, lv)|
  {
    var s := DaySlots(member, d, lv);
    assert s[1..][1..] == [];
    if lv.part1.Some? && lv.part2.Some? {
      assert DayKeys(d, lv) == {(d, 1), (d, 2)};
    } else if lv.part1.Some? {
      assert DayKeys(d, lv) == {(d, 1)};
    } else if lv.part2.Some? {
      assert DayKeys(d, lv) == {(d, 2)};
    } else {
      assert DayKeys(d, lv) == {};
    }
  }

  lemma {:induction false} DaysSlotsCount(member: Member, days: map<int, DayLevel>)
    ensures |Present(DaysSlots(member, days))| == |StarKeys(days)|
    decreases days.Keys
  {
    if days.Keys == {} {
      assert StarKeys(days) == {};
    } else {
      var d := Least(days.Keys);
      var rest := days - {d};
      PresentConcat(DaySlots(member, d, days[d]), DaysSlots(member, rest));
      DaySlotsCount(member, d, days[d]);
      DaysSlotsCount(member, rest);
      assert StarKeys(days) == DayKeys(d, days[d]) + StarKeys(rest);
      assert DayKeys(d, days[d]) * StarKeys(rest) == {};
    }
  }

  lemma {:induction false} MembersSlotsCount(ms: seq<Member>)
    ensures |Present(MembersSlots(ms))| == TotalStars(ms)
  {
    if ms != [] {
      PresentConcat(DaysSlots(ms[0], ms[0].completionDayLevel), MembersSlots(ms[1..]));
      DaysSlotsCount(ms[0], ms[0].completionDayLevel);
      MembersSlotsCount(ms[1..]);
    }
  }

  /** Completeness by count: the log has one entry per present star record. */
  lemma LogLength(lb: Snapshot)
    ensures |LeaderboardToLog(lb).entries| == TotalStars(lb.members)
  {
    MembersSlotsCount(lb.members);
    assert |multiset(LeaderboardToLog(lb).entries)| == |multiset(Present(MembersSlots(lb.members)))|;
  }

  // ---------------------------------------------------------------------
  // Exactly once
  // ---------------------------------------------------------------------

  /** No value occurs twice. */
  predicate NoDup(s: seq<LogEntry>)
  {
    forall i, j :: 0 <= i < j < |s| ==> s[i] != s[j]
  }

  lemma NoDupConcat(a: seq<LogEntry>, b: seq<LogEntry>)
    requires NoDup(a) && NoDup(b)
    requires forall x :: x in a ==> x !in b
    ensures NoDup(a + b)
  {
    forall i, j | 0 <= i < j < |a + b| ensures (a + b)[i] != (a + b)[j] {
      if i < |a| && |a| <= j {
        assert (a + b)[i] in a;
        assert (a + b)[j] == b[j - |a|];
      }
    }
  }

  lemma {:induction false} NoDupOnce(s: seq<LogEntry>, x: LogEntry)
    requires NoDup(s) && x in s
    ensures multiset(s)[x] == 1
  {
    assert s == [s[0]] + s[1..];
    if s[0] == x {
      assert x !in s[1..];
    } else {
      NoDupOnce(s[1..], x);
    }
  }

  lemma {:induction false} DaysSlotsNoDup(member: Member, days: map<int, DayLevel>)
    ensures NoDup(Present(DaysSlots(member, days)))
    decreases days.Keys
  {
    if days.Keys != {} {
      var d := Least(days.Keys);
      var rest := days - {d};
      var here := DaySlots(member, d, days[d]);
      PresentConcat(here, DaysSlots(member, rest));
      DaysSlotsNoDup(member, rest);
      assert here[1..][1..] == [];
      assert NoDup(Present(here));
      forall x | x in Present(here) ensures x !in Present(DaysSlots(member, rest)) {
        PresentIn(here, x);
        PresentIn(DaysSlots(member, rest), x);
        DaysSlotsIn(member, rest, x);
      }
      NoDupConcat(Present(here), Present(DaysSlots(member, rest)));
    }
  }

  lemma {:induction false} MembersSlotsNoDup(ms: seq<Member>)
    requires UniqueIds(ms)
    ensures NoDup(Present(MembersSlots(ms)))
  {
    if ms != [] {
      var here := DaysSlots(ms[0], ms[0].completionDayLevel);
      PresentConcat(here, MembersSlots(ms[1..]));
      DaysSlotsNoDup(ms[0], ms[0].completionDayLevel);
      MembersSlotsNoDup(ms[1..]);
      forall x | x in Present(here) ensures x !in Present(MembersSlots(ms[1..])) {
        PresentIn(here, x);
        DaysSlotsIn(ms[0], ms[0].completionDayLevel, x);
        PresentIn(MembersSlots(ms[1..]), x);
        MembersSlotsIn(ms[1..], x);
      }
      NoDupConcat(Present(here), Present(MembersSlots(ms[1..])));
    }
  }

  /**
   * When member identifiers are unique, every present star yields exactly
   * one entry of the log.
   */
  lemma LogEntryOnce(lb: Snapshot, e: LogEntry)
    requires UniqueIds(lb.members)
    requires e.member in lb.members && IsStarEntry(e)
    ensures multiset(LeaderboardToLog(lb).entries)[e] == 1
  {
    var flat := Present(MembersSlots(lb.members));
    MembersSlotsIn(lb.members, e);
    PresentIn(MembersSlots(lb.members), e);
    MembersSlotsNoDup(lb.members);
    NoDupOnce(flat, e);
  }

  // ---------------------------------------------------------------------
  // A worked instance
  // ---------------------------------------------------------------------

  /**
   * A member with day 3 part 1 at second 1000 and day 3 part 2 at second
   * 2000 yields exactly two entries, part 2 first.
   */
  lemma TwoStarsOneDay(m: Member)
    requires m.completionDayLevel == map[3 := DayLevel(Some(GetStar(1000)), Some(GetStar(2000)))]
    ensures LeaderboardToLog(Snapshot("2023", [m])).entries
              == [LogEntry(2000000, m, 3, 2), LogEntry(1000000, m, 3, 1)]
  {
    var days := m.completionDayLevel;
    assert 3 in days.Keys;
    assert Least(days.Keys) == 3;
    assert (days - {3}).Keys == {};
    var flat := [LogEntry(1000000, m, 3, 1), LogEntry(2000000, m, 3, 2)];
    assert DaysSlots(m, days - {3}) == [];
    assert DaysSlots(m, days) == [Some(flat[0]), Some(flat[1])];
    assert [m][1..] == [];
    assert MembersSlots([m]) == [Some(flat[0]), Some(flat[1])];
    assert Present(MembersSlots([m])) == flat;
  }
}
