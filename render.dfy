/**
 * The log renderer (`addLogToPage`). Instead of DOM nodes it produces the
 * sequence of items it would append to the document fragment: a Header for
 * each date boundary and a Row per entry. The locale date and time
 * formatters are parameters of type `int -> string`, applied to the entry's
 * timestamp in milliseconds.
 */
module Render {
  import opened Wrappers
  import opened Leaderboard
  import opened Text

  /**
   * The labels of one row. The row is a `div.privboard-row` holding, in this
   * order, the text `time + " "`, a link with text `dayLabel` to `href`, the
   * text `" "`, a `*` span with class `starClass`, and the text `" " + user`;
   * the fixed separators and the row's own class are not repeated here.
   */
  datatype RowLabels = RowLabels(time: string, dayLabel: string, href: string, starClass: string, user: string)

  /** An element of the fragment: an `h2` holding a formatted date, or an entry's row. */
  datatype Item = Header(date: string) | Row(labels: RowLabels)

  // ---------------------------------------------------------------------
  // Row labels
  // ---------------------------------------------------------------------

  /** `day.toString().padStart(2, ' ')` */
  function DayLabel(day: int): string
  {
    PadStart(IntToDecimal(day), 2, ' ')
  }

  /** `/${event}/day/${day}` */
  function Href(event: string, day: int): string
  {
    "/" + event + "/day/" + IntToDecimal(day)
  }

  const StarBoth: string := "privboard-star-both"
  const StarFirstOnly: string := "privboard-star-firstonly"

  /** The class of the star glyph. */
  function StarClass(part: Part): string
  {
    if part == 2 then StarBoth else StarFirstOnly
  }

  const AnonymousPrefix: string := "(anonymous user #"

  /** `member.name ?? "(anonymous user #" + member.id + ")"` */
  function UserLabel(m: Member): string
  {
    match m.name
    case Some(n) => n
    case None => AnonymousPrefix + m.id + ")"
  }

  /** The row labels for one entry of a log of `event`. */
  function RowOf(event: string, e: LogEntry, timeFormat: int -> string): RowLabels
  {
    RowLabels(timeFormat(e.timestamp), DayLabel(e.day), Href(event, e.day), StarClass(e.part), UserLabel(e.member))
  }

  /** A one-digit day is a space followed by its digit; a two-digit day is its two digits. */
  lemma DayLabelWidth(day: int)
    requires 0 <= day < 100
    ensures |DayLabel(day)| == 2
    ensures day < 10 ==> DayLabel(day) == [' ', DigitChar(day)]
    ensures day >= 10 ==> DayLabel(day) == [DigitChar(day / 10), DigitChar(day % 10)]
  {
    if day >= 10 {
      assert NatToDecimal(day / 10) == [DigitChar(day / 10)];
    }
  }

  lemma DayLabelExamples()
    ensures DayLabel(3) == " 3"
    ensures DayLabel(12) == "12"
  {
    DayLabelWidth(3);
    DayLabelWidth(12);
  }

  /** The day is recovered from its link text by dropping the padding and reading the digits. */
  lemma DayLabelDecodes(day: nat)
    ensures |DayLabel(day)| >= 2
    ensures DecimalValue(TrimStart(DayLabel(day), ' ')) == day
  {
    TrimPadStart(NatToDecimal(day), 2, ' ');
    DecimalRoundTrip(day);
  }

  /** The link points below `/<event>/day/`, and the rest of the path is the day in decimal. */
  lemma HrefDecodes(event: string, day: nat)
    ensures var h := Href(event, day);
      && |h| > |event| + 6
      && h[..|event| + 6] == "/" + event + "/day/"
      && IsDigits(h[|event| + 6..])
      && DecimalValue(h[|event| + 6..]) == day
  {
    var h := Href(event, day);
    assert h[..|event| + 6] == "/" + event + "/day/";
    assert h[|event| + 6..] == NatToDecimal(day);
    DecimalRoundTrip(day);
  }

  /** The star is styled "both" exactly for part 2 and "first only" exactly for part 1. */
  lemma StarClassByPart(part: Part)
    ensures StarClass(part) == "privboard-star-both" <==> part == 2
    ensures StarClass(part) == "privboard-star-firstonly" <==> part == 1
  {
    assert |StarBoth| != |StarFirstOnly|;
  }

  /**
   * A named member is labelled by the name; an anonymous one by the fallback
   * text, from which its id is recovered.
   */
  lemma UserLabelCases(m: Member)
    ensures m.name.Some? ==> UserLabel(m) == m.name.value
    ensures m.name.None? ==>
      && UserLabel(m)[..17] == "(anonymous user #"
      && UserLabel(m)[17..|UserLabel(m)| - 1] == m.id
      && UserLabel(m)[|UserLabel(m)| - 1] == ')'
  {
    if m.name.None? {
      var u := UserLabel(m);
      assert u == AnonymousPrefix + m.id + ")";
      assert u[..17] == AnonymousPrefix;
      assert u[17..|u| - 1] == m.id;
    }
  }

  lemma AnonymousExample(m: Member)
    requires m.name.None? && m.id == "42"
    ensures UserLabel(m) == "(anonymous user #42)"
  {
  }

  // ---------------------------------------------------------------------
  // The render plan
  // ---------------------------------------------------------------------

  /** A header goes before entry `k` when it is the first or its date differs from the previous entry's. */
  predicate NeedsHeader(es: seq<LogEntry>, k: int, dateFormat: int -> string)
    requires 0 <= k < |es|
  {
    k == 0 || dateFormat(es[k].timestamp) != dateFormat(es[k - 1].timestamp)
  }

  /**
   * The items contributed by entry `k`: possibly a header, then its row. The
   * grouping does not depend on what a row holds, so the row labels are a
   * parameter `row` here.
   */
  function Segment(es: seq<LogEntry>, k: int, dateFormat: int -> string, row: LogEntry -> RowLabels): seq<Item>
    requires 0 <= k < |es|
  {
    (if NeedsHeader(es, k, dateFormat) then [Header(dateFormat(es[k].timestamp))] else [])
    + [Row(row(es[k]))]
  }

  /** The items contributed by the first `n` entries. */
  function PlanUpTo(es: seq<LogEntry>, n: int, dateFormat: int -> string, row: LogEntry -> RowLabels): seq<Item>
    requires 0 <= n <= |es|
  {
    if n == 0 then []
    else PlanUpTo(es, n - 1, dateFormat, row) + Segment(es, n - 1, dateFormat, row)
  }

  /** The row labels of the entries of a log of `event`. */
  function RowsFor(event: string, timeFormat: int -> string): LogEntry -> RowLabels
  {
    e => RowOf(event, e, timeFormat)
  }

  /** The whole fragment for a log. */
  function Plan(log: Log, dateFormat: int -> string, timeFormat: int -> string): seq<Item>
  {
    PlanUpTo(log.entries, |log.entries|, dateFormat, RowsFor(log.event, timeFormat))
  }

  /**
   * `addLogToPage`: walks the entries keeping the last date a header was
   * emitted for, and appends a header whenever the entry's formatted date
   * differs from it, then the entry's row.
   */
  method AddLogToPage(log: Log, dateFormat: int -> string, timeFormat: int -> string)
    returns (fragment: seq<Item>)
    ensures fragment == Plan(log, dateFormat, timeFormat)
  {
    fragment := [];
    var lastDate: Option<string> := None;
    for i := 0 to |log.entries|
      invariant fragment == PlanUpTo(log.entries, i, dateFormat, RowsFor(log.event, timeFormat))
      invariant lastDate == if i == 0 then None else Some(dateFormat(log.entries[i - 1].timestamp))
    {
      var entry := log.entries[i];
      var formattedDate := dateFormat(entry.timestamp);
      ghost var before := fragment;
      if lastDate != Some(formattedDate) {
        fragment := fragment + [Header(formattedDate)];
        lastDate := Some(formattedDate);
      }
      assert fragment == before + (if NeedsHeader(log.entries, i, dateFormat) then [Header(formattedDate)] else []);
      var link := DayLabel(entry.day);
      var href := Href(log.event, entry.day);
      var star := StarClass(entry.part);
      var user := UserLabel(entry.member);
      var labels := RowLabels(timeFormat(entry.timestamp), link, href, star, user);
      assert labels == RowsFor(log.event, timeFormat)(entry);
      fragment := fragment + [Row(labels)];
    }
  }

  // ---------------------------------------------------------------------
  // Properties of the plan
  // ---------------------------------------------------------------------

  /** The rows of a sequence of items, in order. */
  function Rows(items: seq<Item>): seq<RowLabels>
  {
    if items == [] then []
    else (if items[0].Row? then [items[0].labels] else []) + Rows(items[1..])
  }

  /** The number of headers in a sequence of items. */
  function HeaderCount(items: seq<Item>): nat
  {
    if items == [] then 0
    else (if items[0].Header? then 1 else 0) + HeaderCount(items[1..])
  }

  /** The number of adjacent pairs among the first `n` entries whose formatted dates differ. */
  function DateChanges(es: seq<LogEntry>, n: int, dateFormat: int -> string): nat
    requires 0 <= n <= |es|
  {
    if n < 2 then 0
    else DateChanges(es, n - 1, dateFormat)
         + (if dateFormat(es[n - 1].timestamp) != dateFormat(es[n - 2].timestamp) then 1 else 0)
  }

  lemma {:induction false} RowsConcat(a: seq<Item>, b: seq<Item>)
    ensures Rows(a + b) == Rows(a) + Rows(b)
  {
    if a == [] {
      assert a + b == b;
    } else {
      assert (a + b)[1..] == a[1..] + b;
      RowsConcat(a[1..], b);
    }
  }

  lemma {:induction false} HeaderCountConcat(a: seq<Item>, b: seq<Item>)
    ensures HeaderCount(a + b) == HeaderCount(a) + HeaderCount(b)
  {
    if a == [] {
      assert a + b == b;
    } else {
      assert (a + b)[1..] == a[1..] + b;
      HeaderCountConcat(a[1..], b);
    }
  }

  /** Exactly one row per entry, in entry order. */
  lemma {:induction false} PlanRows(es: seq<LogEntry>, n: int, dateFormat: int -> string, row: LogEntry -> RowLabels)
    requires 0 <= n <= |es|
    ensures var rows := Rows(PlanUpTo(es, n, dateFormat, row));
      && |rows| == n
      && forall k :: 0 <= k < n ==> rows[k] == row(es[k])
  {
    if n > 0 {
      var seg := Segment(es, n - 1, dateFormat, row);
      PlanRows(es, n - 1, dateFormat, row);
      RowsConcat(PlanUpTo(es, n - 1, dateFormat, row), seg);
      SegmentShape(es, n - 1, dateFormat, row);
    }
  }

  /** One header for the first entry and one for each adjacent change of date; none for an empty log. */
  lemma {:induction false} PlanHeaderCount(es: seq<LogEntry>, n: int, dateFormat: int -> string, row: LogEntry -> RowLabels)
    requires 0 <= n <= |es|
    ensures HeaderCount(PlanUpTo(es, n, dateFormat, row)) == if n == 0 then 0 else 1 + DateChanges(es, n, dateFormat)
  {
    if n > 0 {
      var seg := Segment(es, n - 1, dateFormat, row);
      PlanHeaderCount(es, n - 1, dateFormat, row);
      HeaderCountConcat(PlanUpTo(es, n - 1, dateFormat, row), seg);
      SegmentShape(es, n - 1, dateFormat, row);
    }
  }

  /** A segment holds one row and, when a header is needed, one header. */
  lemma SegmentShape(es: seq<LogEntry>, k: int, dateFormat: int -> string, row: LogEntry -> RowLabels)
    requires 0 <= k < |es|
    ensures Rows(Segment(es, k, dateFormat, row)) == [row(es[k])]
    ensures HeaderCount(Segment(es, k, dateFormat, row)) == if NeedsHeader(es, k, dateFormat) then 1 else 0
  {
    var last := [Row(row(es[k]))];
    assert last[1..] == [];
    assert Rows(last) == [row(es[k])];
    assert HeaderCount(last) == 0;
    if NeedsHeader(es, k, dateFormat) {
      var seg := Segment(es, k, dateFormat, row);
      assert seg[1..] == last;
    }
  }

  /** Every header is immediately followed by a row. */
  predicate HeadersPrecedeRows(items: seq<Item>)
  {
    forall j :: 0 <= j < |items| && items[j].Header? ==> j + 1 < |items| && items[j + 1].Row?
  }

  /** In a plan every header is immediately followed by a row (so none is adjacent to another or last). */
  lemma {:induction false} HeaderBeforeRow(es: seq<LogEntry>, n: int, dateFormat: int -> string, row: LogEntry -> RowLabels)
    requires 0 <= n <= |es|
    ensures HeadersPrecedeRows(PlanUpTo(es, n, dateFormat, row))
  {
    if n > 0 {
      HeaderBeforeRow(es, n - 1, dateFormat, row);
      var prev := PlanUpTo(es, n - 1, dateFormat, row);
      var seg := Segment(es, n - 1, dateFormat, row);
      var items := prev + seg;
      if NeedsHeader(es, n - 1, dateFormat) {
        assert |seg| == 2 && seg[1].Row?;
      } else {
        assert seg == [Row(row(es[n - 1]))];
      }
      forall j | 0 <= j < |items| && items[j].Header? ensures j + 1 < |items| && items[j + 1].Row? {
        if j < |prev| {
          assert prev[j].Header?;
          assert j + 1 < |prev| && prev[j + 1].Row?;
          assert items[j + 1] == prev[j + 1];
        } else {
          assert seg[j - |prev|].Header?;
          assert j - |prev| == 0;
          assert items[j + 1] == seg[1];
        }
      }
    }
  }

  /** A plan of fewer entries is a prefix of the plan of more. */
  lemma {:induction false} PlanPrefix(es: seq<LogEntry>, m: int, n: int, dateFormat: int -> string, row: LogEntry -> RowLabels)
    requires 0 <= m <= n <= |es|
    ensures var small := PlanUpTo(es, m, dateFormat, row);
      var big := PlanUpTo(es, n, dateFormat, row);
      |small| <= |big| && big[..|small|] == small
    decreases n - m
  {
    if m < n {
      PlanPrefix(es, m, n - 1, dateFormat, row);
      var small := PlanUpTo(es, m, dateFormat, row);
      var mid := PlanUpTo(es, n - 1, dateFormat, row);
      var big := PlanUpTo(es, n, dateFormat, row);
      assert big[..|mid|] == mid;
      assert big[..|small|] == mid[..|small|];
    }
  }

  /** The position of entry `k`'s row in the fragment. */
  function RowPos(es: seq<LogEntry>, k: int, dateFormat: int -> string, row: LogEntry -> RowLabels): nat
    requires 0 <= k < |es|
  {
    |PlanUpTo(es, k, dateFormat, row)| + (if NeedsHeader(es, k, dateFormat) then 1 else 0)
  }

  /**
   * Where headers go: entry `k`'s row is in the fragment, and the item right
   * before it is a header exactly when `k` is the first entry or its date
   * differs from the previous entry's; that header shows the entry's date.
   */
  lemma PlanPlacement(es: seq<LogEntry>, k: int, dateFormat: int -> string, row: LogEntry -> RowLabels)
    requires 0 <= k < |es|
    ensures var items := PlanUpTo(es, |es|, dateFormat, row);
      var p := RowPos(es, k, dateFormat, row);
      && p < |items|
      && items[p] == Row(row(es[k]))
      && (NeedsHeader(es, k, dateFormat) <==> p > 0 && items[p - 1].Header?)
      && (NeedsHeader(es, k, dateFormat) ==> items[p - 1] == Header(dateFormat(es[k].timestamp)))
  {
    var items := PlanUpTo(es, |es|, dateFormat, row);
    var before := PlanUpTo(es, k, dateFormat, row);
    var upTo := PlanUpTo(es, k + 1, dateFormat, row);
    PlanPrefix(es, k + 1, |es|, dateFormat, row);
    var p := RowPos(es, k, dateFormat, row);
    assert items[p] == upTo[p];
    if p > 0 {
      assert items[p - 1] == upTo[p - 1];
      if !NeedsHeader(es, k, dateFormat) {
        assert items[p - 1] == before[|before| - 1];
      }
    }
  }

  /**
   * For a log's fragment: the k-th row carries the k-th entry's formatted
   * time, padded day, link, star class and user label, and the number of
   * headers is 1 plus the number of date changes (0 for an empty log).
   */
  lemma LogPlan(log: Log, dateFormat: int -> string, timeFormat: int -> string)
    ensures var rows := Rows(Plan(log, dateFormat, timeFormat));
      && |rows| == |log.entries|
      && forall k :: 0 <= k < |rows| ==> rows[k] == RowOf(log.event, log.entries[k], timeFormat)
    ensures HeaderCount(Plan(log, dateFormat, timeFormat))
            == if log.entries == [] then 0 else 1 + DateChanges(log.entries, |log.entries|, dateFormat)
    ensures HeadersPrecedeRows(Plan(log, dateFormat, timeFormat))
  {
    var row := RowsFor(log.event, timeFormat);
    PlanRows(log.entries, |log.entries|, dateFormat, row);
    PlanHeaderCount(log.entries, |log.entries|, dateFormat, row);
    HeaderBeforeRow(log.entries, |log.entries|, dateFormat, row);
  }
}
