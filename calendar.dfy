/**
 * The calendar page of src/renderer/calendar.ts: the summary header, the
 * per-board and per-date aggregation of the work records, the icon of each day,
 * the 56-day window `create` asks for, `getDaysArray` and the detail list.
 * Hours are exact reals. A date the code moves by whole days is a day number
 * (module DateEx); "today" is a parameter.
 */
module Calendar {
  import opened Wrappers
  import opened Text
  import opened Models
  import opened DateEx

  /** `{ project, hours }` of the work summary. */
  datatype Summary = Summary(project: string, hours: real)

  /** An entry of `workSummaryMap`, which keeps its keys in the order they were first set. */
  datatype BoardEntry = BoardEntry(boardId: Option<Num>, summary: Summary)

  /** `workRecords.reduce((sum, record) => sum + record.workingHours, 0)`. */
  function TotalHours(rs: seq<WorkRecord>): real
    decreases |rs|
  {
    if rs == [] then 0.0 else TotalHours(rs[..|rs| - 1]) + rs[|rs| - 1].workingHours
  }

  function Dates(rs: seq<WorkRecord>): set<string> {
    set r | r in rs :: r.date
  }

  /** `new Set(workRecords.map(x => x.date)).size`. */
  function WorkDays(rs: seq<WorkRecord>): nat {
    |Dates(rs)|
  }

  /** The average per working day, 0 when there are no days. */
  function Average(rs: seq<WorkRecord>): (r: real)
    ensures WorkDays(rs) == 0 ==> r == 0.0
    ensures WorkDays(rs) != 0 ==> r * (WorkDays(rs) as real) == TotalHours(rs)
  {
    if WorkDays(rs) != 0 then TotalHours(rs) / (WorkDays(rs) as real) else 0.0
  }

  lemma DatesSnoc(rs: seq<WorkRecord>, r: WorkRecord)
    ensures Dates(rs + [r]) == Dates(rs) + {r.date}
  {
    assert forall x :: x in rs + [r] <==> x in rs || x == r;
  }

  /** There are no more working days than records, and none exactly when there are no records. */
  lemma {:induction false} WorkDaysBounds(rs: seq<WorkRecord>)
    ensures WorkDays(rs) <= |rs|
    ensures WorkDays(rs) == 0 <==> rs == []
    decreases |rs|
  {
    if rs != [] {
      var init := rs[..|rs| - 1];
      WorkDaysBounds(init);
      assert rs == init + [rs[|rs| - 1]];
      DatesSnoc(init, rs[|rs| - 1]);
      assert rs[|rs| - 1].date in Dates(rs);
    }
  }

  /** The hours of the records dated `date`. */
  function HoursOn(rs: seq<WorkRecord>, date: string): real
    decreases |rs|
  {
    if rs == [] then 0.0
    else HoursOn(rs[..|rs| - 1], date) + (if rs[|rs| - 1].date == date then rs[|rs| - 1].workingHours else 0.0)
  }

  /** One record more adds its hours to its own date only. */
  lemma HoursOnSnoc(rs: seq<WorkRecord>, record: WorkRecord)
    ensures forall d :: HoursOn(rs + [record], d) == HoursOn(rs, d) + (if record.date == d then record.workingHours else 0.0)
  {
    assert (rs + [record])[..|rs|] == rs;
  }

  lemma {:induction false} HoursOnAbsent(rs: seq<WorkRecord>, date: string)
    requires date !in Dates(rs)
    ensures HoursOn(rs, date) == 0.0
    decreases |rs|
  {
    if rs != [] {
      var init := rs[..|rs| - 1];
      assert rs == init + [rs[|rs| - 1]];
      DatesSnoc(init, rs[|rs| - 1]);
      HoursOnAbsent(init, date);
    }
  }

  /** When every record has the same date, that date's total is the total of all hours. */
  lemma {:induction false} HoursOnOneDate(rs: seq<WorkRecord>, date: string)
    requires forall i :: 0 <= i < |rs| ==> rs[i].date == date
    ensures HoursOn(rs, date) == TotalHours(rs)
    decreases |rs|
  {
    if rs != [] {
      HoursOnOneDate(rs[..|rs| - 1], date);
    }
  }

  /** The `dailyRecordMap` loop: one entry per date holding the sum of that date's hours. */
  method DailyTotals(rs: seq<WorkRecord>) returns (m: map<string, real>)
    ensures m.Keys == Dates(rs)
    ensures forall d :: d in m ==> m[d] == HoursOn(rs, d)
  {
    m := map[];
    var k := 0;
    while k < |rs|
      invariant 0 <= k <= |rs|
      invariant m.Keys == Dates(rs[..k])
      invariant forall d :: d in m ==> m[d] == HoursOn(rs[..k], d)
      decreases |rs| - k
    {
      var record := rs[k];
      assert rs[..k + 1] == rs[..k] + [record];
      DatesSnoc(rs[..k], record);
      HoursOnSnoc(rs[..k], record);
      if record.date !in m {
        HoursOnAbsent(rs[..k], record.date);
      }
      var hours := if record.date in m then m[record.date] + record.workingHours else record.workingHours;
      m := m[record.date := hours];
      k := k + 1;
    }
    assert rs[..|rs|] == rs;
  }

  /** The board ids in the order they first occur. */
  function Keys(rs: seq<WorkRecord>): seq<Option<Num>>
    decreases |rs|
  {
    if rs == [] then []
    else
      var ks := Keys(rs[..|rs| - 1]);
      ks + (if rs[|rs| - 1].boardId in ks then [] else [rs[|rs| - 1].boardId])
  }

  /** Each board id of the records occurs once among the keys, and nothing else does. */
  lemma {:induction false} KeysShape(rs: seq<WorkRecord>)
    ensures forall i, j :: 0 <= i < j < |Keys(rs)| ==> Keys(rs)[i] != Keys(rs)[j]
    ensures forall key :: key in Keys(rs) <==> exists i :: 0 <= i < |rs| && rs[i].boardId == key
    decreases |rs|
  {
    if rs != [] {
      var init := rs[..|rs| - 1];
      KeysShape(init);
      forall key
        ensures key in Keys(rs) <==> exists i :: 0 <= i < |rs| && rs[i].boardId == key
      {
        if key in Keys(init) {
          var i :| 0 <= i < |init| && init[i].boardId == key;
          assert rs[i].boardId == key;
        }
        if exists i :: 0 <= i < |rs| && rs[i].boardId == key {
          var i :| 0 <= i < |rs| && rs[i].boardId == key;
          if i < |init| {
            assert init[i].boardId == key;
          }
        }
      }
    }
  }

  /** The hours of the records of board `key`. */
  function BoardHours(rs: seq<WorkRecord>, key: Option<Num>): real
    decreases |rs|
  {
    if rs == [] then 0.0
    else BoardHours(rs[..|rs| - 1], key) + (if rs[|rs| - 1].boardId == key then rs[|rs| - 1].workingHours else 0.0)
  }

  lemma {:induction false} BoardHoursAbsent(rs: seq<WorkRecord>, key: Option<Num>)
    requires key !in Keys(rs)
    ensures BoardHours(rs, key) == 0.0
    decreases |rs|
  {
    if rs != [] {
      BoardHoursAbsent(rs[..|rs| - 1], key);
    }
  }

  /** The board detail of the last record of board `key`. */
  function LastDetail(rs: seq<WorkRecord>, key: Option<Num>): Option<string>
    decreases |rs|
  {
    if rs == [] then None
    else if rs[|rs| - 1].boardId == key then Some(rs[|rs| - 1].boardDetail)
    else LastDetail(rs[..|rs| - 1], key)
  }

  /** `split(',')`, `pop()`, `join(',')`: the board detail without its last comma piece. */
  function ProjectLabel(detail: string): string {
    var pieces := Split(detail, {','});
    Join(pieces[..|pieces| - 1], ",")
  }

  lemma {:induction false} JoinSnoc(parts: seq<string>, x: string, sep: string)
    requires parts != []
    ensures Join(parts + [x], sep) == Join(parts, sep) + sep + x
    decreases |parts|
  {
    if |parts| == 1 {
      assert parts + [x] == [parts[0], x];
    } else {
      assert (parts + [x])[1..] == parts[1..] + [x];
      JoinSnoc(parts[1..], x, sep);
    }
  }

  /**
   * Without a comma the label is empty; otherwise the detail is the label, a
   * comma and a last piece without commas.
   */
  lemma ProjectLabelShape(detail: string)
    ensures Count(detail, {','}) == 0 ==> ProjectLabel(detail) == ""
    ensures Count(detail, {','}) > 0 ==> exists last: string ::
      && detail == ProjectLabel(detail) + "," + last
      && forall i :: 0 <= i < |last| ==> last[i] != ','
  {
    var pieces := Split(detail, {','});
    SplitShape(detail, {','});
    JoinSplit(detail, ',');
    if |pieces| > 1 {
      var init := pieces[..|pieces| - 1];
      var last := pieces[|pieces| - 1];
      assert pieces == init + [last];
      JoinSnoc(init, last, ",");
      assert forall i :: 0 <= i < |last| ==> last[i] != ',' by {
        forall i | 0 <= i < |last|
          ensures last[i] != ','
        {
          assert pieces[|pieces| - 1][i] !in {','};
        }
      }
    }
  }

  /** The summary entry of board `key`: the label of its last record and the sum of its hours. */
  function EntryOf(rs: seq<WorkRecord>, key: Option<Num>): BoardEntry {
    var projectLabel := if LastDetail(rs, key).Some? then ProjectLabel(LastDetail(rs, key).value) else "";
    BoardEntry(key, Summary(projectLabel, BoardHours(rs, key)))
  }

  /** `workSummaryMap` after the loop, as a function of the records. */
  function Entries(rs: seq<WorkRecord>): (r: seq<BoardEntry>)
    ensures |r| == |Keys(rs)|
  {
    seq(|Keys(rs)|, i requires 0 <= i < |Keys(rs)| => EntryOf(rs, Keys(rs)[i]))
  }

  /** `workSummaryMap.has`/`get`: the position of a key. */
  function IndexOfKey(es: seq<BoardEntry>, key: Option<Num>): (r: Option<nat>)
    ensures r.Some? ==> r.value < |es| && es[r.value].boardId == key
    ensures r.None? ==> forall i :: 0 <= i < |es| ==> es[i].boardId != key
    decreases |es|
  {
    if es == [] then None
    else if es[0].boardId == key then Some(0)
    else match IndexOfKey(es[1..], key)
      case None => None
      case Some(j) => Some(j + 1)
  }

  /** One record more: its board's entry is set in place, or appended when the board is new. */
  lemma EntriesSnoc(rs: seq<WorkRecord>, record: WorkRecord)
    ensures var es := Entries(rs);
      var key := record.boardId;
      var projectLabel := ProjectLabel(record.boardDetail);
      Entries(rs + [record]) == match IndexOfKey(es, key)
        case Some(j) => es[j := BoardEntry(key, Summary(projectLabel, es[j].summary.hours + record.workingHours))]
        case None => es + [BoardEntry(key, Summary(projectLabel, record.workingHours))]
  {
    match IndexOfKey(Entries(rs), record.boardId)
    case Some(j) => EntriesSnocKnown(rs, record, j);
    case None => EntriesSnocNew(rs, record);
  }

  /** A record of a board already summarised updates that board's entry in place. */
  lemma EntriesSnocKnown(rs: seq<WorkRecord>, record: WorkRecord, j: nat)
    requires IndexOfKey(Entries(rs), record.boardId) == Some(j)
    ensures var es := Entries(rs);
      Entries(rs + [record]) ==
        es[j := BoardEntry(record.boardId, Summary(ProjectLabel(record.boardDetail), es[j].summary.hours + record.workingHours))]
  {
    var rs' := rs + [record];
    var key := record.boardId;
    var ks := Keys(rs);
    var es := Entries(rs);
    EntryOfSnoc(rs, record);
    KeysShape(rs);
    assert ks[j] == es[j].boardId == key;
    KeysSnoc(rs, record);
    var want := es[j := BoardEntry(key, Summary(ProjectLabel(record.boardDetail), es[j].summary.hours + record.workingHours))];
    forall i | 0 <= i < |ks|
      ensures Entries(rs')[i] == want[i]
    {
      if i != j { assert ks[i] != key; }
    }
  }

  /** A record of a new board appends its entry. */
  lemma EntriesSnocNew(rs: seq<WorkRecord>, record: WorkRecord)
    requires IndexOfKey(Entries(rs), record.boardId).None?
    ensures Entries(rs + [record]) ==
      Entries(rs) + [BoardEntry(record.boardId, Summary(ProjectLabel(record.boardDetail), record.workingHours))]
  {
    var rs' := rs + [record];
    var key := record.boardId;
    var ks := Keys(rs);
    var es := Entries(rs);
    EntryOfSnoc(rs, record);
    assert forall i :: 0 <= i < |ks| ==> ks[i] == es[i].boardId;
    assert key !in ks;
    KeysSnoc(rs, record);
    BoardHoursAbsent(rs, key);
    var want := es + [BoardEntry(key, Summary(ProjectLabel(record.boardDetail), record.workingHours))];
    forall i | 0 <= i < |ks| + 1
      ensures Entries(rs')[i] == want[i]
    {
    }
  }

  /** One record more leaves the key order alone, or adds its board last when the board is new. */
  lemma KeysSnoc(rs: seq<WorkRecord>, record: WorkRecord)
    ensures Keys(rs + [record]) == Keys(rs) + (if record.boardId in Keys(rs) then [] else [record.boardId])
  {
    assert (rs + [record])[..|rs|] == rs;
  }

  /** One record more changes only the entry of its own board: the label is the record's and its hours are added. */
  lemma EntryOfSnoc(rs: seq<WorkRecord>, record: WorkRecord)
    ensures forall other :: other != record.boardId ==> EntryOf(rs + [record], other) == EntryOf(rs, other)
    ensures EntryOf(rs + [record], record.boardId) ==
      BoardEntry(record.boardId, Summary(ProjectLabel(record.boardDetail), BoardHours(rs, record.boardId) + record.workingHours))
  {
    assert (rs + [record])[..|rs|] == rs;
  }

  /** The loop that fills `workSummaryMap`. */
  method BuildWorkSummary(rs: seq<WorkRecord>) returns (entries: seq<BoardEntry>)
    ensures entries == Entries(rs)
  {
    entries := [];
    var k := 0;
    while k < |rs|
      invariant 0 <= k <= |rs|
      invariant entries == Entries(rs[..k])
      decreases |rs| - k
    {
      var record := rs[k];
      assert rs[..k + 1] == rs[..k] + [record];
      var found := IndexOfKey(entries, record.boardId);
      if found.Some? {
        EntriesSnocKnown(rs[..k], record, found.value);
        var hours := entries[found.value].summary.hours + record.workingHours;
        entries := entries[found.value := BoardEntry(record.boardId, Summary(ProjectLabel(record.boardDetail), hours))];
      } else {
        EntriesSnocNew(rs[..k], record);
        entries := entries + [BoardEntry(record.boardId, Summary(ProjectLabel(record.boardDetail), record.workingHours))];
      }
      k := k + 1;
    }
    assert rs[..|rs|] == rs;
  }

  /**
   * Every board of the records has one summary, holding the sum of its hours and
   * the label of its last record.
   */
  lemma SummaryPerBoard(rs: seq<WorkRecord>, i: nat)
    requires i < |rs|
    ensures exists j :: 0 <= j < |Entries(rs)| && Entries(rs)[j].boardId == rs[i].boardId
    ensures forall j :: 0 <= j < |Entries(rs)| && Entries(rs)[j].boardId == rs[i].boardId ==>
      Entries(rs)[j].summary.hours == BoardHours(rs, rs[i].boardId)
    ensures forall j, j' :: 0 <= j < j' < |Entries(rs)| ==> Entries(rs)[j].boardId != Entries(rs)[j'].boardId
  {
    KeysShape(rs);
    assert rs[i].boardId in Keys(rs);
    var j :| 0 <= j < |Keys(rs)| && Keys(rs)[j] == rs[i].boardId;
    assert Entries(rs)[j].boardId == rs[i].boardId;
  }

  /** `[...workSummaryMap.values()]`. */
  function Values(es: seq<BoardEntry>): (r: seq<Summary>)
    ensures |r| == |es| && forall i :: 0 <= i < |es| ==> r[i] == es[i].summary
  {
    seq(|es|, i requires 0 <= i < |es| => es[i].summary)
  }

  /** The hours never increase along the sequence. */
  predicate NonIncreasing(s: seq<Summary>) {
    forall i, j :: 0 <= i < j < |s| ==> s[i].hours >= s[j].hours
  }

  /** `x` put before the first summary with fewer hours. */
  function InsertByHours(x: Summary, s: seq<Summary>): (r: seq<Summary>)
    ensures multiset(r) == multiset(s) + multiset{x}
    decreases |s|
  {
    if s == [] then [x]
    else if x.hours > s[0].hours then [x] + s
    else
      assert s == [s[0]] + s[1..];
      [s[0]] + InsertByHours(x, s[1..])
  }

  /** `sort((a, b) => (a.hours > b.hours ? -1 : 1))`, equal hours kept in their order. */
  function SortByHours(s: seq<Summary>): (r: seq<Summary>)
    ensures multiset(r) == multiset(s)
    decreases |s|
  {
    if s == [] then []
    else
      assert s == s[..|s| - 1] + [s[|s| - 1]];
      InsertByHours(s[|s| - 1], SortByHours(s[..|s| - 1]))
  }

  lemma {:induction false} InsertByHoursSorted(x: Summary, s: seq<Summary>)
    requires NonIncreasing(s)
    ensures NonIncreasing(InsertByHours(x, s))
    decreases |s|
  {
    if s != [] && x.hours <= s[0].hours {
      InsertByHoursSorted(x, s[1..]);
      var t := InsertByHours(x, s[1..]);
      assert forall y :: y in t ==> y == x || y in s[1..] by {
        forall y | y in t
          ensures y == x || y in s[1..]
        {
          assert y in multiset(t);
        }
      }
      var r := [s[0]] + t;
      forall i, j | 0 <= i < j < |r|
        ensures r[i].hours >= r[j].hours
      {
        if i == 0 {
          assert r[j] in t;
        }
      }
    }
  }

  /** The work summary ends up ordered by hours, most first, and holds the same summaries. */
  lemma {:induction false} SortByHoursSorted(s: seq<Summary>)
    ensures NonIncreasing(SortByHours(s))
    decreases |s|
  {
    if s != [] {
      SortByHoursSorted(s[..|s| - 1]);
      InsertByHoursSorted(s[|s| - 1], SortByHours(s[..|s| - 1]));
    }
  }

  /** The icon of a day. */
  datatype DayIcon = NoIcon | Skull | Mad | Frustrated | Uncomfortable | Smile | Maru(hours: real)

  /** The threshold chain of the day loop, tested from `skull` down; `None` is a day without records. */
  function IconFor(hours: Option<real>, c: CalendarConfig): (r: DayIcon)
    ensures r.NoIcon? <==> (hours.None? ||
      (hours.value < c.skull && hours.value < c.mad && hours.value < c.frustrated
       && hours.value < c.uncomfortable && hours.value < c.smile && hours.value < 0.0))
    ensures r.Maru? ==> hours.Some? && r.hours == hours.value && 0.0 <= hours.value < c.smile
  {
    match hours
    case None => NoIcon
    case Some(h) =>
      if h >= c.skull then Skull
      else if h >= c.mad then Mad
      else if h >= c.frustrated then Frustrated
      else if h >= c.uncomfortable then Uncomfortable
      else if h >= c.smile then Smile
      else if h >= 0.0 then Maru(h)
      else NoIcon
  }

  /** `iconClass` of an icon. */
  function IconClass(i: DayIcon): string {
    match i
    case NoIcon => ""
    case Skull => "icon skull"
    case Mad => "icon mad"
    case Frustrated => "icon frustrated"
    case Uncomfortable => "icon uncomfortable"
    case Smile => "icon smile"
    case Maru(_) => "maru"
  }

  function Rank(i: DayIcon): nat {
    match i
    case NoIcon => 0
    case Maru(_) => 1
    case Smile => 2
    case Uncomfortable => 3
    case Frustrated => 4
    case Mad => 5
    case Skull => 6
  }

  predicate ThresholdsAscending(c: CalendarConfig) {
    c.smile <= c.uncomfortable <= c.frustrated <= c.mad <= c.skull
  }

  /** With ascending thresholds, more hours never give a milder icon. */
  lemma IconMonotone(h1: real, h2: real, c: CalendarConfig)
    requires ThresholdsAscending(c) && h1 <= h2
    ensures Rank(IconFor(Some(h1), c)) <= Rank(IconFor(Some(h2), c))
  {
  }

  /** A day of `getDaysArray`. */
  datatype Day = Day(fullDate: string, date: string)

  function DayOf(n: int): Day {
    Day(ToDateString(CivilOf(n)), IntToString(CivilOf(n).day))
  }

  /** The `n` days from day number `start` on. */
  function DaysFrom(start: int, n: nat): (r: seq<Day>)
    ensures |r| == n && forall i :: 0 <= i < n ==> r[i] == DayOf(start + i)
  {
    seq(n, i requires 0 <= i < n => DayOf(start + i))
  }

  /** One day more appends the next day. */
  lemma DaysFromSnoc(start: int, n: nat)
    ensures DaysFrom(start, n + 1) == DaysFrom(start, n) + [DayOf(start + n)]
  {
  }

  /** `getDaysArray(start, end)`: every day from `start` to `end`, both included. */
  method DaysArray(start: int, end: int) returns (arr: seq<Day>)
    ensures |arr| == if start <= end then end - start + 1 else 0
    ensures forall i :: 0 <= i < |arr| ==> arr[i] == DayOf(start + i)
  {
    arr := [];
    var dt := start;
    while dt <= end
      invariant start <= dt && (start <= end ==> dt <= end + 1) && (start > end ==> dt == start)
      invariant arr == DaysFrom(start, dt - start)
      decreases end - dt
    {
      DaysFromSnoc(start, dt - start);
      arr := arr + [DayOf(dt)];
      dt := dt + 1;
    }
  }

  lemma BeforeTransitive(a: Date, b: Date, c: Date)
    requires Before(a, b) && Before(b, c)
    ensures Before(a, c)
  {
  }

  /** Later day numbers are later dates, so the days come in ascending order. */
  lemma {:induction false} DaysAscending(a: int, b: int)
    requires a < b
    ensures Before(CivilOf(a), CivilOf(b))
    decreases b - a
  {
    CivilOfSucc(b - 1);
    if a < b - 1 {
      DaysAscending(a, b - 1);
      BeforeTransitive(CivilOf(a), CivilOf(b - 1), CivilOf(b));
    }
  }

  /** `create`: from 28 days plus the weekday before the target to 27 days minus it after. */
  function CalendarWindow(target: int): (r: (int, int))
    ensures Weekday(r.0) == 0
    ensures r.1 - r.0 + 1 == 56
    ensures r.0 <= target - 28 && target + 21 <= r.1
  {
    var w := Weekday(target);
    assert (target - 28 - w + 4) % 7 == 0;
    (target - 28 - w, target + 27 - w)
  }

  /** A calendar cell: the day, its classes and its icon. */
  datatype DayCell = DayCell(day: Day, disabled: bool, holiday: bool, icon: DayIcon)

  predicate IsHoliday(holidays: seq<Holiday>, date: string) {
    exists h :: h in holidays && h.date == date
  }

  /** A day is disabled when its date text is after today's, and a holiday when listed. */
  function CellOf(day: Day, today: string, holidays: seq<Holiday>, daily: map<string, real>, c: CalendarConfig): DayCell {
    DayCell(day, Less(today, day.fullDate), IsHoliday(holidays, day.fullDate),
            IconFor(if day.fullDate in daily then Some(daily[day.fullDate]) else None, c))
  }

  /** The `for (const day of days)` loop of the constructor. */
  method DayCells(days: seq<Day>, today: string, holidays: seq<Holiday>, daily: map<string, real>, c: CalendarConfig)
    returns (cells: seq<DayCell>)
    ensures |cells| == |days|
    ensures forall i :: 0 <= i < |days| ==> cells[i] == CellOf(days[i], today, holidays, daily, c)
  {
    cells := [];
    for k := 0 to |days|
      invariant |cells| == k
      invariant forall i :: 0 <= i < k ==> cells[i] == CellOf(days[i], today, holidays, daily, c)
    {
      cells := cells + [CellOf(days[k], today, holidays, daily, c)];
    }
  }

  /** A day with records gets no icon only when its total is negative and below every threshold. */
  lemma CellIcon(day: Day, today: string, holidays: seq<Holiday>, rs: seq<WorkRecord>, daily: map<string, real>, c: CalendarConfig)
    requires daily.Keys == Dates(rs) && forall d :: d in daily ==> daily[d] == HoursOn(rs, d)
    ensures day.fullDate !in Dates(rs) ==> CellOf(day, today, holidays, daily, c).icon == NoIcon
    ensures day.fullDate in Dates(rs) ==> CellOf(day, today, holidays, daily, c).icon == IconFor(Some(HoursOn(rs, day.fullDate)), c)
  {
  }

  /** The summaries the detail view lists: those with positive hours, in order. */
  function Positive(s: seq<Summary>): (r: seq<Summary>)
    ensures forall x :: x in r ==> x in s && x.hours > 0.0
    ensures forall x :: x in s && x.hours > 0.0 ==> x in r
    decreases |s|
  {
    if s == [] then []
    else Positive(s[..|s| - 1]) + (if s[|s| - 1].hours > 0.0 then [s[|s| - 1]] else [])
  }

  /** The detail list of a sorted summary is sorted too. */
  lemma {:induction false} PositiveNonIncreasing(s: seq<Summary>)
    requires NonIncreasing(s)
    ensures NonIncreasing(Positive(s))
    decreases |s|
  {
    if s != [] {
      var init := s[..|s| - 1];
      assert NonIncreasing(init);
      PositiveNonIncreasing(init);
      var p := Positive(init);
      var r := Positive(s);
      if s[|s| - 1].hours > 0.0 {
        forall i, j | 0 <= i < j < |r|
          ensures r[i].hours >= r[j].hours
        {
          if j == |r| - 1 {
            assert r[i] in p;
            assert r[i] in init;
          }
        }
      }
    }
  }

  /** The page state the constructor leaves: the sorted work summary and the calendar cells. */
  class CalendarPage {
    var workSummary: seq<Summary>
    var cells: seq<DayCell>
    var totalHour: real
    var workDays: nat

    constructor(config: CalendarConfig, startDay: int, endDay: int, holidays: seq<Holiday>,
                workRecords: seq<WorkRecord>, today: string)
      ensures totalHour == TotalHours(workRecords) && workDays == WorkDays(workRecords)
      ensures workSummary == SortByHours(Values(Entries(workRecords)))
      ensures NonIncreasing(workSummary) && multiset(workSummary) == multiset(Values(Entries(workRecords)))
      ensures |cells| == if startDay <= endDay then endDay - startDay + 1 else 0
      ensures forall i :: 0 <= i < |cells| ==> cells[i].day == DayOf(startDay + i)
      ensures forall i :: 0 <= i < |cells| ==>
        && cells[i].disabled == Less(today, cells[i].day.fullDate)
        && cells[i].holiday == IsHoliday(holidays, cells[i].day.fullDate)
        && cells[i].icon == IconFor(if cells[i].day.fullDate in Dates(workRecords) then Some(HoursOn(workRecords, cells[i].day.fullDate)) else None, config)
    {
      totalHour := TotalHours(workRecords);
      workDays := WorkDays(workRecords);
      var entries := BuildWorkSummary(workRecords);
      workSummary := SortByHours(Values(entries));
      SortByHoursSorted(Values(entries));
      var days := DaysArray(startDay, endDay);
      var daily := DailyTotals(workRecords);
      var dayCells := DayCells(days, today, holidays, daily, config);
      forall i | 0 <= i < |dayCells|
        ensures dayCells[i].icon == IconFor(if dayCells[i].day.fullDate in Dates(workRecords) then Some(HoursOn(workRecords, dayCells[i].day.fullDate)) else None, config)
      {
        CellIcon(days[i], today, holidays, workRecords, daily, config);
      }
      cells := dayCells;
    }

    /** `showWorkingHoursDetail`: one row per summary with positive hours, in the summary's order. */
    method ShowWorkingHoursDetail() returns (rows: seq<Summary>)
      ensures rows == Positive(workSummary)
    {
      var ws := workSummary;
      rows := [];
      var k := 0;
      while k < |ws|
        invariant 0 <= k <= |ws|
        invariant rows == Positive(ws[..k])
        decreases |ws| - k
      {
        var next := ws[..k + 1];
        assert next[..k] == ws[..k] && next[k] == ws[k];
        if ws[k].hours <= 0.0 {
          k := k + 1;
          continue;
        }
        rows := rows + [ws[k]];
        k := k + 1;
      }
      assert ws[..|ws|] == ws;
    }
  }
}
