/**
 * The notification list and its timers (`notificationManager`), the schedule
 * markup (`createNotifyDom`) and the assembly of the day's schedule
 * (`NotificationPage.create`) of src/renderer/notification.ts. The clock is the
 * minute of the day, `setTimeout` hands out increasing ids, and the conversion of
 * a date-time to `HH:MM` is a parameter.
 */
module Notification {
  import opened Wrappers
  import opened Text
  import opened Models
  import opened Sorting
  import AppSettings

  /** An entry of `notificationTimers`. */
  datatype Timer = Timer(notificationId: int, timerId: nat)

  /**
   * The minute of the day the timer aims at: hours and minutes are the
   * `parseInt` of the first two `:` pieces. A piece that does not parse, or a
   * missing minutes piece, makes the target date invalid.
   */
  function TargetMinute(time: string): (r: Option<int>)
    ensures r.Some? ==> |Split(time, {':'})| >= 2
  {
    var parts := Split(time, {':'});
    TargetOfParsed(ParseInt(parts[0]), if |parts| > 1 then ParseInt(parts[1]) else None)
  }

  /** `setHours` and `setMinutes` of the parsed parts: hours times 60 plus minutes, or no valid time when either is `NaN`. */
  function TargetOfParsed(h: Option<int>, m: Option<int>): (r: Option<int>)
    ensures r.Some? <==> h.Some? && m.Some?
  {
    if h.Some? && m.Some? then Some(h.value * 60 + m.value) else None
  }

  /**
   * Whether `add` registers a timer: the delay is the target minus now, and only
   * a delay `<= 0` is skipped. An invalid date gives a NaN delay, which is not
   * `<= 0`, so such a notification gets a timer that fires at once.
   */
  predicate GetsTimer(time: string, nowMinute: int) {
    TargetMinute(time).None? || TargetMinute(time).value > nowMinute
  }

  /** For each notification, whether it gets a timer. */
  function DueFlags(ns: seq<AppNotification>, nowMinute: int): (r: seq<bool>)
    ensures |r| == |ns|
  {
    seq(|ns|, k requires 0 <= k < |ns| => GetsTimer(ns[k].time, nowMinute))
  }

  /** The timers registered for the notifications whose flag is set, numbered from `firstId`. */
  function Registered(ns: seq<AppNotification>, due: seq<bool>, firstId: nat): (r: seq<Timer>)
    requires |due| == |ns|
    ensures |r| <= |ns|
    decreases |ns|
  {
    if ns == [] then []
    else
      var init := Registered(ns[..|ns| - 1], due[..|ns| - 1], firstId);
      init + (if due[|ns| - 1] then [Timer(ns[|ns| - 1].id, firstId + |init|)] else [])
  }

  /** The timers `add` registers for the given notifications, numbered from `firstId`. */
  function TimersFor(ns: seq<AppNotification>, nowMinute: int, firstId: nat): (r: seq<Timer>)
    ensures |r| <= |ns|
  {
    Registered(ns, DueFlags(ns, nowMinute), firstId)
  }

  /** Extending the prefix by one notification adds its timer, if its flag is set, at the end. */
  lemma {:induction false} RegisteredStep(ns: seq<AppNotification>, due: seq<bool>, k: nat, firstId: nat)
    requires |due| == |ns| && k < |ns|
    ensures var before := Registered(ns[..k], due[..k], firstId);
      Registered(ns[..k + 1], due[..k + 1], firstId)
        == before + (if due[k] then [Timer(ns[k].id, firstId + |before|)] else [])
  {
    assert ns[..k + 1][..k] == ns[..k];
    assert due[..k + 1][..k] == due[..k];
  }

  /** The loop of `add`: one `setTimeout` per notification whose flag is set, each taking the next id. */
  method RegisterTimers(ns: seq<AppNotification>, due: seq<bool>, firstId: nat) returns (added: seq<Timer>, next: nat)
    requires |due| == |ns|
    ensures added == Registered(ns, due, firstId)
    ensures next == firstId + |added|
  {
    added, next := [], firstId;
    var k := 0;
    while k < |ns|
      invariant 0 <= k <= |ns|
      invariant added == Registered(ns[..k], due[..k], firstId)
      invariant next == firstId + |added|
      decreases |ns| - k
    {
      RegisteredStep(ns, due, k, firstId);
      if due[k] {
        added := added + [Timer(ns[k].id, next)];
        next := next + 1;
      }
      k := k + 1;
    }
    assert ns[..|ns|] == ns && due[..|ns|] == due;
  }

  /** The ids of the notifications that get a timer, in order. */
  function DueIds(ns: seq<AppNotification>, nowMinute: int): seq<int>
    decreases |ns|
  {
    if ns == [] then []
    else DueIds(ns[..|ns| - 1], nowMinute) + (if GetsTimer(ns[|ns| - 1].time, nowMinute) then [ns[|ns| - 1].id] else [])
  }

  function TimerIds(ts: seq<Timer>): seq<int>
    decreases |ts|
  {
    if ts == [] then [] else TimerIds(ts[..|ts| - 1]) + [ts[|ts| - 1].notificationId]
  }

  lemma TimerIdsAppend(a: seq<Timer>, b: seq<Timer>)
    requires |b| <= 1
    ensures TimerIds(a + b) == TimerIds(a) + TimerIds(b)
  {
    if b == [] {
      assert a + b == a;
    } else {
      assert (a + b)[..|a + b| - 1] == a;
    }
  }

  /**
   * One timer per notification that gets one, in order, for nothing else; the
   * timer ids are consecutive from the first.
   */
  lemma {:induction false} TimersForShape(ns: seq<AppNotification>, nowMinute: int, firstId: nat)
    ensures TimerIds(TimersFor(ns, nowMinute, firstId)) == DueIds(ns, nowMinute)
    ensures forall k :: 0 <= k < |TimersFor(ns, nowMinute, firstId)| ==>
      TimersFor(ns, nowMinute, firstId)[k].timerId == firstId + k
    decreases |ns|
  {
    if ns != [] {
      var init := TimersFor(ns[..|ns| - 1], nowMinute, firstId);
      var last := ns[|ns| - 1];
      assert DueFlags(ns, nowMinute)[..|ns| - 1] == DueFlags(ns[..|ns| - 1], nowMinute);
      TimersForShape(ns[..|ns| - 1], nowMinute, firstId);
      var tail := if GetsTimer(last.time, nowMinute) then [Timer(last.id, firstId + |init|)] else [];
      TimerIdsAppend(init, tail);
      if tail != [] {
        assert TimerIds(tail) == [last.id] by {
          assert tail[..0] == [];
        }
      }
    }
  }

  /** A notification whose minute has not come yet gets a timer, and one whose minute is now or past gets none. */
  lemma DueIffLater(n: AppNotification, nowMinute: int)
    requires TargetMinute(n.time).Some?
    ensures TimersFor([n], nowMinute, 0) != [] <==> TargetMinute(n.time).value > nowMinute
  {
  }

  /** `findIndex(x => x.id === id)`. */
  function FindById(ns: seq<AppNotification>, id: int): (r: Option<nat>)
    ensures r.Some? ==> r.value < |ns| && ns[r.value].id == id && forall k :: 0 <= k < r.value ==> ns[k].id != id
    ensures r.None? <==> forall k :: 0 <= k < |ns| ==> ns[k].id != id
  {
    if ns == [] then None
    else if ns[0].id == id then Some(0)
    else match FindById(ns[1..], id)
      case None => None
      case Some(k) => Some(k + 1)
  }

  function FindTimer(ts: seq<Timer>, id: int): (r: Option<nat>)
    ensures r.Some? ==> r.value < |ts| && ts[r.value].notificationId == id && forall k :: 0 <= k < r.value ==> ts[k].notificationId != id
    ensures r.None? <==> forall k :: 0 <= k < |ts| ==> ts[k].notificationId != id
  {
    if ts == [] then None
    else if ts[0].notificationId == id then Some(0)
    else match FindTimer(ts[1..], id)
      case None => None
      case Some(k) => Some(k + 1)
  }

  /** `splice(index, 1)` with the index `findIndex` gave: -1 counts from the end, so it removes the last entry. */
  function SpliceFound<T>(s: seq<T>, index: Option<nat>): (r: seq<T>)
    requires index.Some? ==> index.value < |s|
  {
    match index
    case Some(i) => s[..i] + s[i + 1..]
    case None => if s == [] then s else s[..|s| - 1]
  }

  /** The notification list after `remove(id)`. */
  function RemovedNotifications(ns: seq<AppNotification>, id: int): seq<AppNotification> {
    SpliceFound(ns, FindById(ns, id))
  }

  /** With the id present, its first entry goes and the others stay in order. */
  lemma RemoveFound(ns: seq<AppNotification>, id: int)
    requires FindById(ns, id).Some?
    ensures var i := FindById(ns, id).value; var r := RemovedNotifications(ns, id);
      && |r| == |ns| - 1
      && r == ns[..i] + ns[i + 1..]
      && multiset(r) + multiset{ns[i]} == multiset(ns)
  {
    var i := FindById(ns, id).value;
    assert ns == ns[..i] + [ns[i]] + ns[i + 1..];
  }

  /** With the id absent, `splice(-1, 1)` drops the last notification, whatever its id. */
  lemma RemoveAbsentDropsLast(ns: seq<AppNotification>, id: int)
    requires ns != [] && forall k :: 0 <= k < |ns| ==> ns[k].id != id
    ensures RemovedNotifications(ns, id) == ns[..|ns| - 1]
    ensures multiset(RemovedNotifications(ns, id)) + multiset{ns[|ns| - 1]} == multiset(ns)
  {
    assert ns == ns[..|ns| - 1] + [ns[|ns| - 1]];
  }

  /**
   * A notification whose minute had passed when it was added has no timer, so a
   * later `remove` of it finds no timer entry: `notificationTimers[-1].timerId`
   * throws, after the notification list was spliced.
   */
  lemma PastNotificationHasNoTimer(ts: seq<Timer>, n: AppNotification, nowMinute: int, firstId: nat)
    requires FindTimer(ts, n.id).None? && !GetsTimer(n.time, nowMinute)
    ensures FindTimer(ts + TimersFor([n], nowMinute, firstId), n.id).None?
  {
    assert [n][..0] == [];
    assert TimersFor([n], nowMinute, firstId) == [];
    assert ts + [] == ts;
  }

  /** For `h:m` with digit strings `h` and `m`, the target is `h` hours and `m` minutes after midnight. */
  lemma ClockTargetMinute(h: string, m: string)
    requires h != [] && m != [] && AllDigits(h) && AllDigits(m)
    ensures TargetMinute(h + ":" + m).Some? && TargetMinute(h + ":" + m).value == DigitsValue(h) * 60 + DigitsValue(m)
  {
    ClockSplit(h, m);
    TargetOfPieces(h + ":" + m, h, m, DigitsValue(h), DigitsValue(m));
  }

  /** `h:m` with digit strings `h` and `m` splits into exactly those two. */
  lemma ClockSplit(h: string, m: string)
    requires AllDigits(h) && AllDigits(m)
    ensures Split(h + ":" + m, {':'}) == [h, m]
  {
    assert h + ":" + m == h + [':'] + m;
    CountNone(h, {':'});
    CountNone(m, {':'});
    SplitAroundSeparator(h, ':', m, {':'});
  }

  /** A time that splits into two digit strings is `x` hours and `y` minutes, their values. */
  lemma TargetOfPieces(time: string, h: string, m: string, x: int, y: int)
    requires h != [] && m != [] && AllDigits(h) && AllDigits(m)
    requires x == DigitsValue(h) && y == DigitsValue(m)
    requires Split(time, {':'}) == [h, m]
    ensures TargetMinute(time) == Some(x * 60 + y)
  {
    TargetOfSplit(time, h, m);
    TargetOfDigits(h, m, x, y);
  }

  /** Two digit strings parse to their hours `x` and minutes `y`. */
  lemma TargetOfDigits(h: string, m: string, x: int, y: int)
    requires h != [] && m != [] && AllDigits(h) && AllDigits(m)
    requires x == DigitsValue(h) && y == DigitsValue(m)
    ensures TargetOfParsed(ParseInt(h), ParseInt(m)) == Some(x * 60 + y)
  {
    ParseIntOfDigitPair(h, m);
    ParsedTarget(ParseInt(h), ParseInt(m), x, y);
  }

  /** Both parts parsed: hours times 60 plus minutes. */
  lemma ParsedTarget(a: Option<int>, b: Option<int>, x: int, y: int)
    requires a == Some(x) && b == Some(y)
    ensures TargetOfParsed(a, b) == Some(x * 60 + y)
  {
  }

  /** A time that splits into exactly two parts is read from those two parts. */
  lemma TargetOfSplit(time: string, h: string, m: string)
    requires Split(time, {':'}) == [h, m]
    ensures TargetMinute(time) == TargetOfParsed(ParseInt(h), ParseInt(m))
  {
  }

  /** A concrete case: `"08:00"` added at 09:00 gets no timer. */
  lemma EightOClockAtNine(n: AppNotification)
    requires n.time == "08:00"
    ensures TargetMinute(n.time).Some? && TargetMinute(n.time).value == 480 && !GetsTimer(n.time, 540)
  {
    EightOClockText();
    ClockTimeGetsNoTimer(n.time, "08", "00", 540);
  }

  /** A digit time `h:m` at or before the current minute gets no timer. */
  lemma ClockTimeGetsNoTimer(time: string, h: string, m: string, nowMinute: int)
    requires h != [] && m != [] && AllDigits(h) && AllDigits(m) && time == h + ":" + m
    requires DigitsValue(h) * 60 + DigitsValue(m) <= nowMinute
    ensures TargetMinute(time).Some? && TargetMinute(time).value == DigitsValue(h) * 60 + DigitsValue(m)
    ensures !GetsTimer(time, nowMinute)
  {
    ClockTargetMinute(h, m);
  }

  /** `"08:00"` is `"08"`, a colon and `"00"`, which read as 8 and 0. */
  lemma EightOClockText()
    ensures "08:00" == "08" + ":" + "00"
    ensures AllDigits("08") && AllDigits("00") && DigitsValue("08") == 8 && DigitsValue("00") == 0
  {
    TwoDigitValue("08");
    TwoDigitValue("00");
  }

  /**
   * What `remove` is meant to do: take out the notification with the id, if
   * any, and clear its timer, if it has one; nothing else changes and nothing
   * throws.
   */
  function IntendedRemove(ns: seq<AppNotification>, ts: seq<Timer>, id: int): (r: (seq<AppNotification>, seq<Timer>, Option<nat>))
  {
    var ns' := match FindById(ns, id) case Some(i) => ns[..i] + ns[i + 1..] case None => ns;
    match FindTimer(ts, id)
    case Some(j) => (ns', ts[..j] + ts[j + 1..], Some(ts[j].timerId))
    case None => (ns', ts, None)
  }

  /** The intended removal never touches another id's notification, and an absent id changes nothing. */
  lemma IntendedRemoveKeepsOthers(ns: seq<AppNotification>, ts: seq<Timer>, id: int)
    ensures var (ns', ts', cleared) := IntendedRemove(ns, ts, id);
      && (forall n :: n in ns && n.id != id ==> n in ns')
      && (forall n :: n in ns' ==> n in ns)
      && (FindById(ns, id).None? ==> ns' == ns)
      && (FindTimer(ts, id).None? ==> ts' == ts && cleared.None?)
      && (FindTimer(ts, id).Some? ==> cleared == Some(ts[FindTimer(ts, id).value].timerId))
  {
    match FindById(ns, id)
    case None =>
    case Some(i) =>
      RemoveAtKeepsOthers(ns, i);
  }

  /** Taking out position `i` keeps every other element and adds none. */
  lemma RemoveAtKeepsOthers(ns: seq<AppNotification>, i: nat)
    requires i < |ns|
    ensures forall n :: n in ns && n != ns[i] ==> n in ns[..i] + ns[i + 1..]
    ensures forall n :: n in ns[..i] + ns[i + 1..] ==> n in ns
  {
    assert ns == ns[..i] + [ns[i]] + ns[i + 1..];
  }

  /** Where the id is present and has a timer, the code as written agrees with the intended removal. */
  lemma IntendedAgreesWhenTimed(ns: seq<AppNotification>, ts: seq<Timer>, id: int)
    requires FindById(ns, id).Some? && FindTimer(ts, id).Some?
    ensures IntendedRemove(ns, ts, id).0 == RemovedNotifications(ns, id)
  {
  }

  /**
   * `remove(id)` as written: the list is spliced first; then a missing timer
   * entry makes `notificationTimers[-1].timerId` throw.
   */
  function WrittenRemove(ns: seq<AppNotification>, ts: seq<Timer>, id: int): (seq<AppNotification>, Result<(seq<Timer>, nat)>) {
    (RemovedNotifications(ns, id),
     match FindTimer(ts, id)
     case None => Err("Cannot read properties of undefined (reading 'timerId')")
     case Some(j) => Ok((ts[..j] + ts[j + 1..], ts[j].timerId)))
  }

  /**
   * A notification added after its minute had passed: as written, removing it
   * (as `updateNotification` and `deleteNotification` do) takes it out of the
   * list and then throws, so an update never re-adds it; the intended removal
   * takes it out without throwing.
   */
  lemma UntimedRemoveLosesEntry(ns: seq<AppNotification>, ts: seq<Timer>, n: AppNotification, nowMinute: int, firstId: nat)
    requires FindById(ns, n.id).None? && FindTimer(ts, n.id).None? && !GetsTimer(n.time, nowMinute)
    ensures var ns', ts' := ns + [n], ts + TimersFor([n], nowMinute, firstId);
      && WrittenRemove(ns', ts', n.id).0 == ns
      && WrittenRemove(ns', ts', n.id).1.Err?
      && IntendedRemove(ns', ts', n.id) == (ns, ts, None)
  {
    NoTimerWhenPast(n, nowMinute, firstId);
    assert ts + [] == ts;
    AppendedFoundLast(ns, n);
    WrittenRemoveUntimed(ns + [n], ts, n.id);
  }

  /** A notification past its minute registers no timer. */
  lemma NoTimerWhenPast(n: AppNotification, nowMinute: int, firstId: nat)
    requires !GetsTimer(n.time, nowMinute)
    ensures TimersFor([n], nowMinute, firstId) == []
  {
    assert [n][..0] == [];
  }

  /** A new id appended last is found last, and removing it gives the list back. */
  lemma AppendedFoundLast(ns: seq<AppNotification>, n: AppNotification)
    requires FindById(ns, n.id).None?
    ensures FindById(ns + [n], n.id) == Some(|ns|) && RemovedNotifications(ns + [n], n.id) == ns
  {
    var ns' := ns + [n];
    assert ns'[|ns|] == n;
    assert FindById(ns', n.id) == Some(|ns|);
    assert ns'[..|ns|] + ns'[|ns| + 1..] == ns;
  }

  /** For a listed id without a timer, the written removal fails after the splice and the intended one clears nothing. */
  lemma WrittenRemoveUntimed(ns: seq<AppNotification>, ts: seq<Timer>, id: int)
    requires FindById(ns, id).Some? && FindTimer(ts, id).None?
    ensures WrittenRemove(ns, ts, id).0 == RemovedNotifications(ns, id) && WrittenRemove(ns, ts, id).1.Err?
    ensures IntendedRemove(ns, ts, id) == (RemovedNotifications(ns, id), ts, None)
  {
  }

  /** The closure state of `notificationManager`. */
  class NotificationManager {
    var notifications: seq<AppNotification>
    var timers: seq<Timer>
    /** The id the next `setTimeout` returns. */
    var nextTimerId: nat
    /** The timer ids passed to `clearTimeout`, in order. */
    var cleared: seq<nat>
    /** How many `notificationChanged` events were triggered. */
    var changedEvents: nat

    constructor()
      ensures notifications == [] && timers == [] && cleared == [] && changedEvents == 0 && nextTimerId == 1
    {
      notifications := [];
      timers := [];
      nextTimerId := 1;
      cleared := [];
      changedEvents := 0;
    }

    /** `add`: the notifications are appended, then a timer is registered for each one that is due later. */
    method Add(ns: seq<AppNotification>, nowMinute: int)
      modifies this
      ensures notifications == old(notifications) + ns
      ensures timers == old(timers) + TimersFor(ns, nowMinute, old(nextTimerId))
      ensures nextTimerId == old(nextTimerId) + |TimersFor(ns, nowMinute, old(nextTimerId))|
      ensures cleared == old(cleared) && changedEvents == old(changedEvents)
    {
      notifications := notifications + ns;
      var added, next := RegisterTimers(ns, DueFlags(ns, nowMinute), nextTimerId);
      timers, nextTimerId := timers + added, next;
    }

    /**
     * `remove(id)`, corrected: the notification is taken out when present and its
     * timer cleared when it has one; `WrittenRemove` is the code as written.
     */
    method Remove(id: int)
      modifies this
      ensures var (ns, ts, c) := IntendedRemove(old(notifications), old(timers), id);
        && notifications == ns && timers == ts
        && cleared == old(cleared) + (if c.Some? then [c.value] else [])
      ensures nextTimerId == old(nextTimerId) && changedEvents == old(changedEvents)
    {
      var index := FindById(notifications, id);
      if index.Some? {
        notifications := notifications[..index.value] + notifications[index.value + 1..];
      }
      var timerIndex := FindTimer(timers, id);
      if timerIndex.Some? {
        cleared := cleared + [timers[timerIndex.value].timerId];
        timers := timers[..timerIndex.value] + timers[timerIndex.value + 1..];
      }
    }

    /** `addNotifications`: `add`, then one change event. */
    method AddNotifications(ns: seq<AppNotification>, nowMinute: int)
      modifies this
      ensures notifications == old(notifications) + ns
      ensures timers == old(timers) + TimersFor(ns, nowMinute, old(nextTimerId))
      ensures nextTimerId == old(nextTimerId) + |TimersFor(ns, nowMinute, old(nextTimerId))|
      ensures cleared == old(cleared) && changedEvents == old(changedEvents) + 1
    {
      Add(ns, nowMinute);
      changedEvents := changedEvents + 1;
    }

    /** `deleteNotification`: `remove`, then one change event. */
    method DeleteNotification(id: int)
      modifies this
      ensures var (ns, ts, c) := IntendedRemove(old(notifications), old(timers), id);
        && notifications == ns && timers == ts
        && cleared == old(cleared) + (if c.Some? then [c.value] else [])
      ensures nextTimerId == old(nextTimerId) && changedEvents == old(changedEvents) + 1
    {
      Remove(id);
      changedEvents := changedEvents + 1;
    }

    /** `updateNotification`: `remove` then `add`, so the entry moves to the end, then one change event. */
    method UpdateNotification(n: AppNotification, nowMinute: int)
      modifies this
      ensures var (ns, ts, c) := IntendedRemove(old(notifications), old(timers), n.id);
        && notifications == ns + [n]
        && timers == ts + TimersFor([n], nowMinute, old(nextTimerId))
        && cleared == old(cleared) + (if c.Some? then [c.value] else [])
      ensures nextTimerId == old(nextTimerId) + |TimersFor([n], nowMinute, old(nextTimerId))|
      ensures changedEvents == old(changedEvents) + 1
    {
      Remove(n.id);
      Add([n], nowMinute);
      changedEvents := changedEvents + 1;
    }
  }

  /** The class and icon `createNotifyDom` gives each schedule type; `None` for types it renders as nothing. */
  function Look(kind: ScheduleType): Option<(string, string)> {
    match kind
    case Act => Some(("", "»"))
    case Notify => Some(("notification", "♻"))
    case Event => Some(("event", "✒"))
    case OtherType(_) => None
  }

  /** The paragraph of one schedule. */
  function Paragraph(className: string, id: string, time: string, icon: string, title: string): string {
    "<p class=\"schedule " + className + "\" data-id=\"" + id + "\">" + time + " " + icon + " " + title + "</p>"
  }

  /**
   * `createNotifyDom`: act and event carry no id, notify carries its id; a notify
   * without an id throws on `id!.toString()`; other types give `''`.
   */
  function NotifyDom(s: Schedule): (r: Result<string>)
    ensures r.Err? <==> s.kind == Notify && s.id.None?
    ensures Look(s.kind).None? ==> r == Ok("")
    ensures s.kind == Act ==> r == Ok(Paragraph("", "", s.time, "»", s.title))
    ensures s.kind == Event ==> r == Ok(Paragraph("event", "", s.time, "✒", s.title))
    ensures s.kind == Notify && s.id.Some? ==> r == Ok(Paragraph("notification", IntToString(s.id.value), s.time, "♻", s.title))
  {
    match Look(s.kind)
    case None => Ok("")
    case Some((className, icon)) =>
      if s.kind == Notify then
        if s.id.None? then Err("Cannot read properties of undefined (reading 'toString')")
        else Ok(Paragraph(className, IntToString(s.id.value), s.time, icon, s.title))
      else Ok(Paragraph(className, "", s.time, icon, s.title))
  }

  /** The container markup: each schedule's paragraph in order; the first throw stops it. */
  function SchedulesHtml(ss: seq<Schedule>): Result<string>
    decreases |ss|
  {
    if ss == [] then Ok("")
    else match SchedulesHtml(ss[..|ss| - 1])
      case Err(e) => Err(e)
      case Ok(h) =>
        match NotifyDom(ss[|ss| - 1])
        case Err(e) => Err(e)
        case Ok(p) => Ok(h + p)
  }

  /** The constructor's loop that concatenates the paragraphs. */
  method ContainerHtml(schedules: seq<Schedule>) returns (r: Result<string>)
    ensures r == SchedulesHtml(schedules)
  {
    var notifyDomHtml := "";
    var k := 0;
    while k < |schedules|
      invariant 0 <= k <= |schedules|
      invariant SchedulesHtml(schedules[..k]) == Ok(notifyDomHtml)
      decreases |schedules| - k
    {
      assert schedules[..k + 1][..k] == schedules[..k];
      var dom := NotifyDom(schedules[k]);
      if dom.Err? {
        ErrorPersists(schedules, k + 1);
        return Err(dom.message);
      }
      notifyDomHtml := notifyDomHtml + dom.value;
      k := k + 1;
    }
    assert schedules[..|schedules|] == schedules;
    r := Ok(notifyDomHtml);
  }

  /** Once a prefix's markup fails, the whole markup fails with the same error. */
  lemma {:induction false} ErrorPersists(ss: seq<Schedule>, k: nat)
    requires k <= |ss| && SchedulesHtml(ss[..k]).Err?
    ensures SchedulesHtml(ss) == SchedulesHtml(ss[..k])
    decreases |ss| - k
  {
    if k < |ss| {
      assert ss[..k + 1][..k] == ss[..k];
      ErrorPersists(ss, k + 1);
    } else {
      assert ss[..k] == ss;
    }
  }

  /** Schedules of a type outside act, notify and event leave no trace in the markup. */
  lemma OtherTypesInvisible(ss: seq<Schedule>, s: Schedule)
    requires s.kind.OtherType?
    ensures SchedulesHtml(ss + [s]) == SchedulesHtml(ss)
  {
    assert (ss + [s])[..|ss + [s]| - 1] == ss;
    match SchedulesHtml(ss)
    case Err(e) =>
    case Ok(h) => assert h + "" == h;
  }

  /** The two entries of one work record; `00:00` for both when it has no start time. */
  function WorkActsOf(w: WorkRecord, timeOf: string -> string): seq<Schedule> {
    var projectName := AppSettings.GetProjectName(w.boardDetail);
    if w.startDateTime != "" then
      [Schedule(Act, timeOf(w.startDateTime), projectName + " start", None),
       Schedule(Act, timeOf(w.endDateTime), projectName + " end", None)]
    else
      [Schedule(Act, "00:00", projectName + " start", None), Schedule(Act, "00:00", projectName + " end", None)]
  }

  /** `works.flatMap(...)`. */
  function WorkActs(works: seq<WorkRecord>, timeOf: string -> string): (r: seq<Schedule>)
    ensures |r| == 2 * |works|
    decreases |works|
  {
    if works == [] then [] else WorkActs(works[..|works| - 1], timeOf) + WorkActsOf(works[|works| - 1], timeOf)
  }

  /** Entries `2k` and `2k + 1` are those of record `k`. */
  lemma {:induction false} WorkActsAt(works: seq<WorkRecord>, timeOf: string -> string, k: nat)
    requires k < |works|
    ensures WorkActs(works, timeOf)[2 * k] == WorkActsOf(works[k], timeOf)[0]
    ensures WorkActs(works, timeOf)[2 * k + 1] == WorkActsOf(works[k], timeOf)[1]
    decreases |works|
  {
    if k < |works| - 1 {
      WorkActsAt(works[..|works| - 1], timeOf, k);
    }
  }

  /** Every work entry is an act; a record without a start time gives two `00:00` entries. */
  lemma WorkActsShape(works: seq<WorkRecord>, timeOf: string -> string, k: nat)
    requires k < |works|
    ensures var r := WorkActs(works, timeOf);
      && r[2 * k].kind == Act && r[2 * k + 1].kind == Act
      && r[2 * k].title == AppSettings.GetProjectName(works[k].boardDetail) + " start"
      && r[2 * k + 1].title == AppSettings.GetProjectName(works[k].boardDetail) + " end"
      && (works[k].startDateTime == "" ==> r[2 * k].time == "00:00" && r[2 * k + 1].time == "00:00")
  {
    WorkActsAt(works, timeOf, k);
  }

  /** The schedule `{ type: 'notify', time, title, id }` of one notification. */
  function NotifyScheduleOf(n: AppNotification): Schedule {
    Schedule(Notify, n.time, n.title, Some(n.id))
  }

  /** The notifications as schedules, without those of id -1. */
  function NotifySchedules(ns: seq<AppNotification>): (r: seq<Schedule>)
    ensures |r| <= |ns|
    ensures forall s :: s in r ==> s.kind == Notify && s.id.Some? && s.id.value != -1
    ensures forall n :: n in ns && n.id != -1 ==> NotifyScheduleOf(n) in r
    ensures forall s :: s in r ==> exists n :: n in ns && n.id != -1 && s == NotifyScheduleOf(n)
    decreases |ns|
  {
    if ns == [] then []
    else
      assert forall n :: n in ns[1..] ==> n in ns;
      (if ns[0].id != -1 then [NotifyScheduleOf(ns[0])] else []) + NotifySchedules(ns[1..])
  }

  /**
   * `filter` then `map` work element by element: the schedules of two lists are
   * those of each, in order, so every kept notification gives exactly one
   * schedule at its own place.
   */
  lemma {:induction false} NotifySchedulesAppend(a: seq<AppNotification>, b: seq<AppNotification>)
    ensures NotifySchedules(a + b) == NotifySchedules(a) + NotifySchedules(b)
    decreases |a|
  {
    if a == [] {
      assert a + b == b;
    } else {
      var head: seq<Schedule> := if a[0].id != -1 then [NotifyScheduleOf(a[0])] else [];
      assert (a + b)[0] == a[0] && (a + b)[1..] == a[1..] + b;
      NotifySchedulesAppend(a[1..], b);
      assert head + (NotifySchedules(a[1..]) + NotifySchedules(b)) == (head + NotifySchedules(a[1..])) + NotifySchedules(b);
    }
  }

  /** One notification gives its schedule, or nothing for id -1. */
  lemma NotifySchedulesSingle(n: AppNotification)
    ensures NotifySchedules([n]) == if n.id != -1 then [NotifyScheduleOf(n)] else []
  {
    assert [n][1..] == [];
  }

  /** The entry for the work in progress. */
  function CurrentWorkSchedule(current: WorkConfig, timeOf: string -> string): Schedule {
    Schedule(Act, timeOf(current.record.startDateTime), AppSettings.GetProjectName(current.record.boardDetail) + " start", None)
  }

  /**
   * `NotificationPage.create`: work entries, Jmotto events and notifications,
   * plus one start entry while working, sorted by their time text.
   */
  method AssembleSchedules(works: seq<WorkRecord>, jmottoEvents: seq<Schedule>, ns: seq<AppNotification>,
                           current: WorkConfig, timeOf: string -> string)
    returns (allSchedules: seq<Schedule>)
    ensures SortedBy(allSchedules, (s: Schedule) => s.time)
    ensures multiset(allSchedules) == multiset(WorkActs(works, timeOf) + jmottoEvents + NotifySchedules(ns)
      + (if current.isWorking then [CurrentWorkSchedule(current, timeOf)] else []))
  {
    allSchedules := WorkActs(works, timeOf) + jmottoEvents + NotifySchedules(ns);
    if current.isWorking {
      allSchedules := allSchedules + [CurrentWorkSchedule(current, timeOf)];
    }
    ghost var unsorted := allSchedules;
    SortCorrect(unsorted, (s: Schedule) => s.time);
    allSchedules := Sort(allSchedules, (s: Schedule) => s.time);
  }
}
