/**
 * `InputUtil.formatToTimeString` and `InputUtil.formatToFullDateString` of the
 * renderer's twUtility.ts: the shorthand readers behind the time and date inputs.
 * "Today" is a parameter; the `Date` constructor's normalisation is replaced by
 * the round-trip test the code applies to it, stated on civil dates.
 */
module InputUtil {
  import opened Wrappers
  import opened Text
  import opened DateEx

  /** `/^[\d:]{1,5}$/`. */
  predicate IsTimeText(text: string) {
    1 <= |text| <= 5 && forall i :: 0 <= i < |text| ==> IsDigit(text[i]) || text[i] == ':'
  }

  /** `/^[\d/-]{1,10}$/`. */
  predicate IsDateText(text: string) {
    1 <= |text| <= 10 && forall i :: 0 <= i < |text| ==> IsDigit(text[i]) || text[i] in DateSeparators
  }

  const DateSeparators: set<char> := {'/', '-'}

  /** The pieces of text made of digits and separators are digit strings. */
  lemma PiecesAreDigits(text: string, seps: set<char>, limit: nat)
    requires forall i :: 0 <= i < |text| ==> IsDigit(text[i]) || text[i] in seps
    ensures forall k :: 0 <= k < |SplitLimit(text, seps, limit)| ==> AllDigits(SplitLimit(text, seps, limit)[k])
  {
    SplitShape(text, seps);
    var pieces := Split(text, seps);
    forall k, j | 0 <= k < |pieces| && 0 <= j < |pieces[k]|
      ensures IsDigit(pieces[k][j])
    {
      var c := pieces[k][j];
      assert c in text && c !in seps;
      var i :| 0 <= i < |text| && text[i] == c;
    }
  }

  /** A digit string holds neither a colon nor a date separator. */
  lemma DigitsHaveNoSeparator(s: string)
    requires AllDigits(s)
    ensures Count(s, {':'}) == 0 && Count(s, DateSeparators) == 0
  {
    CountNone(s, {':'});
    CountNone(s, DateSeparators);
  }

  /** `HH:MM`: two digits, a colon, two digits. */
  predicate IsClockText(r: string) {
    |r| == 5 && r[2] == ':' && AllDigits(r[..2]) && AllDigits(r[3..])
  }

  /** The template `${('00' + hh).slice(-2)}:${('00' + mm).slice(-2)}`: the last two digits of each. */
  function ClockText(hh: nat, mm: nat): (r: string)
    ensures IsClockText(r) && IsTimeText(r)
    ensures DigitsValue(r[..2]) == hh % 100 && DigitsValue(r[3..]) == mm % 100
  {
    Pad2Value(hh);
    Pad2Value(mm);
    var r := Pad2(hh) + ":" + Pad2(mm);
    assert r[..2] == Pad2(hh) && r[3..] == Pad2(mm);
    assert forall i :: 0 <= i < 5 && i != 2 ==> IsDigit(r[i]) by {
      forall i | 0 <= i < 5 && i != 2
        ensures IsDigit(r[i])
      {
        if i < 2 { assert r[i] == Pad2(hh)[i]; } else { assert r[i] == Pad2(mm)[i - 3]; }
      }
    }
    r
  }

  /**
   * `formatToTimeString`: `null` (here `None`) unless the text passes the pattern;
   * a colon-free token of up to two characters is the hour, of three or four the
   * hour followed by two minute digits, of five an error; with a colon the first
   * two pieces are hour and minute. Neither part is range-checked.
   */
  function FormatToTimeString(text: string): (r: Option<string>)
    ensures r.Some? ==> IsTimeText(text) && IsClockText(r.value)
  {
    if !IsTimeText(text) then None
    else
      PiecesAreDigits(text, {':'}, 2);
      var hhmm := SplitLimit(text, {':'}, 2);
      if |hhmm| == 1 then
        var t := hhmm[0];
        if |t| <= 2 then Some(ClockText(DigitsValue(t), 0))
        else if |t| <= 4 then
          AllDigitsSlice(t, 0, |t| - 2);
          AllDigitsSlice(t, |t| - 2, |t|);
          Some(ClockText(DigitsValue(t[..|t| - 2]), DigitsValue(t[|t| - 2..])))
        else None
      else Some(ClockText(DigitsValue(hhmm[0]), DigitsValue(hhmm[1])))
  }

  /** Without a colon the reading depends on the length alone: hour; hour and minute; error. */
  lemma ColonFreeTime(text: string)
    requires IsTimeText(text) && AllDigits(text)
    ensures |text| <= 2 ==> FormatToTimeString(text) == Some(ClockText(DigitsValue(text), 0))
    ensures 3 <= |text| <= 4 ==>
      AllDigits(text[..|text| - 2]) && AllDigits(text[|text| - 2..]) &&
      FormatToTimeString(text) == Some(ClockText(DigitsValue(text[..|text| - 2]), DigitsValue(text[|text| - 2..])))
    ensures |text| == 5 ==> FormatToTimeString(text) == None
  {
    if 3 <= |text| <= 4 {
      HourAndMinuteToken(text);
    } else {
      DigitsHaveNoSeparator(text);
      SplitNoSeparator(text, {':'});
      assert SplitLimit(text, {':'}, 2) == [text];
    }
  }

  lemma HourAndMinuteToken(text: string)
    requires IsTimeText(text) && AllDigits(text) && 3 <= |text| <= 4
    ensures AllDigits(text[..|text| - 2]) && AllDigits(text[|text| - 2..])
    ensures FormatToTimeString(text) == Some(ClockText(DigitsValue(text[..|text| - 2]), DigitsValue(text[|text| - 2..])))
  {
    DigitsHaveNoSeparator(text);
    SplitNoSeparator(text, {':'});
    assert SplitLimit(text, {':'}, 2) == [text];
    AllDigitsSlice(text, 0, |text| - 2);
    AllDigitsSlice(text, |text| - 2, |text|);
  }

  /** With a colon, hour and minute are the first two pieces; a second colon and what follows it are ignored. */
  lemma TimeWithColon(a: string, b: string, rest: string)
    requires AllDigits(a) && AllDigits(b) && (rest == [] || rest[0] == ':')
    requires IsTimeText(a + ":" + b + rest)
    ensures FormatToTimeString(a + ":" + b + rest) == Some(ClockText(DigitsValue(a), DigitsValue(b)))
  {
    ColonPieces(a, b, rest);
  }

  /** Split at colons and cut to two pieces, `a:b` followed by nothing or a colon gives `a` and `b`. */
  lemma ColonPieces(a: string, b: string, rest: string)
    requires AllDigits(a) && AllDigits(b) && (rest == [] || rest[0] == ':')
    ensures SplitLimit(a + ":" + b + rest, {':'}, 2) == [a, b]
  {
    if rest == [] {
      assert a + ":" + b + rest == a + [':'] + b;
      SplitTwoPieces(a, b);
    } else {
      assert a + ":" + b + rest == a + [':'] + (b + [':'] + rest[1..]);
      SplitThreeOrMore(a, b, rest[1..]);
    }
  }

  /** `a:b` with digit strings splits into `a` and `b`. */
  lemma SplitTwoPieces(a: string, b: string)
    requires AllDigits(a) && AllDigits(b)
    ensures Split(a + [':'] + b, {':'}) == [a, b]
  {
    CountNone(a, {':'});
    CountNone(b, {':'});
    SplitAroundSeparator(a, ':', b, {':'});
  }

  /** `a:b:r` with digit strings `a` and `b` splits into `a`, `b` and the pieces of `r`. */
  lemma SplitThreeOrMore(a: string, b: string, r: string)
    requires AllDigits(a) && AllDigits(b)
    ensures Split(a + [':'] + (b + [':'] + r), {':'}) == [a, b] + Split(r, {':'})
  {
    CountNone(a, {':'});
    CountNone(b, {':'});
    SplitAppend(a, ':', b + [':'] + r, {':'});
    SplitAppend(b, ':', r, {':'});
  }

  /** Every `HH:MM` text, and so every result of the function, is a fixed point of it. */
  lemma TimeIdempotent(r: string)
    requires IsClockText(r)
    ensures FormatToTimeString(r) == Some(r)
  {
    var a, b := r[..2], r[3..];
    assert r == a + ":" + b + "";
    assert IsTimeText(r) by {
      forall i | 0 <= i < 5
        ensures IsDigit(r[i]) || r[i] == ':'
      {
        if i < 2 { assert r[i] == a[i]; } else if i > 2 { assert r[i] == b[i - 3]; }
      }
    }
    TimeWithColon(a, b, "");
    TwoDigitText(a);
    TwoDigitText(b);
    DigitsBelow100(a);
    DigitsBelow100(b);
    Pad2Value(DigitsValue(a));
    Pad2Value(DigitsValue(b));
    var c := ClockText(DigitsValue(a), DigitsValue(b));
    assert c == Pad2(DigitsValue(a)) + ":" + Pad2(DigitsValue(b)) == a + ":" + b;
    assert a + ":" + b + "" == a + ":" + b;
  }

  /** There is no range check: `"99:99"` comes back as it is. */
  lemma NoRangeCheck()
    ensures FormatToTimeString("99:99") == Some("99:99")
  {
    var r := "99:99";
    assert r[..2] == "99" && r[3..] == "99";
    TimeIdempotent(r);
  }

  lemma DigitsBelow100(s: string)
    requires |s| == 2 && AllDigits(s)
    ensures DigitsValue(s) < 100
  {
    TwoDigitValue(s);
  }

  /** A two-character digit string is the padding of its own value. */
  lemma TwoDigitText(s: string)
    requires |s| == 2 && AllDigits(s)
    ensures Pad2(DigitsValue(s)) == s
  {
    var n := DigitsValue(s);
    TwoDigitValue(s);
    Pad2IsLastTwoDigits(n);
    assert (n / 10) % 10 == DigitValue(s[0]);
    assert n % 10 == DigitValue(s[1]);
  }

  /** The year, month and day `formatToFullDateString` reads, and whether the input was shorthand. */
  datatype ReadFields = ReadFields(year: int, month: int, day: int, shortHand: bool)

  /**
   * The switch on the number of pieces: missing parts are today's; a single token
   * of up to two digits is the day, of three or four month and day, of eight
   * `yyyymmdd`; any other single token is an error.
   */
  function ReadDate(text: string, today: Date): (r: Option<ReadFields>)
    requires IsDateText(text)
    ensures r.Some? && r.value.shortHand ==> r.value.year == today.year
  {
    PiecesAreDigits(text, DateSeparators, 3);
    var ymd := SplitLimit(text, DateSeparators, 3);
    if |ymd| == 1 then
      var t := ymd[0];
      if |t| <= 2 then Some(ReadFields(today.year, today.month, DigitsValue(t), true))
      else if |t| <= 4 then
        AllDigitsSlice(t, 0, |t| - 2);
        AllDigitsSlice(t, |t| - 2, |t|);
        Some(ReadFields(today.year, DigitsValue(t[..|t| - 2]), DigitsValue(t[|t| - 2..]), true))
      else if |t| == 8 then
        AllDigitsSlice(t, 0, 4);
        AllDigitsSlice(t, 4, 6);
        AllDigitsSlice(t, 6, 8);
        Some(ReadFields(DigitsValue(t[..4]), DigitsValue(t[4..6]), DigitsValue(t[6..]), false))
      else None
    else if |ymd| == 2 then Some(ReadFields(today.year, DigitsValue(ymd[0]), DigitsValue(ymd[1]), true))
    else Some(ReadFields(DigitsValue(ymd[0]), DigitsValue(ymd[1]), DigitsValue(ymd[2]), false))
  }

  /** The last local date the `Date` type can hold. */
  const MaxDate: Date := Date(275760, 9, 12)

  /**
   * `new Date(y, m - 1, d)` gives back exactly `y`, `m` and `d`: the date exists in
   * the calendar, the year is not one of 0..99 (which the constructor maps to the
   * 1900s), and the date is within the range of `Date`.
   */
  predicate RoundTrips(y: int, m: int, d: int) {
    y >= 100 && IsValidDate(Date(y, m, d)) && !Before(MaxDate, Date(y, m, d))
  }

  /** `setFullYear(y)`: a 29 February that does not exist in year `y` rolls over to 1 March. */
  function SetFullYear(d: Date, y: int): (r: Date)
    requires IsValidDate(d)
    ensures IsValidDate(r) && r.year == y
    ensures (d.month, d.day) != (2, 29) || IsLeapYear(y) ==> r == d.(year := y)
  {
    if d.month == 2 && d.day == 29 && !IsLeapYear(y) then Date(y, 3, 1) else d.(year := y)
  }

  /**
   * `formatToFullDateString(text, useTheLastYear)` read against the local date
   * `today`. `date.getTime() > Date.now()` holds exactly when the date is after
   * today, since the date stands for its own midnight.
   */
  function FormatToFullDateString(text: string, useTheLastYear: bool, today: Date): (r: Option<string>)
    ensures r.Some? ==> IsDateText(text)
    ensures r.Some? ==> exists d :: IsValidDate(d) && r.value == ToDateString(d)
  {
    if !IsDateText(text) then None
    else
      match ReadDate(text, today)
      case None => None
      case Some(p) =>
        if !RoundTrips(p.year, p.month, p.day) then None
        else
          var date := Date(p.year, p.month, p.day);
          var moved := if useTheLastYear && p.shortHand && Before(today, date) then SetFullYear(date, date.year - 1) else date;
          Some(ToDateString(moved))
  }

  /** A colon-free token of five to seven, nine or ten characters is refused. */
  lemma DateTokenLengthRejected(text: string, useTheLastYear: bool, today: Date)
    requires AllDigits(text) && 5 <= |text| <= 10 && |text| != 8
    ensures FormatToFullDateString(text, useTheLastYear, today) == None
  {
    DigitsHaveNoSeparator(text);
    SplitNoSeparator(text, DateSeparators);
  }

  /** An eight-digit token is `yyyymmdd`, is never shorthand, and is accepted iff it round-trips. */
  lemma EightDigitDate(text: string, useTheLastYear: bool, today: Date)
    requires AllDigits(text) && |text| == 8
    ensures AllDigits(text[..4]) && AllDigits(text[4..6]) && AllDigits(text[6..])
    ensures var y, m, d := DigitsValue(text[..4]), DigitsValue(text[4..6]), DigitsValue(text[6..]);
      FormatToFullDateString(text, useTheLastYear, today) ==
        if RoundTrips(y, m, d) then Some(ToDateString(Date(y, m, d))) else None
  {
    DigitsHaveNoSeparator(text);
    SplitNoSeparator(text, DateSeparators);
    AllDigitsSlice(text, 0, 4);
    AllDigitsSlice(text, 4, 6);
    AllDigitsSlice(text, 6, 8);
  }

  /** One or two digits name a day of today's month and year. */
  lemma DayOnlyDate(text: string, today: Date)
    requires AllDigits(text) && 1 <= |text| <= 2
    ensures var d := DigitsValue(text);
      FormatToFullDateString(text, false, today) ==
        if RoundTrips(today.year, today.month, d) then Some(ToDateString(Date(today.year, today.month, d))) else None
  {
    DayOnlyRead(text, today);
  }

  /** A one- or two-digit token is read as a shorthand day of today's month. */
  lemma DayOnlyRead(text: string, today: Date)
    requires AllDigits(text) && 1 <= |text| <= 2
    ensures IsDateText(text)
    ensures ReadDate(text, today) == Some(ReadFields(today.year, today.month, DigitsValue(text), true))
  {
    DigitsHaveNoSeparator(text);
    SplitNoSeparator(text, DateSeparators);
    assert SplitLimit(text, DateSeparators, 3) == [text];
  }

  /** `m/d` (or `m-d`) names a day of today's year. */
  lemma MonthDayDate(a: string, sep: char, b: string, today: Date)
    requires AllDigits(a) && AllDigits(b) && sep in DateSeparators && |a| + |b| <= 9
    ensures var m, d := DigitsValue(a), DigitsValue(b);
      FormatToFullDateString(a + [sep] + b, false, today) ==
        if RoundTrips(today.year, m, d) then Some(ToDateString(Date(today.year, m, d))) else None
  {
    var text := a + [sep] + b;
    DigitsHaveNoSeparator(a);
    DigitsHaveNoSeparator(b);
    SplitAppend(a, sep, b, DateSeparators);
    SplitNoSeparator(b, DateSeparators);
    assert IsDateText(text) by {
      forall i | 0 <= i < |text|
        ensures IsDigit(text[i]) || text[i] in DateSeparators
      {
        if i < |a| { assert text[i] == a[i]; }
        else if i > |a| { assert text[i] == b[i - |a| - 1]; }
      }
    }
  }

  /** A printed date with a four-digit year reads back as itself, whatever the flag and the day. */
  lemma FullDateRoundTrip(d: Date, useTheLastYear: bool, today: Date)
    requires IsValidDate(d) && 1000 <= d.year <= 9999
    ensures FormatToFullDateString(ToDateString(d), useTheLastYear, today) == Some(ToDateString(d))
  {
    var s := ToDateString(d);
    ToDateStringParts(d);
    var y, m, dd := s[..4], s[5..7], s[8..];
    assert s == y + ['-'] + (m + ['-'] + dd);
    DigitsHaveNoSeparator(y);
    DigitsHaveNoSeparator(m);
    DigitsHaveNoSeparator(dd);
    SplitAppend(y, '-', m + ['-'] + dd, DateSeparators);
    SplitAppend(m, '-', dd, DateSeparators);
    SplitNoSeparator(dd, DateSeparators);
    assert Split(s, DateSeparators) == [y, m, dd];
    assert IsDateText(s) by {
      forall i | 0 <= i < |s|
        ensures IsDigit(s[i]) || s[i] in DateSeparators
      {
        if i < 4 { assert s[i] == y[i]; }
        else if 4 < i < 7 { assert s[i] == m[i - 5]; }
        else if i > 7 { assert s[i] == dd[i - 8]; }
      }
    }
  }

  /** A date string this function produced is a fixed point of it. */
  lemma FullDateIdempotent(d: Date, useTheLastYear: bool, today: Date)
    requires IsValidDate(d) && 1000 <= d.year <= 9999
    requires FormatToFullDateString(ToDateString(d), useTheLastYear, today).Some?
    ensures var r := FormatToFullDateString(ToDateString(d), useTheLastYear, today).value;
      FormatToFullDateString(r, useTheLastYear, today) == Some(r)
  {
    FullDateRoundTrip(d, useTheLastYear, today);
  }

  /** Without the flag the result is the date read, whenever it round-trips. */
  lemma DateAcceptedIffRoundTrips(text: string, today: Date)
    requires IsDateText(text) && ReadDate(text, today).Some?
    ensures var p := ReadDate(text, today).value;
      FormatToFullDateString(text, false, today).Some? <==> RoundTrips(p.year, p.month, p.day)
    ensures var p := ReadDate(text, today).value;
      RoundTrips(p.year, p.month, p.day) ==>
        FormatToFullDateString(text, false, today) == Some(ToDateString(Date(p.year, p.month, p.day)))
  {
  }

  /**
   * With `useTheLastYear`, a shorthand date after today moves back one year, and
   * so a shorthand input never yields a date after today.
   */
  lemma LastYearNeverFuture(text: string, today: Date)
    requires IsDateText(text) && ReadDate(text, today).Some? && ReadDate(text, today).value.shortHand
    requires FormatToFullDateString(text, true, today).Some?
    ensures var p := ReadDate(text, today).value;
      var date := Date(p.year, p.month, p.day);
      && (Before(today, date) ==> FormatToFullDateString(text, true, today) == Some(ToDateString(SetFullYear(date, p.year - 1))))
      && (!Before(today, date) ==> FormatToFullDateString(text, true, today) == Some(ToDateString(date)))
    ensures exists d :: IsValidDate(d) && !Before(today, d) && FormatToFullDateString(text, true, today) == Some(ToDateString(d))
  {
    var p := ReadDate(text, today).value;
    var date := Date(p.year, p.month, p.day);
    if Before(today, date) {
      var moved := SetFullYear(date, p.year - 1);
      assert !Before(today, moved);
    } else {
      assert !Before(today, date);
    }
  }
}
