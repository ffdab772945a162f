/**
 * The calendar behind JavaScript's `Date` and the `DateEx.toDateString` override
 * (the same in both copies of twUtility.ts). A local date is a civil
 * year/month/day; a `Date` value that the code only moves by whole days is a day
 * number counted from 1970-01-01, which was a Thursday.
 */
module DateEx {
  import opened Text

  /** A civil date; `month` is 1-based, that is `getMonth() + 1`. */
  datatype Date = Date(year: int, month: int, day: int)

  predicate IsLeapYear(y: int) {
    y % 4 == 0 && (y % 100 != 0 || y % 400 == 0)
  }

  function DaysInMonth(y: int, m: int): int
    requires 1 <= m <= 12
  {
    if m == 2 then (if IsLeapYear(y) then 29 else 28)
    else if m == 4 || m == 6 || m == 9 || m == 11 then 30
    else 31
  }

  predicate IsValidDate(d: Date) {
    1 <= d.month <= 12 && 1 <= d.day <= DaysInMonth(d.year, d.month)
  }

  /** `a` comes strictly before `b` in the calendar. */
  predicate Before(a: Date, b: Date) {
    a.year < b.year || (a.year == b.year && (a.month < b.month || (a.month == b.month && a.day < b.day)))
  }

  /** `toDateString()`: the year as printed, then month and day padded to two digits. */
  function ToDateString(d: Date): string
    requires IsValidDate(d)
  {
    IntToString(d.year) + "-" + Pad2(d.month as nat) + "-" + Pad2(d.day as nat)
  }

  function NumDigits(n: nat): nat {
    if n < 10 then 1 else 1 + NumDigits(n / 10)
  }

  lemma {:induction false} NatToStringLength(n: nat)
    ensures |NatToString(n)| == NumDigits(n)
  {
    if n >= 10 {
      NatToStringLength(n / 10);
    }
  }

  /**
   * For a four-digit year the date string is `yyyy-mm-dd`, and each of its three
   * parts reads back as the component it was printed from.
   */
  lemma ToDateStringParts(d: Date)
    requires IsValidDate(d) && 1000 <= d.year <= 9999
    ensures var s := ToDateString(d);
      && |s| == 10 && s[4] == '-' && s[7] == '-'
      && AllDigits(s[..4]) && AllDigits(s[5..7]) && AllDigits(s[8..])
      && DigitsValue(s[..4]) == d.year
      && DigitsValue(s[5..7]) == d.month && DigitsValue(s[8..]) == d.day
  {
    var y: nat := d.year;
    assert d.month < 100 && d.day < 100;
    var a, b, c := NatToString(y), Pad2(d.month as nat), Pad2(d.day as nat);
    FourDigitYear(y);
    DigitsValueOfNatToString(y);
    Pad2Small(d.month);
    Pad2Small(d.day);
    DashedParts(ToDateString(d), a, b, c, d.year, d.month, d.day);
  }

  /** A number below 100 is padded to two digits that read back as itself. */
  lemma Pad2Small(n: nat)
    requires n < 100
    ensures |Pad2(n)| == 2 && AllDigits(Pad2(n)) && DigitsValue(Pad2(n)) == n
  {
    Pad2Value(n);
  }

  /** A year from 1000 to 9999 prints as four digits. */
  lemma FourDigitYear(y: nat)
    requires 1000 <= y <= 9999
    ensures |NatToString(y)| == 4
  {
    NatToStringLength(y);
    var a: nat, b: nat, c: nat := y / 10, y / 10 / 10, y / 10 / 10 / 10;
    assert 100 <= a <= 999 && 10 <= b <= 99 && 1 <= c <= 9;
    assert NumDigits(c) == 1;
    assert NumDigits(b) == 1 + NumDigits(c);
    assert NumDigits(a) == 1 + NumDigits(b);
  }

  /** The three parts of `a-b-c`, for a four-digit `a` and two-digit `b` and `c`, read back as the values of `a`, `b` and `c`. */
  lemma DashedParts(s: string, a: string, b: string, c: string, y: int, m: int, dd: int)
    requires |a| == 4 && |b| == 2 && |c| == 2 && AllDigits(a) && AllDigits(b) && AllDigits(c)
    requires DigitsValue(a) == y && DigitsValue(b) == m && DigitsValue(c) == dd
    requires s == a + "-" + b + "-" + c
    ensures |s| == 10 && s[4] == '-' && s[7] == '-'
      && AllDigits(s[..4]) && AllDigits(s[5..7]) && AllDigits(s[8..])
      && DigitsValue(s[..4]) == y
      && DigitsValue(s[5..7]) == m && DigitsValue(s[8..]) == dd
  {
    assert s[..4] == a && s[5..7] == b && s[8..] == c;
  }

  /** `setDate(getDate() + 1)` on a valid date. */
  function NextDay(d: Date): (r: Date)
    requires IsValidDate(d)
    ensures IsValidDate(r) && Before(d, r)
  {
    if d.day < DaysInMonth(d.year, d.month) then d.(day := d.day + 1)
    else if d.month < 12 then Date(d.year, d.month + 1, 1)
    else Date(d.year + 1, 1, 1)
  }

  /** `setDate(getDate() - 1)` on a valid date. */
  function PrevDay(d: Date): (r: Date)
    requires IsValidDate(d)
    ensures IsValidDate(r) && Before(r, d)
  {
    if d.day > 1 then d.(day := d.day - 1)
    else if d.month > 1 then Date(d.year, d.month - 1, DaysInMonth(d.year, d.month - 1))
    else Date(d.year - 1, 12, 31)
  }

  lemma NextPrev(d: Date)
    requires IsValidDate(d)
    ensures NextDay(PrevDay(d)) == d && PrevDay(NextDay(d)) == d
  {
  }

  const Epoch: Date := Date(1970, 1, 1)

  /** The local date of day number `n`; day 0 is 1970-01-01. */
  function CivilOf(n: int): (r: Date)
    ensures IsValidDate(r)
    decreases if n < 0 then -n else n
  {
    if n == 0 then Epoch
    else if n > 0 then NextDay(CivilOf(n - 1))
    else PrevDay(CivilOf(n + 1))
  }

  /** Consecutive day numbers are consecutive calendar days, on both sides of the epoch. */
  lemma CivilOfSucc(n: int)
    ensures CivilOf(n + 1) == NextDay(CivilOf(n))
  {
    if n < 0 {
      NextPrev(CivilOf(n + 1));
    }
  }

  /** `getDay()`: 0 for Sunday; day 0 was a Thursday. */
  function Weekday(n: int): (w: int)
    ensures 0 <= w < 7
  {
    (n + 4) % 7
  }
}
