/**
 * Local calendar dates as the date helpers use them. A JavaScript `Date`
 * read through `getFullYear`/`getMonth`/`getDate` is a Gregorian calendar
 * day (month index 0..11) or the invalid date, whose components are NaN.
 */
module DateUtils {

  import opened Wrappers
  import opened Strings

  /** A proleptic Gregorian day; `month` is the 0-based index `getMonth` returns. */
  datatype CalendarDate = CalendarDate(year: int, month: int, day: int)

  predicate IsLeapYear(y: int) {
    (y % 4 == 0 && y % 100 != 0) || y % 400 == 0
  }

  function DaysInMonth(y: int, m: int): (n: int)
    requires 0 <= m < 12
    ensures 28 <= n <= 31
    ensures m == 1 ==> (n == 29 <==> IsLeapYear(y))
  {
    if m == 1 then (if IsLeapYear(y) then 29 else 28)
    else if m == 3 || m == 5 || m == 8 || m == 10 then 30
    else 31
  }

  predicate ValidDate(d: CalendarDate) {
    0 <= d.month < 12 && 1 <= d.day <= DaysInMonth(d.year, d.month)
  }

  /** A `Date` object: a calendar day, or `Invalid Date`. */
  datatype JsDate = Day(date: CalendarDate) | InvalidDate

  predicate WellFormed(j: JsDate) {
    j.Day? ==> ValidDate(j.date)
  }

  /** `formatDateToLocalISOString`: year, two-digit month number, two-digit day. */
  function FormatDate(j: JsDate): string
    requires WellFormed(j)
  {
    match j
    case InvalidDate => "NaN-NaN-NaN"
    case Day(d) =>
      IntToString(d.year) + "-" + PadStart2(NatToString(d.month + 1)) + "-" + PadStart2(NatToString(d.day))
  }

  /** `String(n).padStart(2, '0')` for 1 <= n <= 99: two digits whose value is n. */
  lemma TwoDigits(n: nat)
    requires 1 <= n < 100
    ensures |PadStart2(NatToString(n))| == 2
    ensures AllDigits(PadStart2(NatToString(n)))
    ensures DigitsValue(PadStart2(NatToString(n))) == n
  {
    DigitsValueOfNatToString(n);
    if n < 10 {
      LeadingZeroIgnored(NatToString(n));
    }
  }

  /** The month and day parts of a formatted valid date are exactly two digits, naming month+1 and day. */
  lemma FormatParts(d: CalendarDate)
    requires ValidDate(d)
    ensures var mm := PadStart2(NatToString(d.month + 1));
      var dd := PadStart2(NatToString(d.day));
      FormatDate(Day(d)) == IntToString(d.year) + "-" + mm + "-" + dd
      && |mm| == 2 && |dd| == 2 && AllDigits(mm) && AllDigits(dd)
      && DigitsValue(mm) == d.month + 1 && DigitsValue(dd) == d.day
  {
    TwoDigits(d.month + 1);
    TwoDigits(d.day);
  }

  /**
   * `new Date(year, monthIndex, day)` for components already read by `Number`.
   * A NaN component gives the invalid date; years 0..99 mean 1900..1999.
   * Components outside the calendar, which JavaScript would carry into the
   * next month or year, give None: that normalisation is not modelled.
   */
  function MakeDate(year: Option<int>, monthIndex: Option<int>, day: Option<int>): (r: Option<JsDate>)
    ensures r.Some? ==> WellFormed(r.value)
    ensures year.None? || monthIndex.None? || day.None? ==> r == Some(InvalidDate)
  {
    if year.None? || monthIndex.None? || day.None? then Some(InvalidDate)
    else
      var y := if 0 <= year.value <= 99 then 1900 + year.value else year.value;
      var d := CalendarDate(y, monthIndex.value, day.value);
      if ValidDate(d) then Some(Day(d)) else None
  }

  /** Element `i` of a destructured array: `undefined` (read as NaN) past the end. */
  function PartAt(parts: seq<string>, i: nat): Option<int> {
    if i < |parts| then JsNumber(parts[i]) else None
  }

  /** `parseLocalDate`: split on '-', read each part with `Number`, build (year, month - 1, day). */
  function ParseLocalDate(s: string): Option<JsDate> {
    var parts := Split(s, '-');
    var month := PartAt(parts, 1);
    MakeDate(PartAt(parts, 0), if month.Some? then Some(month.value - 1) else None, PartAt(parts, 2))
  }

  /** Three separator-free parts joined by '-' split back into those parts. */
  lemma SplitThree(a: string, b: string, c: string)
    requires '-' !in a && '-' !in b && '-' !in c
    ensures Split(a + "-" + b + "-" + c, '-') == [a, b, c]
  {
    SplitAfter(a, '-', b + "-" + c);
    SplitAfter(b, '-', c);
    assert a + "-" + b + "-" + c == a + ['-'] + (b + ['-'] + c);
    assert b + "-" + c == b + ['-'] + c;
    assert Split(c, '-') == [c];
  }

  lemma DigitsHaveNoDash(s: string)
    requires AllDigits(s)
    ensures '-' !in s
  {
    assert forall i :: 0 <= i < |s| ==> IsDigit(s[i]);
  }

  /** The three parts of a formatted day with a non-negative year read back as its numbers. */
  lemma FormattedParts(d: CalendarDate)
    requires ValidDate(d) && d.year >= 0
    ensures var parts := Split(FormatDate(Day(d)), '-');
      PartAt(parts, 0) == Some(d.year) && PartAt(parts, 1) == Some(d.month + 1) && PartAt(parts, 2) == Some(d.day)
  {
    FormatParts(d);
    var ys := IntToString(d.year);
    var mm := PadStart2(NatToString(d.month + 1));
    var dd := PadStart2(NatToString(d.day));
    DigitsHaveNoDash(mm);
    DigitsHaveNoDash(dd);
    SplitThree(ys, mm, dd);
    DigitsValueOfNatToString(d.year);
  }

  /** Parsing a formatted date gives back the same day, for every year from 100 on. */
  lemma ParseFormat(d: CalendarDate)
    requires ValidDate(d) && d.year >= 100
    ensures ParseLocalDate(FormatDate(Day(d))) == Some(Day(d))
  {
    FormattedParts(d);
  }

  /**
   * Years 0..99 do not survive the round trip: they come back in the 1900s.
   * (29 February of year 0 has no counterpart, 1900 not being a leap year.)
   */
  lemma ParseFormatTwoDigitYear(d: CalendarDate)
    requires ValidDate(d) && 0 <= d.year <= 99
    ensures d != CalendarDate(0, 1, 29) ==> ValidDate(d.(year := 1900 + d.year))
    ensures d != CalendarDate(0, 1, 29) ==> ParseLocalDate(FormatDate(Day(d))) == Some(Day(d.(year := 1900 + d.year)))
    ensures d == CalendarDate(0, 1, 29) ==> ParseLocalDate(FormatDate(Day(d))) == None
  {
    FormattedParts(d);
    ParseOfParts(FormatDate(Day(d)), Some(d.year), Some(d.month + 1), Some(d.day));
    MakeDateTwoDigitYear(d);
  }

  /** `parseLocalDate` builds its date from whatever its three parts read as. */
  lemma ParseOfParts(s: string, y: Option<int>, m: Option<int>, d: Option<int>)
    requires var parts := Split(s, '-'); PartAt(parts, 0) == y && PartAt(parts, 1) == m && PartAt(parts, 2) == d
    ensures ParseLocalDate(s) == MakeDate(y, if m.Some? then Some(m.value - 1) else None, d)
  {
  }

  /** `new Date(y, m, d)` with a year 0..99 lands in the 1900s, if that day exists there. */
  lemma MakeDateTwoDigitYear(d: CalendarDate)
    requires ValidDate(d) && 0 <= d.year <= 99
    ensures d != CalendarDate(0, 1, 29) ==> ValidDate(d.(year := 1900 + d.year))
    ensures d != CalendarDate(0, 1, 29) ==> MakeDate(Some(d.year), Some(d.month), Some(d.day)) == Some(Day(d.(year := 1900 + d.year)))
    ensures d == CalendarDate(0, 1, 29) ==> MakeDate(Some(d.year), Some(d.month), Some(d.day)) == None
  {
    LeapYearsOf1900s(d.year);
    var e := d.(year := 1900 + d.year);
    assert DaysInMonth(e.year, e.month) == DaysInMonth(d.year, d.month) - (if d.year == 0 && d.month == 1 then 1 else 0);
  }

  lemma LeapYearsOf1900s(y: int)
    requires 0 <= y <= 99
    ensures IsLeapYear(y) <==> y % 4 == 0
    ensures IsLeapYear(1900 + y) <==> y % 4 == 0 && y != 0
  {
  }

  /** The invalid date formats as "NaN-NaN-NaN", which parses back to the invalid date. */
  lemma InvalidRoundTrip()
    ensures FormatDate(InvalidDate) == "NaN-NaN-NaN"
    ensures ParseLocalDate("NaN-NaN-NaN") == Some(InvalidDate)
  {
    ParseNaNParts("NaN", "NaN-NaN-NaN");
  }

  /** Three non-numeric parts read as NaN, so `new Date` is the invalid date. */
  lemma ParseNaNParts(nan: string, s: string)
    requires nan == "NaN" && s == nan + "-" + nan + "-" + nan
    ensures ParseLocalDate(s) == Some(InvalidDate)
  {
    assert '-' !in nan;
    SplitThree(nan, nan, nan);
    assert !IsDigit(nan[0]);
    assert JsNumber(nan) == None;
    ParseOfParts(s, None, None, None);
  }

  /** `getTodayString`: the formatting of the clock's current local day. */
  function TodayString(today: CalendarDate): (s: string)
    requires ValidDate(today)
    ensures today.year >= 100 ==> ParseLocalDate(s) == Some(Day(today))
  {
    if today.year >= 100 then
      ParseFormat(today);
      FormatDate(Day(today))
    else
      FormatDate(Day(today))
  }

  /** `areDatesEqual`: same year, month and day. */
  predicate SameDay(a: CalendarDate, b: CalendarDate) {
    a.year == b.year && a.month == b.month && a.day == b.day
  }

  lemma SameDayIsEquality(a: CalendarDate, b: CalendarDate)
    ensures SameDay(a, b) <==> a == b
    ensures SameDay(a, a)
    ensures SameDay(a, b) == SameDay(b, a)
  {
  }

  /** `setDate(getDate() + 1)`: the following calendar day. */
  function NextDay(d: CalendarDate): (r: CalendarDate)
    requires ValidDate(d)
    ensures ValidDate(r)
  {
    if d.day < DaysInMonth(d.year, d.month) then d.(day := d.day + 1)
    else if d.month < 11 then CalendarDate(d.year, d.month + 1, 1)
    else CalendarDate(d.year + 1, 0, 1)
  }

  /** `setDate(getDate() - 1)`: the preceding calendar day. */
  function PrevDay(d: CalendarDate): (r: CalendarDate)
    requires ValidDate(d)
    ensures ValidDate(r)
  {
    if d.day > 1 then d.(day := d.day - 1)
    else if d.month > 0 then CalendarDate(d.year, d.month - 1, DaysInMonth(d.year, d.month - 1))
    else CalendarDate(d.year - 1, 11, 31)
  }

  /** Stepping one day forward and one back, in either order, returns to the start. */
  lemma PrevNextInverse(d: CalendarDate)
    requires ValidDate(d)
    ensures PrevDay(NextDay(d)) == d
    ensures NextDay(PrevDay(d)) == d
    ensures NextDay(d) != d && PrevDay(d) != d
  {
  }

  /** `getDay()`: 0 for Sunday up to 6 for Saturday (Sakamoto's method, floor division). */
  function Weekday(d: CalendarDate): (w: int)
    requires 0 <= d.month < 12
    ensures 0 <= w < 7
  {
    var offsets := [0, 3, 2, 5, 0, 3, 5, 1, 4, 6, 2, 4];
    var y := if d.month < 2 then d.year - 1 else d.year;
    (y + y / 4 - y / 100 + y / 400 + offsets[d.month] + d.day) % 7
  }

  lemma DivStep4(y: int)
    ensures y / 4 - (y - 1) / 4 == if y % 4 == 0 then 1 else 0
  {
  }

  lemma DivStep100(y: int)
    ensures y / 100 - (y - 1) / 100 == if y % 100 == 0 then 1 else 0
  {
  }

  lemma DivStep400(y: int)
    ensures y / 400 - (y - 1) / 400 == if y % 400 == 0 then 1 else 0
  {
  }

  /** Moving the Sakamoto year from y - 1 to y adds one day, plus one more in a leap year. */
  lemma LeapShift(y: int)
    ensures (y / 4 - (y - 1) / 4) - (y / 100 - (y - 1) / 100) + (y / 400 - (y - 1) / 400)
      == if IsLeapYear(y) then 1 else 0
  {
    DivStep4(y);
    DivStep100(y);
    DivStep400(y);
    if y % 400 == 0 {
      var k := y / 400;
      assert y == 100 * (4 * k);
    }
    if y % 100 == 0 {
      var k := y / 100;
      assert y == 4 * (25 * k);
    }
  }

  /** The Sakamoto count of a day before it is reduced modulo 7. */
  function WeekdayCount(d: CalendarDate): int
    requires 0 <= d.month < 12
  {
    var offsets := [0, 3, 2, 5, 0, 3, 5, 1, 4, 6, 2, 4];
    var y := if d.month < 2 then d.year - 1 else d.year;
    y + y / 4 - y / 100 + y / 400 + offsets[d.month] + d.day
  }

  lemma WeekdayIsCount(d: CalendarDate)
    requires 0 <= d.month < 12
    ensures Weekday(d) == WeekdayCount(d) % 7
  {
  }

  /** From the last day of a month other than February and December to the 1st of the next. */
  lemma CountAcrossMonth(d: CalendarDate)
    requires ValidDate(d) && d.day == DaysInMonth(d.year, d.month) && d.month != 1 && d.month != 11
    ensures (WeekdayCount(NextDay(d)) - WeekdayCount(d) - 1) % 7 == 0
  {
  }

  /** From the last day of February to 1 March: the Sakamoto year moves on by one. */
  lemma CountAcrossFebruary(d: CalendarDate)
    requires ValidDate(d) && d.day == DaysInMonth(d.year, d.month) && d.month == 1
    ensures WeekdayCount(NextDay(d)) == WeekdayCount(d) + 1 - 28
  {
    LeapShift(d.year);
  }

  /** From 31 December to 1 January: the Sakamoto year stays the same. */
  lemma CountAcrossYear(d: CalendarDate)
    requires ValidDate(d) && d.day == 31 && d.month == 11
    ensures WeekdayCount(NextDay(d)) == WeekdayCount(d) + 1 - 35
  {
  }

  /** The next day falls on the next weekday, across month and year ends. */
  lemma WeekdayNext(d: CalendarDate)
    requires ValidDate(d)
    ensures Weekday(NextDay(d)) == (Weekday(d) + 1) % 7
  {
    WeekdayIsCount(d);
    WeekdayIsCount(NextDay(d));
    if d.day < DaysInMonth(d.year, d.month) {
      assert WeekdayCount(NextDay(d)) == WeekdayCount(d) + 1;
    } else if d.month == 1 {
      CountAcrossFebruary(d);
    } else if d.month == 11 {
      CountAcrossYear(d);
    } else {
      CountAcrossMonth(d);
    }
    CountStep(WeekdayCount(NextDay(d)), WeekdayCount(d));
  }

  /** A count one more than another, up to whole weeks, falls on the next weekday. */
  lemma CountStep(a: int, b: int)
    requires (a - b - 1) % 7 == 0
    ensures a % 7 == (b % 7 + 1) % 7
  {
    var q := (a - b - 1) / 7;
    assert a == b + 1 + 7 * q;
    var r := b % 7;
    assert b == 7 * (b / 7) + r;
    assert a == 7 * (b / 7 + q) + r + 1;
    if r < 6 {
      assert a % 7 == r + 1;
    } else {
      assert a == 7 * (b / 7 + q + 1);
    }
  }

  /** 1 January 2000 was a Saturday and 1 January 2024 a Monday. */
  lemma WeekdayExamples()
    ensures Weekday(CalendarDate(2000, 0, 1)) == 6
    ensures Weekday(CalendarDate(2024, 0, 1)) == 1
  {
  }
}
