/**
 * The day timeline: a selected `YYYY-MM-DD` day that the arrows move by one
 * calendar day and the date picker replaces, each change being reported to
 * the optional `onDateChange` listener.
 */
module Timeline {

  import opened Wrappers
  import opened DateUtils

  datatype Direction = Prev | Next

  /** `initialDate || getTodayString()`; an absent prop is the empty string. */
  function InitialSelection(initialDate: string, today: CalendarDate): (s: string)
    requires ValidDate(today)
    ensures initialDate != "" ==> s == initialDate
    ensures initialDate == "" ==> s == TodayString(today)
  {
    if initialDate != "" then initialDate else TodayString(today)
  }

  /** `setDate(getDate() -/+ 1)` on a `Date`; the invalid date stays invalid. */
  function Step(j: JsDate, dir: Direction): (r: JsDate)
    requires WellFormed(j)
    ensures WellFormed(r)
    ensures r.InvalidDate? <==> j.InvalidDate?
  {
    match j
    case InvalidDate => InvalidDate
    case Day(d) => Day(if dir == Next then NextDay(d) else PrevDay(d))
  }

  /** The text `navigateDate` stores and reports: parse, step one day, format. */
  function Navigated(selected: string, dir: Direction): string
    requires ParseLocalDate(selected).Some?
  {
    FormatDate(Step(ParseLocalDate(selected).value, dir))
  }

  /** Every day `parseLocalDate` produces has a year of at least 100: years 0..99 were read as 19xx. */
  lemma ParsedYear(s: string)
    requires ParseLocalDate(s).Some? && ParseLocalDate(s).value.Day?
    ensures ParseLocalDate(s).value.date.year >= 100
  {
  }

  /**
   * From a readable day the arrows land on the neighbouring day, written
   * `YYYY-MM-DD` with two-digit month and day, which reads back as that day.
   */
  lemma NavigatedDay(selected: string, d: CalendarDate)
    requires ParseLocalDate(selected) == Some(Day(d))
    ensures Navigated(selected, Next) == FormatDate(Day(NextDay(d)))
    ensures ParseLocalDate(Navigated(selected, Next)) == Some(Day(NextDay(d)))
    ensures PrevDay(d).year >= 100 ==> ParseLocalDate(Navigated(selected, Prev)) == Some(Day(PrevDay(d)))
  {
    ParsedYear(selected);
    ParseFormat(NextDay(d));
    if PrevDay(d).year >= 100 {
      ParseFormat(PrevDay(d));
    }
  }

  /** Next then back returns to the original day, in its canonical spelling; and the other way round. */
  lemma NextThenPrev(selected: string, d: CalendarDate)
    requires ParseLocalDate(selected) == Some(Day(d))
    ensures ParseLocalDate(Navigated(selected, Next)).Some?
    ensures Navigated(Navigated(selected, Next), Prev) == FormatDate(Day(d))
    ensures PrevDay(d).year >= 100 ==>
      ParseLocalDate(Navigated(selected, Prev)).Some? &&
      Navigated(Navigated(selected, Prev), Next) == FormatDate(Day(d))
  {
    NavigatedDay(selected, d);
    PrevNextInverse(d);
  }

  /** An unreadable selection navigates to "NaN-NaN-NaN", and stays there. */
  lemma NavigatedInvalid(selected: string, dir: Direction)
    requires ParseLocalDate(selected) == Some(InvalidDate)
    ensures Navigated(selected, dir) == "NaN-NaN-NaN"
    ensures ParseLocalDate(Navigated(selected, dir)) == Some(InvalidDate)
  {
    InvalidRoundTrip();
  }

  class DayTimeline {
    var selectedDate: string
    /** Whether an `onDateChange` listener was passed. */
    var listening: bool
    /** The texts handed to `onDateChange`, oldest first. */
    var reported: seq<string>

    constructor (initialDate: string, today: CalendarDate, hasListener: bool)
      requires ValidDate(today)
      ensures selectedDate == InitialSelection(initialDate, today)
      ensures listening == hasListener && reported == []
    {
      selectedDate := InitialSelection(initialDate, today);
      listening := hasListener;
      reported := [];
    }

    /** The effect on `initialDate`: a non-empty new value replaces the selection. */
    method InitialDateChanged(initialDate: string)
      modifies this
      ensures selectedDate == (if initialDate != "" then initialDate else old(selectedDate))
      ensures listening == old(listening) && reported == old(reported)
    {
      if initialDate != "" {
        selectedDate := initialDate;
      }
    }

    /** `navigateDate`: move one day and report the new text. */
    method NavigateDate(dir: Direction)
      requires ParseLocalDate(selectedDate).Some?
      modifies this
      ensures selectedDate == Navigated(old(selectedDate), dir)
      ensures listening == old(listening)
      ensures reported == old(reported) + (if listening then [selectedDate] else [])
    {
      var date := ParseLocalDate(selectedDate).value;
      date := Step(date, dir);
      var newDate := FormatDate(date);
      selectedDate := newDate;
      if listening {
        reported := reported + [newDate];
      }
    }

    /** `handleDateChange`: store and forward the picked text unchanged. */
    method HandleDateChange(newDate: string)
      modifies this
      ensures selectedDate == newDate && listening == old(listening)
      ensures reported == old(reported) + (if listening then [newDate] else [])
    {
      selectedDate := newDate;
      if listening {
        reported := reported + [newDate];
      }
    }
  }

  /** Pressing next and then previous brings a readable selection back to its day. */
  method NextThenBack(t: DayTimeline, d: CalendarDate)
    requires ParseLocalDate(t.selectedDate) == Some(Day(d))
    modifies t
    ensures t.selectedDate == FormatDate(Day(d))
    ensures ParseLocalDate(t.selectedDate) == Some(Day(d))
  {
    NextThenPrev(t.selectedDate, d);
    t.NavigateDate(Next);
    t.NavigateDate(Prev);
    ParsedYear(old(t.selectedDate));
    ParseFormat(d);
  }
}
