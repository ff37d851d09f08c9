/**
 * The date picker: an open/closed popup over a month view. The view is a
 * 42-cell, Monday-first grid made of the previous month's last days, the
 * viewed month, and the next month's first days.
 */
module DatePicker {

  import opened Wrappers
  import opened DateUtils

  /** Six rows of seven days. */
  const GridSize := 42

  /** One grid cell: a `Date` and the three flags the view colours it by. */
  datatype Cell = Cell(date: JsDate, isCurrentMonth: bool, isToday: bool, isSelected: bool)

  /** Year and month index of `new Date(year, month - 1, ...)` after JavaScript carries the month. */
  function PrevMonth(y: int, m: int): (int, int)
    requires 0 <= m < 12
  {
    if m == 0 then (y - 1, 11) else (y, m - 1)
  }

  /** Year and month index of `new Date(year, month + 1, ...)` after the carry. */
  function NextMonth(y: int, m: int): (int, int)
    requires 0 <= m < 12
  {
    if m == 11 then (y + 1, 0) else (y, m + 1)
  }

  /**
   * `prevDays`: how many cells of the previous month open the grid: 6 when
   * the month starts on a Sunday, otherwise its weekday minus one.
   */
  function Lead(y: int, m: int): (n: int)
    requires 0 <= m < 12
    ensures 0 <= n <= 6
    ensures n == (Weekday(CalendarDate(y, m, 1)) + 6) % 7
  {
    var first := Weekday(CalendarDate(y, m, 1));
    if first == 0 then 6 else first - 1
  }

  /** The calendar day shown in cell `k` of the view of month `m` of year `y`. */
  function CellDate(y: int, m: int, k: int): (d: CalendarDate)
    requires 0 <= m < 12 && 0 <= k < GridSize
    ensures ValidDate(d)
  {
    var lead := Lead(y, m);
    var dim := DaysInMonth(y, m);
    if k < lead then
      var (py, pm) := PrevMonth(y, m);
      CalendarDate(py, pm, DaysInMonth(py, pm) - lead + k + 1)
    else if k < lead + dim then
      CalendarDate(y, m, k - lead + 1)
    else
      var (ny, nm) := NextMonth(y, m);
      CalendarDate(ny, nm, k - lead - dim + 1)
  }

  /** Cell `k` of `generateCalendarDays` for a view date, today and the parsed selected date. */
  function CellAt(view: JsDate, k: int, today: CalendarDate, selected: JsDate): Cell
    requires WellFormed(view) && 0 <= k < GridSize
  {
    match view
    case InvalidDate => Cell(InvalidDate, false, false, false)
    case Day(v) =>
      var d := CellDate(v.year, v.month, k);
      var lead := Lead(v.year, v.month);
      var current := lead <= k < lead + DaysInMonth(v.year, v.month);
      Cell(Day(d), current, current && SameDay(d, today), current && selected.Day? && SameDay(d, selected.date))
  }

  function Grid(view: JsDate, today: CalendarDate, selected: JsDate): seq<Cell>
    requires WellFormed(view)
  {
    seq(GridSize, k requires 0 <= k < GridSize => CellAt(view, k, today, selected))
  }

  /**
   * `generateCalendarDays`: three pushing loops. For the invalid date every
   * component is NaN, so the first two loops do not run and the third pushes
   * 42 invalid dates.
   */
  method GenerateCalendarDays(view: JsDate, today: CalendarDate, selected: JsDate) returns (days: seq<Cell>)
    requires WellFormed(view)
    ensures days == Grid(view, today, selected)
  {
    days := [];
    if view.InvalidDate? {
      var i := 1;
      while i <= GridSize
        invariant 1 <= i <= GridSize + 1 && |days| == i - 1
        invariant forall j :: 0 <= j < |days| ==> days[j] == Cell(InvalidDate, false, false, false)
      {
        days := days + [Cell(InvalidDate, false, false, false)];
        i := i + 1;
      }
      return;
    }
    var year, month := view.date.year, view.date.month;
    var firstDayIndex := Weekday(CalendarDate(year, month, 1));
    var daysInMonth := DaysInMonth(year, month);
    var (py, pm) := PrevMonth(year, month);
    var prevDaysInMonth := DaysInMonth(py, pm);
    var prevDays := if firstDayIndex == 0 then 6 else firstDayIndex - 1;
    assert prevDays == Lead(year, month);

    var i := prevDays;
    while i > 0
      invariant 0 <= i <= prevDays && |days| == prevDays - i
      invariant forall j :: 0 <= j < |days| ==> days[j] == CellAt(view, j, today, selected)
    {
      days := days + [Cell(Day(CalendarDate(py, pm, prevDaysInMonth - i + 1)), false, false, false)];
      i := i - 1;
    }

    i := 1;
    while i <= daysInMonth
      invariant 1 <= i <= daysInMonth + 1 && |days| == prevDays + i - 1
      invariant forall j :: 0 <= j < |days| ==> days[j] == CellAt(view, j, today, selected)
    {
      var date := CalendarDate(year, month, i);
      days := days + [Cell(Day(date), true, SameDay(date, today), selected.Day? && SameDay(date, selected.date))];
      i := i + 1;
    }

    var remainingDays := GridSize - |days|;
    var (ny, nm) := NextMonth(year, month);
    i := 1;
    while i <= remainingDays
      invariant 1 <= i <= remainingDays + 1 && |days| == prevDays + daysInMonth + i - 1
      invariant forall j :: 0 <= j < |days| ==> days[j] == CellAt(view, j, today, selected)
    {
      days := days + [Cell(Day(CalendarDate(ny, nm, i)), false, false, false)];
      i := i + 1;
    }
  }

  /** Each cell after the first shows the day after the one before it: the grid is 42 consecutive days. */
  lemma GridConsecutive(y: int, m: int, k: int)
    requires 0 <= m < 12 && 0 <= k < GridSize - 1
    ensures CellDate(y, m, k + 1) == NextDay(CellDate(y, m, k))
  {
  }

  lemma WeekdayAlongGrid(y: int, m: int, k: int)
    requires 0 <= m < 12 && 0 <= k < GridSize
    ensures Weekday(CellDate(y, m, k)) == (Weekday(CellDate(y, m, 0)) + k) % 7
  {
    var cells := (j: int) => if 0 <= j < GridSize then CellDate(y, m, j) else CalendarDate(1970, 0, 1);
    forall j | 0 < j <= k ensures cells(j) == NextDay(cells(j - 1)) {
      GridConsecutive(y, m, j - 1);
    }
    WeekdaysAlong(cells, k);
  }

  /** Walking k days along a chain of consecutive days moves the weekday on by k. */
  lemma {:induction false} WeekdaysAlong(cells: int -> CalendarDate, k: nat)
    requires forall j :: 0 <= j <= k ==> 0 <= cells(j).month < 12 && ValidDate(cells(j))
    requires forall j :: 0 < j <= k ==> cells(j) == NextDay(cells(j - 1))
    ensures Weekday(cells(k)) == (Weekday(cells(0)) + k) % 7
  {
    if k > 0 {
      WeekdaysAlong(cells, k - 1);
      WeekdayNext(cells(k - 1));
      ModSucc(Weekday(cells(0)), k, Weekday(cells(k - 1)), Weekday(cells(k)));
    }
  }

  lemma ModSucc(w0: int, k: int, a: int, b: int)
    requires a == (w0 + k - 1) % 7 && b == (a + 1) % 7
    ensures b == (w0 + k) % 7
  {
  }

  /** The first cell is a Monday: `Lead` backs up from the 1st to the Monday before it. */
  lemma FirstCellMonday(w0: int, w1: int, lead: int)
    requires 0 <= w0 < 7 && 0 <= w1 < 7 && lead == (w1 + 6) % 7 && w1 == (w0 + lead) % 7
    ensures w0 == 1
  {
    if w1 == 0 {
      assert lead == 6;
    } else {
      assert lead == w1 - 1;
    }
  }

  /**
   * The grid lines up with its Mon..Sun header: cell k falls on weekday
   * (k + 1) mod 7, with 0 for Sunday.
   */
  lemma GridColumns(y: int, m: int, k: int)
    requires 0 <= m < 12 && 0 <= k < GridSize
    ensures Weekday(CellDate(y, m, k)) == (k + 1) % 7
  {
    var lead := Lead(y, m);
    WeekdayAlongGrid(y, m, lead);
    WeekdayAlongGrid(y, m, k);
    assert CellDate(y, m, lead) == CalendarDate(y, m, 1);
    FirstCellMonday(Weekday(CellDate(y, m, 0)), Weekday(CalendarDate(y, m, 1)), lead);
  }

  /**
   * The current-month cells are exactly the viewed month's days, each once,
   * in order: day n sits in cell Lead + n - 1.
   */
  lemma GridMonthCells(view: JsDate, today: CalendarDate, selected: JsDate)
    requires WellFormed(view) && view.Day?
    ensures var g := Grid(view, today, selected);
      var v := view.date;
      forall k :: 0 <= k < GridSize ==>
        (g[k].isCurrentMonth <==> CellDate(v.year, v.month, k).year == v.year && CellDate(v.year, v.month, k).month == v.month)
    ensures var v := view.date;
      forall n :: 1 <= n <= DaysInMonth(v.year, v.month) ==>
        Lead(v.year, v.month) + n - 1 < GridSize && CellDate(v.year, v.month, Lead(v.year, v.month) + n - 1) == CalendarDate(v.year, v.month, n)
  {
  }

  /** A cell is selected exactly when it is the selected day inside the viewed month; so at most one is. */
  lemma GridSelection(view: JsDate, today: CalendarDate, selected: JsDate, j: int, k: int)
    requires WellFormed(view) && 0 <= j < GridSize && 0 <= k < GridSize
    ensures var g := Grid(view, today, selected);
      g[k].isSelected <==>
        (view.Day? && selected.Day? && g[k].date == selected
         && selected.date.year == view.date.year && selected.date.month == view.date.month)
    ensures var g := Grid(view, today, selected);
      g[j].isSelected && g[k].isSelected ==> j == k
    ensures var g := Grid(view, today, selected);
      g[k].isToday ==> g[k].isCurrentMonth && g[k].date == Day(today)
  {
  }

  /** An unreadable view date gives 42 invalid, unmarked cells. */
  lemma GridInvalid(today: CalendarDate, selected: JsDate)
    ensures |Grid(InvalidDate, today, selected)| == GridSize
    ensures forall c :: c in Grid(InvalidDate, today, selected) ==> c == Cell(InvalidDate, false, false, false)
  {
  }

  /** A view date from `parseLocalDate` never has a year in 0..99: those years were read as 19xx. */
  predicate ViewYear(view: JsDate) {
    view.Day? ==> !(0 <= view.date.year <= 99)
  }

  lemma ParsedViewYear(s: string)
    requires ParseLocalDate(s).Some?
    ensures ViewYear(ParseLocalDate(s).value)
  {
  }

  /** `handleDateSelect`'s text for a picked day: year, two-digit month number, two-digit day. */
  function SelectedText(date: CalendarDate): (s: string)
    requires ValidDate(date)
  {
    FormatDate(Day(date))
  }

  /** The reported text reads back, through `parseLocalDate`, as the picked day. */
  lemma SelectRoundTrip(date: CalendarDate)
    requires ValidDate(date) && date.year >= 100
    ensures ParseLocalDate(SelectedText(date)) == Some(Day(date))
    ensures |SelectedText(date)| >= 8
  {
    ParseFormat(date);
    FormatParts(date);
  }

  class Picker {
    var isOpen: bool
    var viewDate: JsDate
    /** The texts handed to `onChange`, oldest first. */
    var reported: seq<string>

    predicate Valid()
      reads this
    {
      WellFormed(viewDate) && ViewYear(viewDate)
    }

    /** Closed, viewing the parsed selected date. */
    constructor (selectedDate: string)
      requires ParseLocalDate(selectedDate).Some?
      ensures Valid()
      ensures !isOpen && viewDate == ParseLocalDate(selectedDate).value && reported == []
    {
      ParsedViewYear(selectedDate);
      isOpen := false;
      viewDate := ParseLocalDate(selectedDate).value;
      reported := [];
    }

    /** The effect on a new `selectedDate` prop: the view moves to it. */
    method SelectedDateChanged(selectedDate: string)
      requires ParseLocalDate(selectedDate).Some?
      modifies this
      ensures Valid()
      ensures viewDate == ParseLocalDate(selectedDate).value
      ensures isOpen == old(isOpen) && reported == old(reported)
    {
      ParsedViewYear(selectedDate);
      viewDate := ParseLocalDate(selectedDate).value;
    }

    /** `handleDateSelect`: report the formatted day, then close. */
    method HandleDateSelect(date: CalendarDate)
      requires Valid() && ValidDate(date)
      modifies this
      ensures Valid()
      ensures !isOpen && viewDate == old(viewDate)
      ensures reported == old(reported) + [SelectedText(date)]
    {
      reported := reported + [SelectedText(date)];
      isOpen := false;
    }

    /** `toggleDatePicker`. */
    method ToggleDatePicker()
      requires Valid()
      modifies this
      ensures Valid()
      ensures isOpen == !old(isOpen)
      ensures viewDate == old(viewDate) && reported == old(reported)
    {
      isOpen := !isOpen;
    }

    /** The grid the picker shows for its current view. */
    method CalendarDays(today: CalendarDate, selectedDate: string) returns (days: seq<Cell>)
      requires Valid() && ParseLocalDate(selectedDate).Some?
      ensures days == Grid(viewDate, today, ParseLocalDate(selectedDate).value)
    {
      days := GenerateCalendarDays(viewDate, today, ParseLocalDate(selectedDate).value);
    }
  }
}
