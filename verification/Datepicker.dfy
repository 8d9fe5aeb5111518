/** The calendar page of bootstrap-datepicker: 42 day cells, and what a click on one of them selects. */
module Datepicker {
  import opened Calendar
  import opened JsText

  datatype Age = Old | Current | New

  /** A day cell: its number and the classes it carries. */
  datatype Cell = Cell(text: nat, age: Age, active: bool, disabled: bool)

  datatype Token = RowOpen | Day(cell: Cell) | RowClose

  /** A cell of the page of years. */
  datatype YearSpan = YearSpan(year: int, outside: bool, active: bool)

  /** A `Date` object in local time: its day, and the time within the day. */
  datatype Instant = Instant(day: Date, ms: nat)

  /** What a page depends on: the day that says which month to show, the selected date, the first day of the week. */
  datatype Page = Page(view: Date, date: Instant, weekStart: int, onRender: Date -> bool) {
    predicate Valid() {
      IsDate(view) && IsDate(date.day) && 0 <= weekStart <= 6
    }

    /** Years that the `Date` constructor takes for years of the twentieth century. */
    predicate LowYear() {
      0 <= view.y <= 99
    }

    /** The month before, taken through the constructor, then its last day. */
    function LastOfPrevious(): (x: Date)
      ensures IsDate(x)
    {
      var p := NewDate(view.y, view.m - 1, 28);
      SetDate(p, DaysInMonth(p.y, p.m))
    }

    function First(): (x: Date)
      ensures IsDate(x)
    {
      var last := LastOfPrevious();
      SetDate(last, last.d - (GetDay(last) - weekStart + 7) % 7)
    }

    /** The date of cell `k`. */
    function DateAt(k: int): (x: Date)
      ensures IsDate(x)
    {
      SetDate(First(), First().d + k)
    }

    /** How a date compares with the month in view, by year and month. */
    function AgeOf(x: Date): Age {
      if (x.m < view.m && x.y == view.y) || x.y < view.y then Old
      else if (x.m > view.m && x.y == view.y) || x.y > view.y then New
      else Current
    }

    function CellOf(x: Date): Cell
      requires IsDate(x)
    {
      Cell(x.d, AgeOf(x), Instant(x, 0) == date, onRender(x))
    }

    /** The first `n` cells with the row marks around them: a row for every seven cells. */
    function Tokens(n: nat): seq<Token> {
      if n == 0 then []
      else
        Tokens(n - 1) + (if (n - 1) % 7 == 0 then [RowOpen] else []) + [DayToken(n - 1)]
        + (if (n - 1) % 7 == 6 then [RowClose] else [])
    }

    function DayToken(k: int): Token {
      Day(CellOf(DateAt(k)))
    }

    function Row(r: nat): seq<Token> {
      var k := 7 * r;
      [RowOpen, DayToken(k), DayToken(k + 1), DayToken(k + 2), DayToken(k + 3), DayToken(k + 4), DayToken(k + 5),
       DayToken(k + 6), RowClose]
    }

    /** The month that the page of months highlights: that of the selected date, when it lies in the year in view. */
    function ActiveMonth(): Option<int> {
      if date.day.y == view.y then Some(date.day.m) else None
    }

    /** The decade that the page of years shows: `parseInt` drops the last digit, towards zero. */
    function Decade(): int {
      if view.y >= 0 then view.y / 10 * 10 else -(-view.y / 10 * 10)
    }

    /** The first `n` cells of the page of years; the first and the last of the twelve lie outside the decade. */
    function Years(n: nat): seq<YearSpan> {
      seq(n, i requires 0 <= i < n =>
        YearSpan(Decade() - 1 + i, i == 0 || i == 11, date.day.y == Decade() - 1 + i))
    }

    /** The month that the class of a cell points to. */
    function MonthFor(age: Age): int {
      match age case Old => view.m - 1 case Current => view.m case New => view.m + 1
    }

    /** The date that a click selects: the cell's number, in the month its class points to. */
    function Picked(cell: Cell): (x: Date)
      ensures IsDate(x)
    {
      NewDate(view.y, MonthFor(cell.age), DayText(cell))
    }

    /** The new day in view, kept at or below 28. */
    function PickedView(cell: Cell): (x: Date)
      ensures IsDate(x)
    {
      NewDate(view.y, MonthFor(cell.age), if DayText(cell) < 28 then DayText(cell) else 28)
    }

    /** The month that the grid is laid out around; not the month in view when that lies in a low year. */
    function LaidOut(): int {
      12 * (if LowYear() then 1900 + view.y else view.y) + view.m
    }
  }

  function DayText(cell: Cell): int {
    if cell.text == 0 then 1 else cell.text
  }

  // ---------- the grid ----------

  lemma LastDay(page: Page)
    ensures var p, last := NewDate(page.view.y, page.view.m - 1, 28), page.LastOfPrevious();
            last.d == DaysInMonth(p.y, p.m) && MonthOf(last) == page.LaidOut() - 1
    ensures DayNumber(page.LastOfPrevious()) == MonthStart(page.LaidOut()) - 1
  {
    hide MonthStart, MonthLength, MakeDay, DaysInMonth;
    var p := NewDate(page.view.y, page.view.m - 1, 28);
    MonthOfDate(p);
    MonthOfDate(page.LastOfPrevious());
    NextMonthStart(page.LaidOut() - 1);
  }

  lemma BackToWeekStart(w: int, weekStart: int)
    requires 0 <= w < 7 && 0 <= weekStart < 7
    ensures (w - (w - weekStart + 7) % 7) % 7 == weekStart
  {
    assert (w - weekStart + 7) % 7 == if w < weekStart then w - weekStart + 7 else w - weekStart;
  }

  /** The grid begins one to seven days before the first of the month, on the first day of the week. */
  lemma FirstCell(page: Page)
    requires page.Valid()
    ensures GetDay(page.First()) == page.weekStart
    ensures MonthStart(page.LaidOut()) - 7 <= DayNumber(page.First()) < MonthStart(page.LaidOut())
  {
    hide DayNumber, SetDate, GetDay, MonthStart, Page.LastOfPrevious, Page.LaidOut;
    LastDay(page);
    var last := page.LastOfPrevious();
    var back := (GetDay(last) - page.weekStart + 7) % 7;
    SetDateAdds(last, -back);
    WeekTurns(last, -back);
    assert page.First() == SetDate(last, last.d + -back);
    BackToWeekStart(GetDay(last), page.weekStart);
  }

  /** Counted from a Sunday, 31 December 2023, the first cell is as many days after a Sunday as the week starts. */
  lemma FirstCellFromSunday(page: Page)
    requires page.Valid()
    ensures (DayNumber(page.First()) - DayNumber(Date(2023, 11, 31))) % 7 == page.weekStart
  {
    hide *;
    FirstCell(page);
    FromSunday(page.First(), page.weekStart);
  }

  lemma FromSunday(x: Date, w: int)
    requires GetDay(x) == w
    ensures (DayNumber(x) - DayNumber(Date(2023, 11, 31))) % 7 == w
  {
    hide DayNumber;
    WeekDays(Date(2023, 11, 31));
    var n := DayNumber(x);
    assert n + 4 == (n - 19722) + 7 * 2818;
  }

  /** Cell `k` shows the day `k` days after the first cell. */
  lemma CellNumber(page: Page, k: int)
    ensures DayNumber(page.DateAt(k)) == DayNumber(page.First()) + k
  {
  }

  /** Consecutive cells show consecutive days of the calendar. */
  lemma NextCell(page: Page, k: int)
    ensures page.DateAt(k + 1) == Tomorrow(page.DateAt(k)) == SetDate(page.DateAt(k), page.DateAt(k).d + 1)
  {
    hide DayNumber, SetDate, Tomorrow, Before, Page.First, Page.DateAt;
    CellNumber(page, k);
    CellNumber(page, k + 1);
    TomorrowNumber(page.DateAt(k));
    DayNumbersOrder(page.DateAt(k + 1), Tomorrow(page.DateAt(k)));
    SetDateIsTomorrow(page.DateAt(k));
  }

  /** Column `c` of the grid is the same day of the week in every row. */
  lemma CellWeekDay(page: Page, k: nat)
    requires page.Valid()
    ensures GetDay(page.DateAt(k)) == (page.weekStart + k) % 7
  {
    hide DayNumber, SetDate, GetDay;
    FirstCell(page);
    WeekTurns(page.First(), k);
  }

  /** What one turn of the loop needs to know about cell `k`. */
  lemma CellFacts(page: Page, k: nat)
    requires page.Valid()
    ensures var x, weekEnd := page.DateAt(k), (page.weekStart + 6) % 7;
            && (GetDay(x) == page.weekStart <==> k % 7 == 0) && (GetDay(x) == weekEnd <==> k % 7 == 6)
            && SetDate(x, x.d + 1) == page.DateAt(k + 1) && DayNumber(x) == DayNumber(page.First()) + k
  {
    hide DayNumber, SetDate, GetDay, Page.DateAt, Page.First;
    CellWeekDay(page, k);
    NextCell(page, k);
    CellNumber(page, k);
    SameColumn(page.weekStart, k);
  }

  lemma CellEnds(page: Page)
    ensures page.DateAt(0) == page.First() && page.DateAt(42) == SetDate(page.First(), page.First().d + 42)
  {
    hide SetDate, DayNumber, Page.First;
    SetDateAdds(page.First(), 0);
  }

  lemma SameColumn(w: int, k: nat)
    requires 0 <= w <= 6
    ensures (w + k) % 7 == w <==> k % 7 == 0
    ensures (w + k) % 7 == (w + 6) % 7 <==> k % 7 == 6
  {
  }

  // ---------- which days the grid shows ----------

  /** How many cells come before the first of the month that is laid out. */
  function Lead(page: Page): int {
    MonthStart(page.LaidOut()) - DayNumber(page.First())
  }

  /** The grid is one to seven days of the month before, the whole month, and four to thirteen days of the next. */
  lemma GridMonths(page: Page, k: int)
    requires page.Valid() && 0 <= k < 42
    ensures 1 <= Lead(page) <= 7 && 4 <= 42 - Lead(page) - MonthLength(page.LaidOut()) <= 13
    ensures var month := MonthOf(page.DateAt(k)) - page.LaidOut();
            && (month == -1 <==> k < Lead(page))
            && (month == 0 <==> Lead(page) <= k < Lead(page) + MonthLength(page.LaidOut()))
            && (month == 1 <==> Lead(page) + MonthLength(page.LaidOut()) <= k)
  {
    hide DayNumber, MonthStart, MonthLength, Page.First, Page.DateAt, GetDay;
    FirstCell(page);
    CellNumber(page, k);
    var j, x := page.LaidOut(), page.DateAt(k);
    NextMonthStart(j - 1);
    NextMonthStart(j);
    InMonth(x, j - 1);
    InMonth(x, j);
    InMonth(x, j + 1);
  }

  /** A date is on the grid. */
  ghost predicate Shows(page: Page, x: Date) {
    exists k :: 0 <= k < 42 && page.DateAt(k) == x
  }

  lemma CellOfDay(page: Page, x: Date)
    requires page.Valid() && IsDate(x) && MonthOf(x) == page.LaidOut()
    ensures Shows(page, x)
  {
    hide DayNumber, MonthStart, MonthLength, Page.First, Page.DateAt, GetDay, SetDate;
    var k := DayNumber(x) - DayNumber(page.First());
    FirstCell(page);
    GridMonths(page, 0);
    InMonth(x, page.LaidOut());
    CellNumber(page, k);
    DayNumbersOrder(page.DateAt(k), x);
  }

  /** No date is on the grid twice. */
  lemma CellsDiffer(page: Page, j: int, k: int)
    ensures page.DateAt(j) == page.DateAt(k) <==> j == k
  {
    CellNumber(page, j);
    CellNumber(page, k);
  }

  /** The grid shows every day of the month in view, unless the year is one that the constructor replaces. */
  lemma ShowsTheMonth(page: Page)
    requires page.Valid()
    ensures (forall x :: IsDate(x) && MonthOf(x) == MonthOf(page.view) ==> Shows(page, x)) <==> !page.LowYear()
  {
    hide DayNumber, MonthStart, MonthLength, Page.First, Page.DateAt;
    if page.LowYear() {
      assert IsDate(page.view);
      forall k | 0 <= k < 42 ensures page.DateAt(k) != page.view {
        GridMonths(page, k);
      }
      assert !Shows(page, page.view);
    } else {
      forall x | IsDate(x) && MonthOf(x) == MonthOf(page.view) ensures Shows(page, x) {
        CellOfDay(page, x);
      }
    }
  }

  /** `AgeOf` compares months. */
  lemma AgeIsMonthOrder(page: Page, x: Date)
    requires page.Valid() && IsDate(x)
    ensures page.AgeOf(x) == if MonthOf(x) < MonthOf(page.view) then Old
                             else if MonthOf(x) > MonthOf(page.view) then New else Current
  {
  }

  /** In a low year the grid belongs to the twentieth century, and every one of its cells is marked as new. */
  lemma LowYearsAreAllNew(page: Page, k: int)
    requires page.Valid() && page.LowYear() && 0 <= k < 42
    ensures page.AgeOf(page.DateAt(k)) == New
    ensures page.DateAt(k).y >= 1899
  {
    hide DayNumber, MonthStart, MonthLength, Page.First, Page.DateAt, Page.AgeOf;
    GridMonths(page, k);
    AgeIsMonthOrder(page, page.DateAt(k));
  }

  // ---------- what a click selects ----------

  lemma DayOf(x: Date)
    requires IsDate(x)
    ensures MakeDay(MonthOf(x), x.d) == x
  {
    SetDateAdds(x, 0);
  }

  lemma PickedDay(page: Page, x: Date, cell: Cell)
    requires page.Valid() && IsDate(x) && cell.text == x.d && !page.LowYear()
    requires 12 * page.view.y + page.MonthFor(cell.age) == MonthOf(x)
    ensures page.Picked(cell) == x
    ensures MonthOf(page.PickedView(cell)) == MonthOf(x) && page.PickedView(cell).d == if x.d < 28 then x.d else 28
  {
    DayOf(x);
  }

  /** A click on a cell selects the date that the cell shows, and moves the view to that date's month. */
  lemma ClickHits(page: Page, k: int)
    requires page.Valid() && 0 <= k < 42 && !page.LowYear()
    ensures page.Picked(page.CellOf(page.DateAt(k))) == page.DateAt(k)
    ensures MonthOf(page.PickedView(page.CellOf(page.DateAt(k)))) == MonthOf(page.DateAt(k))
  {
    hide DayNumber, MonthStart, MonthLength, Page.First, Page.DateAt, Page.AgeOf, Page.Picked, Page.PickedView;
    var x := page.DateAt(k);
    GridMonths(page, k);
    AgeIsMonthOrder(page, x);
    PickedDay(page, x, page.CellOf(x));
  }

  /** Clicks are right on all 42 cells exactly when the year is not one that the constructor replaces. */
  lemma ClicksExact(page: Page)
    requires page.Valid()
    ensures (forall k :: 0 <= k < 42 ==> page.Picked(page.CellOf(page.DateAt(k))) == page.DateAt(k))
       <==> !page.LowYear()
  {
    hide DayNumber, MonthStart, MonthLength, Page.First, Page.DateAt, Page.AgeOf;
    if page.LowYear() {
      GridMonths(page, 0);
      LowYearsAreAllNew(page, 0);
      assert page.Picked(page.CellOf(page.DateAt(0))) != page.DateAt(0) by {
        MonthPicked(page, page.CellOf(page.DateAt(0)));
      }
    } else {
      forall k | 0 <= k < 42 ensures page.Picked(page.CellOf(page.DateAt(k))) == page.DateAt(k) {
        ClickHits(page, k);
      }
    }
  }

  /** The date a click selects is never before the month that the cell's class points to. */
  lemma MonthPicked(page: Page, cell: Cell)
    requires page.Valid() && page.LowYear()
    ensures MonthOf(page.Picked(cell)) >= 12 * (1900 + page.view.y) + page.MonthFor(cell.age)
  {
    hide MonthStart, MonthLength;
    InMonth(page.Picked(cell), 12 * (1900 + page.view.y) + page.MonthFor(cell.age));
  }

  /** After a click, one cell of the new page is highlighted, and it is the one clicked. */
  lemma OneActive(page: Page, next: Page, k: int, j: int)
    requires page.Valid() && 0 <= k < 42 && 0 <= j < 42 && !page.LowYear() && !next.LowYear()
    requires var cell := page.CellOf(page.DateAt(k));
             next == Page(page.PickedView(cell), Instant(page.Picked(cell), 0), page.weekStart, page.onRender)
    ensures Shows(next, page.DateAt(k))
    ensures next.CellOf(next.DateAt(j)).active <==> next.DateAt(j) == page.DateAt(k)
  {
    hide DayNumber, MonthStart, MonthLength, Page.First, Page.DateAt, Page.AgeOf, Page.Picked, Page.PickedView;
    ClickHits(page, k);
    CellOfDay(next, page.DateAt(k));
  }

  /** The six rows of the page: seven cells each, properly opened and closed. */
  lemma SixRows(page: Page)
    ensures page.Tokens(42) == page.Row(0) + page.Row(1) + page.Row(2) + page.Row(3) + page.Row(4) + page.Row(5)
  {
    NoRows(page);
    hide Page.Tokens, Page.Row;
    AddRow(page, 0);
    AddRow(page, 1);
    AddRow(page, 2);
    AddRow(page, 3);
    AddRow(page, 4);
    AddRow(page, 5);
  }

  lemma NoRows(page: Page)
    ensures page.Tokens(0) == []
  {
  }

  lemma NextToken(page: Page, r: nat, c: nat)
    requires c < 7
    ensures page.Tokens(7 * r + c + 1)
         == page.Tokens(7 * r + c) + (if c == 0 then [RowOpen] else []) + [page.DayToken(7 * r + c)]
            + (if c == 6 then [RowClose] else [])
  {
    hide Page.DayToken;
    assert (7 * r + c) % 7 == c;
  }

  lemma AddRow(page: Page, r: nat)
    ensures page.Tokens(7 * r + 7) == page.Tokens(7 * r) + page.Row(r)
  {
    hide Page.Tokens, Page.DayToken;
    NextToken(page, r, 0);
    NextToken(page, r, 1);
    NextToken(page, r, 2);
    NextToken(page, r, 3);
    NextToken(page, r, 4);
    NextToken(page, r, 5);
    NextToken(page, r, 6);
  }

  /** The year in view is among the twelve shown exactly when it is not negative or ends in 0 or 1. */
  lemma YearOnItsPage(page: Page)
    ensures (exists i :: 0 <= i < 12 && page.Years(12)[i].year == page.view.y)
       <==> page.view.y >= 0 || -page.view.y % 10 <= 1
  {
    var y, first := page.view.y, page.Decade() - 1;
    assert forall i :: 0 <= i < 12 ==> page.Years(12)[i].year == first + i;
    if y >= 0 || -y % 10 <= 1 {
      assert page.Years(12)[y - first].year == y;
    }
  }

  /** The pages of months and years: what is highlighted, and which of the twelve years lie outside the decade. */
  lemma SpansSpelled(page: Page, i: nat, m: int)
    requires i < 12
    ensures var span, y := page.Years(12)[i], page.view.y;
            && |page.Years(12)| == 12 && (span.outside <==> !(page.Decade() <= span.year <= page.Decade() + 9))
            && (span.active <==> span.year == page.date.day.y) && (i == 0 || i == 11 <==> span.outside)
            && page.Decade() % 10 == 0 && (y >= 0 ==> 0 <= y - page.Decade() < 10)
            && (y < 0 ==> 0 <= page.Decade() - y < 10)
    ensures page.ActiveMonth() == Some(m) <==> page.date.day.y == page.view.y && page.date.day.m == m
  {
  }

  /** A cell whose number is 0 or missing stands for the first day. */
  lemma DayOfNoNumber(page: Page, age: Age, active: bool, disabled: bool)
    ensures page.Picked(Cell(0, age, active, disabled)) == page.Picked(Cell(1, age, active, disabled))
  {
  }

  // ---------- moving the view ----------

  /** From a day that every month has, `setMonth` moves by whole months and back. */
  lemma MonthMoves(x: Date, months: int)
    requires IsDate(x) && x.d <= 28
    ensures var r := SetMonth(x, x.m + months);
            MonthOf(r) == MonthOf(x) + months && r.d == x.d && SetMonth(r, r.m - months) == x
  {
    DayOf(x);
  }

  lemma FirstOfMonth(y: int, m: int)
    ensures NewDate(y, m, 1).d == 1
  {
  }

  lemma MonthPick(x: Date, month: int)
    requires IsDate(x) && x.d <= 28 && 0 <= month < 12
    ensures SetMonth(x, month) == Date(x.y, month, x.d)
  {
    DayOf(Date(x.y, month, x.d));
  }

  lemma YearMoves(x: Date, year: int)
    requires IsDate(x) && x.d <= 28
    ensures SetFullYear(x, year) == Date(year, x.m, x.d)
  {
    DayOf(Date(year, x.m, x.d));
  }

  // ---------- the widget ----------

  class Picker {
    var date: Instant
    var viewDate: Date
    var viewMode: int
    const minViewMode: int
    const weekStart: int
    const weekEnd: int
    const onRender: Date -> bool
    var html: seq<Token>
    var monthsTitle: int
    var activeMonth: Option<int>
    var yearsTitle: (int, int)
    var yearSpans: seq<YearSpan>

    function Shown(): Page
      reads this
    {
      Page(viewDate, date, weekStart, onRender)
    }

    /** The pages on screen are those of the current state, and the view's day exists in every month. */
    ghost predicate Valid()
      reads this
    {
      && Shown().Valid() && viewDate.d <= 28 && 0 <= minViewMode <= 2 && 0 <= viewMode <= 2
      && weekEnd == (weekStart + 6) % 7
      && Filled()
    }

    /** The three pages on screen are those of the current state. */
    ghost predicate Filled()
      reads this
    {
      var page := Shown();
      && html == page.Tokens(42)
      && monthsTitle == viewDate.y && activeMonth == page.ActiveMonth()
      && yearsTitle == (page.Decade(), page.Decade() + 9) && yearSpans == page.Years(12)
    }

    constructor (start: Instant, weekStart: int, viewMode: int, minViewMode: int, onRender: Date -> bool)
      requires IsDate(start.day) && 0 <= weekStart <= 6 && 0 <= viewMode <= 2 && 0 <= minViewMode <= 2
      ensures Valid() && date == start && viewDate == NewDate(start.day.y, start.day.m, 1)
      ensures this.weekStart == weekStart && this.viewMode == viewMode && this.onRender == onRender
    {
      this.weekStart := weekStart;
      this.weekEnd := if weekStart == 0 then 6 else weekStart - 1;
      this.viewMode, this.minViewMode, this.onRender := viewMode, minViewMode, onRender;
      this.date := start;
      this.viewDate := NewDate(start.day.y, start.day.m, 1);
      html, monthsTitle, activeMonth, yearsTitle, yearSpans := [], 0, None, (0, 0), [];
      new;
      hide Page.Tokens, Page.Years, MakeDay, NewDate;
      FirstOfMonth(start.day.y, start.day.m);
      Fill();
    }

    /** Writes the three pages. */
    method Fill()
      requires Shown().Valid() && weekEnd == (weekStart + 6) % 7
      modifies `html, `monthsTitle, `activeMonth, `yearsTitle, `yearSpans
      ensures Filled()
    {
      hide Page.Tokens, Page.Years, Page.Valid;
      FillDays();
      FillSpans();
    }

    /** The pages of months and of years. */
    method FillSpans()
      modifies `monthsTitle, `activeMonth, `yearsTitle, `yearSpans
      ensures monthsTitle == viewDate.y && activeMonth == Shown().ActiveMonth()
      ensures yearsTitle == (Shown().Decade(), Shown().Decade() + 9) && yearSpans == Shown().Years(12)
    {
      ghost var page := Shown();
      var year, currentYear := viewDate.y, date.day.y;
      monthsTitle := year;
      activeMonth := if currentYear == year then Some(date.day.m) else None;
      year := if year >= 0 then year / 10 * 10 else -(-year / 10 * 10);
      yearsTitle := (year, year + 9);
      year := year - 1;
      var spans := [];
      for i := -1 to 11
        invariant year == page.Decade() + i && spans == page.Years(i + 1)
      {
        spans := spans + [YearSpan(year, i == -1 || i == 10, currentYear == year)];
        year := year + 1;
      }
      yearSpans := spans;
    }

    /** Writes the 42 cells, opening a row on the first day of the week and closing it on the last. */
    method FillDays()
      requires Shown().Valid() && weekEnd == (weekStart + 6) % 7
      modifies `html
      ensures html == Shown().Tokens(42)
    {
      hide SetDate, NewDate, GetDay, DayNumber, DaysInMonth, Page.DateAt;
      ghost var page := Shown();
      var year, month, weekStart, weekEnd := viewDate.y, viewDate.m, this.weekStart, this.weekEnd;
      var prevMonth := NewDate(year, month - 1, 28);
      var day := DaysInMonth(prevMonth.y, prevMonth.m);
      prevMonth := SetDate(prevMonth, day);
      LastDay(page);
      prevMonth := SetDate(prevMonth, day - (GetDay(prevMonth) - weekStart + 7) % 7);
      assert prevMonth == page.First();
      var nextMonth := SetDate(prevMonth, prevMonth.d + 42);
      CellEnds(page);
      var out := [];
      ghost var k := 0;
      hide Page.First, Page.LastOfPrevious;
      while DayNumber(prevMonth) < DayNumber(nextMonth)
        invariant 0 <= k <= 42 && prevMonth == page.DateAt(k) && IsDate(prevMonth)
        invariant out == page.Tokens(k)
        decreases 42 - k
      {
        CellFacts(page, k);
        CellFacts(page, 42);
        assert k < 42;
        if GetDay(prevMonth) == weekStart {
          out := out + [RowOpen];
        }
        var prevY, prevM := prevMonth.y, prevMonth.m;
        var age := Current;
        if (prevM < month && prevY == year) || prevY < year {
          age := Old;
        } else if (prevM > month && prevY == year) || prevY > year {
          age := New;
        }
        out := out + [Day(Cell(prevMonth.d, age, Instant(prevMonth, 0) == date, onRender(prevMonth)))];
        if GetDay(prevMonth) == weekEnd {
          out := out + [RowClose];
        }
        prevMonth := SetDate(prevMonth, prevMonth.d + 1);
        k := k + 1;
      }
      CellFacts(page, k);
      CellFacts(page, 42);
      html := out;
    }

    /** Shows the month of a date given from outside. */
    method SetValue(newDate: Instant)
      requires Valid() && IsDate(newDate.day)
      modifies `date, `viewDate, `html, `monthsTitle, `activeMonth, `yearsTitle, `yearSpans
      ensures Valid() && date == newDate && viewMode == old(viewMode)
      ensures viewDate == NewDate(newDate.day.y, newDate.day.m, 1)
    {
      hide Page.Tokens, Page.Years, MakeDay, NewDate;
      FirstOfMonth(newDate.day.y, newDate.day.m);
      date := newDate;
      viewDate := NewDate(date.day.y, date.day.m, 1);
      Fill();
    }

    /** A click on a day cell; a disabled one does nothing. */
    method Click(cell: Cell)
      requires Valid()
      modifies `date, `viewDate, `html, `monthsTitle, `activeMonth, `yearsTitle, `yearSpans
      ensures Valid() && viewMode == old(viewMode)
      ensures if cell.disabled then date == old(date) && viewDate == old(viewDate)
              else date == Instant(old(Shown()).Picked(cell), 0) && viewDate == old(Shown()).PickedView(cell)
    {
      hide Page.Tokens, Page.Years, MakeDay, DaysInMonth, MonthLength, MonthStart;
      if !cell.disabled {
        var day := if cell.text == 0 then 1 else cell.text;
        var month := viewDate.m;
        if cell.age == Old {
          month := month - 1;
        } else if cell.age == New {
          month := month + 1;
        }
        var year := viewDate.y;
        date := Instant(NewDate(year, month, day), 0);
        viewDate := NewDate(year, month, if day < 28 then day else 28);
        Fill();
      }
    }

    /** The arrows: one month, one year or ten years back or forth, by the mode. */
    method Navigate(forth: bool)
      requires Valid()
      modifies `viewDate, `html, `monthsTitle, `activeMonth, `yearsTitle, `yearSpans
      ensures Valid() && viewDate.d == old(viewDate.d)
      ensures var months := if viewMode == 0 then 1 else if viewMode == 1 then 12 else 120;
              MonthOf(viewDate) == MonthOf(old(viewDate)) + if forth then months else -months
    {
      hide Page.Tokens, Page.Years, SetMonth, SetFullYear, DaysInMonth;
      var step := if forth then 1 else -1;
      MonthMoves(viewDate, step);
      YearMoves(viewDate, viewDate.y + step);
      YearMoves(viewDate, viewDate.y + 10 * step);
      if viewMode == 0 {
        viewDate := SetMonth(viewDate, viewDate.m + step);
      } else {
        viewDate := SetFullYear(viewDate, viewDate.y + (if viewMode == 1 then 1 else 10) * step);
      }
      Fill();
    }

    /** A click on a month or a year in the wider views: they also select the day in view. */
    method PickSpan(isMonth: bool, value: int)
      requires Valid() && (isMonth ==> 0 <= value < 12)
      modifies `date, `viewDate, `viewMode, `html, `monthsTitle, `activeMonth, `yearsTitle, `yearSpans
      ensures Valid()
      ensures viewDate == if isMonth then Date(old(viewDate.y), value, old(viewDate.d))
                          else Date(value, old(viewDate.m), old(viewDate.d))
      ensures date == if old(viewMode) != 0 then Instant(viewDate, 0) else old(date)
      ensures viewMode == if old(viewMode) - 1 > minViewMode then old(viewMode) - 1 else minViewMode
    {
      hide Page.Tokens, Page.Years, Page.Decade, SetMonth, SetFullYear, DaysInMonth;
      if isMonth {
        MonthPick(viewDate, value);
        viewDate := SetMonth(viewDate, value);
      } else {
        YearMoves(viewDate, value);
        viewDate := SetFullYear(viewDate, value);
      }
      if viewMode != 0 {
        date := Instant(viewDate, 0);
      }
      viewMode := if viewMode - 1 > minViewMode then viewMode - 1 else minViewMode;
      Fill();
    }
  }
}
