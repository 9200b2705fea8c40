/**
  The month view of app/calendar/page.tsx: which month the URL asks for,
  the links to the months before and after, the jams of each day, and the
  grid of cells broken into weeks.
*/
module CalendarGrid {
  import opened Wrappers
  import opened Text
  import opened CivilDate
  import opened PageParams
  import opened CalendarFields
  import opened Calendar
  import opened Lists

  // ---------------------------------------------------------------------
  // The month asked for
  // ---------------------------------------------------------------------

  /** The number a parameter holds, when it is present, non-empty and reads
      under `Number`. */
  function NumberParam(params: SearchParams, key: string): (r: Option<int>)
    ensures GetParam(params, key).None? ==> r.None?
  {
    var p := GetParam(params, key);
    if p.None? || p.value == "" then None else ParseNumber(p.value)
  }

  /** The year the URL asks for, when it reads as a number in 1970..2100. */
  function RequestedYear(params: SearchParams): (r: Option<int>)
    ensures r.Some? ==> 1970 <= r.value <= 2100
  {
    var n := NumberParam(params, "year");
    if n.Some? && 1970 <= n.value <= 2100 then n else None
  }

  /** The month index (0 = January) the URL asks for, when `month` reads as
      a number in 1..12. */
  function RequestedMonthIndex(params: SearchParams): (r: Option<int>)
    ensures r.Some? ==> 0 <= r.value <= 11
  {
    var n := NumberParam(params, "month");
    if n.Some? && 0 <= n.value - 1 <= 11 then Some(n.value - 1) else None
  }

  /** The year to show: the one the URL asks for, else the current one. */
  method ResolveYear(params: SearchParams, nowYear: int) returns (year: int)
    ensures year == RequestedYear(params).GetOr(nowYear)
  {
    var yearParam := GetParam(params, "year");
    // `NaN` is `None`
    var y: Option<int> := Some(nowYear);
    if yearParam.Some? && yearParam.value != "" {
      y := ParseNumber(yearParam.value);
    }
    if y.None? || y.value < 1970 || y.value > 2100 {
      y := Some(nowYear);
    }
    year := y.value;
  }

  /** The month index to show: the one the URL asks for, else the current
      one. */
  method ResolveMonthIndex(params: SearchParams, nowMonthIndex: int) returns (monthIndex: int)
    ensures monthIndex == RequestedMonthIndex(params).GetOr(nowMonthIndex)
  {
    var monthParam := GetParam(params, "month");
    var m: Option<int> := Some(nowMonthIndex);
    if monthParam.Some? && monthParam.value != "" {
      var n := ParseNumber(monthParam.value);
      m := if n.Some? then Some(n.value - 1) else None;
    }
    if m.None? || m.value < 0 || m.value > 11 {
      m := Some(nowMonthIndex);
    }
    monthIndex := m.value;
  }

  /** A `year` of decimal digits is taken exactly when its value lies in
      1970..2100. */
  lemma YearParamReads(params: SearchParams, s: string)
    requires GetParam(params, "year") == Some(s) && s != "" && AllDigits(s)
    ensures RequestedYear(params) == if 1970 <= DigitsValue(s) <= 2100 then Some(DigitsValue(s)) else None
  {
    NumberOfDigits(s);
  }


  /** A `month` of decimal digits is taken, as the index one lower, exactly
      when its value lies in 1..12. */
  lemma MonthParamReads(params: SearchParams, s: string)
    requires GetParam(params, "month") == Some(s) && s != "" && AllDigits(s)
    ensures RequestedMonthIndex(params) == if 1 <= DigitsValue(s) <= 12 then Some(DigitsValue(s) - 1) else None
  {
    NumberOfDigits(s);
    assert NumberParam(params, "month") == Some(DigitsValue(s));
  }


  /** A parameter that is not a number leaves the current month in place. */
  lemma NotANumberIgnored(params: SearchParams)
    requires GetParam(params, "year").Some? && ParseNumber(GetParam(params, "year").value).None?
    requires GetParam(params, "month").Some? && ParseNumber(GetParam(params, "month").value).None?
    ensures RequestedYear(params).None? && RequestedMonthIndex(params).None?
  {
  }

  // ---------------------------------------------------------------------
  // The months before and after
  // ---------------------------------------------------------------------

  /** The year and month (1..12) of the month before month index
      `monthIndex` of `year`. */
  function PrevMonth(year: int, monthIndex: int): (r: (int, int))
    requires 0 <= monthIndex <= 11
    ensures 1 <= r.1 <= 12
  {
    if monthIndex == 0 then (year - 1, 12) else (year, monthIndex)
  }

  /** The year and month (1..12) of the month after month index
      `monthIndex` of `year`. */
  function NextMonth(year: int, monthIndex: int): (r: (int, int))
    requires 0 <= monthIndex <= 11
    ensures 1 <= r.1 <= 12
  {
    if monthIndex == 11 then (year + 1, 1) else (year, monthIndex + 2)
  }

  /** The month before ends the day before the month shown begins. */
  lemma PrevMonthAdjoins(year: int, monthIndex: int)
    requires 0 <= monthIndex <= 11
    ensures var p := PrevMonth(year, monthIndex);
            DayNumber(Date(year, monthIndex + 1, 1)) == DayNumber(Date(p.0, p.1, 1)) + DaysInMonth(p.0, p.1)
  {
    FirstOfNextMonth(if monthIndex == 0 then year - 1 else year, if monthIndex == 0 then 12 else monthIndex);
  }

  /** The month after begins the day after the month shown ends. */
  lemma NextMonthAdjoins(year: int, monthIndex: int)
    requires 0 <= monthIndex <= 11
    ensures var n := NextMonth(year, monthIndex);
            DayNumber(Date(n.0, n.1, 1)) == DayNumber(Date(year, monthIndex + 1, 1)) + DaysInMonth(year, monthIndex + 1)
  {
    FirstOfNextMonth(year, monthIndex + 1);
  }

  /** Going back a month and then forward again returns to the month shown,
      and so does the other order. */
  lemma PrevNextRoundTrip(year: int, monthIndex: int)
    requires 0 <= monthIndex <= 11
    ensures var p := PrevMonth(year, monthIndex); NextMonth(p.0, p.1 - 1) == (year, monthIndex + 1)
    ensures var n := NextMonth(year, monthIndex); PrevMonth(n.0, n.1 - 1) == (year, monthIndex + 1)
  {
  }

  /** The link to the calendar of a month. */
  function MonthHref(ym: (int, int)): (href: string)
    ensures StartsWith(href, "/calendar?year=")
  {
    "/calendar?year=" + IntToString(ym.0) + "&month=" + IntToString(ym.1)
  }

  // ---------------------------------------------------------------------
  // The jams of each day
  // ---------------------------------------------------------------------

  /** Whether a jam happens on `date`, as a predicate on jams. */
  function HappensOn(date: Date): Jam -> bool
    requires IsValid(date)
  {
    jam => OccursOnDate(jam, date)
  }

  /** The jams of `jams` that happen on `date`, in their order. */
  function OccurringOn(jams: seq<Jam>, date: Date): seq<Jam>
    requires IsValid(date)
  {
    Filter(jams, HappensOn(date))
  }

  /** A jam is in a day's list exactly when it is one of the jams and
      happens on that day. */
  lemma OccurringOnMembers(jams: seq<Jam>, date: Date, jam: Jam)
    requires IsValid(date)
    ensures jam in OccurringOn(jams, date) <==> jam in jams && OccursOnDate(jam, date)
  {
    FilterMembers(jams, HappensOn(date), jam);
  }

  /** The days 1..`daysInMonth`. */
  predicate IsDayOf(day: int, daysInMonth: int) {
    1 <= day <= daysInMonth
  }

  /** The test the page applies to a jam and a day of the month it shows:
      `occursOnDate` on that day (no jam happens on a day the month does
      not have). */
  function OnDayOf(year: int, month: int): (Jam, int) -> bool
    requires 1 <= month <= 12
  {
    (jam: Jam, day: int) => IsDayOf(day, DaysInMonth(year, month)) && OccursOnDate(jam, Date(year, month, day))
  }

  /** The jams of `jams` that `occurs` holds for on `day`, in their order. */
  function OnDay(jams: seq<Jam>, occurs: (Jam, int) -> bool, day: int): seq<Jam> {
    Filter(jams, jam => occurs(jam, day))
  }

  /** One more jam joins the list of a day exactly when the test holds for
      it on that day. */
  lemma OnDayExtend(jams: seq<Jam>, k: int, occurs: (Jam, int) -> bool, day: int)
    requires 0 <= k < |jams|
    ensures OnDay(jams[..k + 1], occurs, day)
            == OnDay(jams[..k], occurs, day) + (if occurs(jams[k], day) then [jams[k]] else [])
  {
    assert jams[..k + 1][..k] == jams[..k];
  }

  /** On a day of the month, the page's test keeps exactly the jams that
      happen on that date. */
  lemma OnDayOfDate(jams: seq<Jam>, year: int, month: int, day: int)
    requires 1 <= month <= 12 && IsDayOf(day, DaysInMonth(year, month))
    ensures OnDay(jams, OnDayOf(year, month), day) == OccurringOn(jams, Date(year, month, day))
  {
    var f := jam => OnDayOf(year, month)(jam, day);
    var g := HappensOn(Date(year, month, day));
    forall jam ensures f(jam) == g(jam) {
      assert f(jam) == OnDayOf(year, month)(jam, day);
      assert OnDayOf(year, month)(jam, day) == OccursOnDate(jam, Date(year, month, day));
      assert g(jam) == OccursOnDate(jam, Date(year, month, day));
    }
    FilterAgrees(jams, f, g);
  }

  /** The inner loop over the days of the month for the jam `jams[k]`: it
      joins the list of each day that `occurs` holds for it on. */
  method AddToDays(byDate: map<int, seq<Jam>>, jams: seq<Jam>, k: nat, daysInMonth: nat, occurs: (Jam, int) -> bool)
    returns (updated: map<int, seq<Jam>>)
    requires k < |jams|
    requires forall d :: d in byDate <==> IsDayOf(d, daysInMonth)
    requires forall d :: IsDayOf(d, daysInMonth) ==> byDate[d] == OnDay(jams[..k], occurs, d)
    ensures forall d :: d in updated <==> IsDayOf(d, daysInMonth)
    ensures forall d :: IsDayOf(d, daysInMonth) ==> updated[d] == OnDay(jams[..k + 1], occurs, d)
  {
    updated := byDate;
    var jam := jams[k];
    var day := 1;
    while day <= daysInMonth
      invariant 1 <= day <= daysInMonth + 1
      invariant forall d :: d in updated <==> IsDayOf(d, daysInMonth)
      invariant forall d :: 1 <= d < day ==> updated[d] == OnDay(jams[..k + 1], occurs, d)
      invariant forall d :: day <= d <= daysInMonth ==> updated[d] == OnDay(jams[..k], occurs, d)
    {
      OnDayExtend(jams, k, occurs, day);
      if occurs(jam, day) {
        updated := updated[day := updated[day] + [jam]];
      }
      day := day + 1;
    }
  }

  /** `jamsByDate`: a list for every day 1..`daysInMonth`, each holding, in
      the order of `jams`, the jams that `occurs` holds for on that day. */
  method JamsByDate(jams: seq<Jam>, daysInMonth: nat, occurs: (Jam, int) -> bool)
    returns (byDate: map<int, seq<Jam>>)
    ensures forall day :: day in byDate <==> IsDayOf(day, daysInMonth)
    ensures forall day :: IsDayOf(day, daysInMonth) ==> byDate[day] == OnDay(jams, occurs, day)
  {
    byDate := map[];
    var day := 1;
    while day <= daysInMonth
      invariant 1 <= day <= daysInMonth + 1
      invariant forall d :: d in byDate <==> 1 <= d < day
      invariant forall d :: 1 <= d < day ==> byDate[d] == []
    {
      byDate := byDate[day := []];
      day := day + 1;
    }
    var k := 0;
    while k < |jams|
      invariant 0 <= k <= |jams|
      invariant forall d :: d in byDate <==> IsDayOf(d, daysInMonth)
      invariant forall d :: IsDayOf(d, daysInMonth) ==> byDate[d] == OnDay(jams[..k], occurs, d)
    {
      byDate := AddToDays(byDate, jams, k, daysInMonth, occurs);
      k := k + 1;
    }
    assert jams[..|jams|] == jams;
  }

  // ---------------------------------------------------------------------
  // The grid
  // ---------------------------------------------------------------------

  /** A cell of the grid: padding before the first, or a day of the month. */
  datatype Cell = Blank | Day(date: int)

  /** `firstDay` blanks, then the days 1..`daysInMonth`. */
  function Cells(firstDay: nat, daysInMonth: nat): (cells: seq<Cell>)
    ensures |cells| == firstDay + daysInMonth
  {
    seq(firstDay, _ => Blank) + seq(daysInMonth, i => Day(i + 1))
  }

  /** The cells, as the page pushes them. */
  method BuildCells(firstDay: nat, daysInMonth: nat) returns (cells: seq<Cell>)
    ensures cells == Cells(firstDay, daysInMonth)
  {
    cells := [];
    var i := 0;
    while i < firstDay
      invariant 0 <= i <= firstDay
      invariant cells == seq(i, _ => Blank)
    {
      cells := cells + [Blank];
      i := i + 1;
    }
    var day := 1;
    while day <= daysInMonth
      invariant 1 <= day <= daysInMonth + 1
      invariant cells == seq(firstDay, _ => Blank) + seq(day - 1, i => Day(i + 1))
    {
      cells := cells + [Day(day)];
      day := day + 1;
    }
  }

  /** Day `d` of the month is the cell at `firstDay + d - 1`, and nothing
      else is that day; every cell before it is padding. */
  lemma CellsPlaceDays(firstDay: nat, daysInMonth: nat, i: int)
    requires 0 <= i < firstDay + daysInMonth
    ensures Cells(firstDay, daysInMonth)[i] == (if i < firstDay then Blank else Day(i - firstDay + 1))
  {
  }

  /** With `firstDay` the weekday of the first, each day sits in the column
      (position within its week of seven) of its own weekday. */
  lemma DaysLineUpWithWeekdays(year: int, month: int, day: int)
    requires 1 <= month <= 12 && 1 <= day <= DaysInMonth(year, month)
    ensures var firstDay := Weekday(Date(year, month, 1));
            Cells(firstDay, DaysInMonth(year, month))[firstDay + day - 1] == Day(day)
            && (firstDay + day - 1) % 7 == Weekday(Date(year, month, day))
  {
    SameMonthNumber(year, month, day);
    var n := DayNumber(Date(year, month, 1));
    assert (n + 4) % 7 + day - 1 == ((n + 4) % 7 + day - 1);
    ShiftMod(n + 4, day - 1);
  }

  lemma ShiftMod(a: int, b: int)
    requires b >= 0
    ensures (a % 7 + b) % 7 == (a + b) % 7
  {
  }

  /** The rows of the grid: consecutive chunks of seven cells, the last one
      as long as what is left. */
  function Chunks(cells: seq<Cell>): seq<seq<Cell>>
    decreases |cells|
  {
    if |cells| == 0 then []
    else if |cells| <= 7 then [cells]
    else [cells[..7]] + Chunks(cells[7..])
  }

  /** There are as many rows as sevens of cells, a last partial one
      included. */
  lemma {:induction false} ChunksCount(cells: seq<Cell>)
    ensures |Chunks(cells)| == (|cells| + 6) / 7
    decreases |cells|
  {
    if |cells| > 7 {
      ChunksCount(cells[7..]);
    }
  }

  function Flatten(rows: seq<seq<Cell>>): seq<Cell>
    decreases |rows|
  {
    if |rows| == 0 then [] else rows[0] + Flatten(rows[1..])
  }

  /** Chunking keeps every cell, in order; all rows but the last are full,
      and no row is empty. */
  lemma {:induction false} ChunksShape(cells: seq<Cell>)
    ensures Flatten(Chunks(cells)) == cells
    ensures forall r :: 0 <= r < |Chunks(cells)| ==> 1 <= |Chunks(cells)[r]| <= 7
    ensures forall r :: 0 <= r < |Chunks(cells)| - 1 ==> |Chunks(cells)[r]| == 7
    decreases |cells|
  {
    if |cells| > 7 {
      ChunksShape(cells[7..]);
      var rest := Chunks(cells[7..]);
      assert Chunks(cells) == [cells[..7]] + rest;
      assert Chunks(cells)[1..] == rest;
      assert cells == cells[..7] + cells[7..];
    }
  }

  /** Row `r` holds the cells `7 r` up to `7 r + 7` (or the end). */
  lemma {:induction false} ChunkContents(cells: seq<Cell>, r: int)
    requires 0 <= r < |Chunks(cells)|
    ensures 7 * r < |cells|
    ensures Chunks(cells)[r] == cells[7 * r..if 7 * r + 7 <= |cells| then 7 * r + 7 else |cells|]
    decreases |cells|
  {
    if r > 0 {
      assert |cells| > 7;
      var rest := cells[7..];
      assert Chunks(cells) == [cells[..7]] + Chunks(rest);
      assert Chunks(cells)[r] == Chunks(rest)[r - 1];
      ChunkContents(rest, r - 1);
      var lo := 7 * (r - 1);
      var hi := if lo + 7 <= |rest| then lo + 7 else |rest|;
      assert lo + 7 == 7 * r && hi + 7 == (if 7 * r + 7 <= |cells| then 7 * r + 7 else |cells|);
      forall i | 0 <= i < hi - lo ensures rest[lo..hi][i] == cells[lo + 7..hi + 7][i] {
      }
      assert rest[lo..hi] == cells[lo + 7..hi + 7];
    }
  }

  /** The rows, as the page's stride-seven loop slices them. */
  method BuildRows(cells: seq<Cell>) returns (rows: seq<seq<Cell>>)
    ensures rows == Chunks(cells)
  {
    rows := [];
    var i := 0;
    assert cells[0..] == cells;
    while i < |cells|
      invariant 0 <= i
      invariant i < |cells| ==> rows + Chunks(cells[i..]) == Chunks(cells)
      invariant i >= |cells| ==> rows == Chunks(cells)
      decreases |cells| - i
    {
      var end := if i + 7 <= |cells| then i + 7 else |cells|;
      ChunksFrom(cells, i);
      rows := rows + [cells[i..end]];
      i := i + 7;
    }
  }

  /** The chunks from cell `i` on: the next (up to) seven cells, then the
      chunks of the rest. */
  lemma ChunksFrom(cells: seq<Cell>, i: int)
    requires 0 <= i < |cells|
    ensures var end := if i + 7 <= |cells| then i + 7 else |cells|;
            Chunks(cells[i..]) == [cells[i..end]] + (if end < |cells| then Chunks(cells[end..]) else [])
  {
    var end := if i + 7 <= |cells| then i + 7 else |cells|;
    if end < |cells| {
      assert cells[i..][..7] == cells[i..end];
      assert cells[i..][7..] == cells[end..];
    } else {
      assert cells[i..end] == cells[i..];
    }
  }


  /** January 2024 starts on a Monday and has 31 days: one blank, then the
      days, in five rows of which the last holds four cells. */
  lemma January2024()
    ensures Weekday(Date(2024, 1, 1)) == 1 && DaysInMonth(2024, 1) == 31
    ensures |Chunks(Cells(1, 31))| == 5
    ensures |Chunks(Cells(1, 31))[4]| == 4
  {
    ChunksCount(Cells(1, 31));
    ChunkContents(Cells(1, 31), 4);
  }

  // ---------------------------------------------------------------------
  // The page
  // ---------------------------------------------------------------------

  /** What the month view shows, apart from its markup. */
  datatype MonthView = MonthView(
    year: int,
    monthIndex: int,
    daysInMonth: int,
    prevHref: string,
    nextHref: string,
    jamsByDate: map<int, seq<Jam>>,
    rows: seq<seq<Cell>>)

  /** What the view of month index `monthIndex` of `year` shows: the
      number of days, the links to the months before and after, a list of
      the jams of each day, and the weeks of the grid (blanks up to the
      weekday of the first, then the days). */
  ghost predicate ShowsMonth(view: MonthView, year: int, monthIndex: int, jams: seq<Jam>)
    requires 0 <= monthIndex <= 11
  {
    && view.year == year
    && view.monthIndex == monthIndex
    && view.daysInMonth == DaysInMonth(year, monthIndex + 1)
    && view.prevHref == MonthHref(PrevMonth(year, monthIndex))
    && view.nextHref == MonthHref(NextMonth(year, monthIndex))
    && (forall day :: day in view.jamsByDate <==> IsDayOf(day, view.daysInMonth))
    && (forall day :: IsDayOf(day, view.daysInMonth) ==>
          view.jamsByDate[day] == OnDay(jams, OnDayOf(year, monthIndex + 1), day))
    && view.rows == Chunks(Cells(Weekday(Date(year, monthIndex + 1, 1)), view.daysInMonth))
  }

  /** The view of a month, once it is chosen. */
  method MonthPage(jams: seq<Jam>, year: int, monthIndex: int) returns (view: MonthView)
    requires 0 <= monthIndex <= 11
    ensures ShowsMonth(view, year, monthIndex, jams)
  {
    var month := monthIndex + 1;
    var daysInMonth := DaysInMonth(year, month);
    var prevHref := MonthHref(PrevMonth(year, monthIndex));
    var nextHref := MonthHref(NextMonth(year, monthIndex));
    var byDate := JamsByDate(jams, daysInMonth, OnDayOf(year, month));
    var firstDay := Weekday(Date(year, month, 1));
    var cells := BuildCells(firstDay, daysInMonth);
    var rows := BuildRows(cells);
    view := MonthView(year, monthIndex, daysInMonth, prevHref, nextHref, byDate, rows);
  }

  /** The month view for `params`, given the active jams and the current
      year and month index: the month the URL asks for when it names one in
      range, else the current one. */
  method CalendarPage(params: SearchParams, jams: seq<Jam>, nowYear: int, nowMonthIndex: int)
    returns (view: MonthView)
    requires 0 <= nowMonthIndex <= 11
    ensures ShowsMonth(view, RequestedYear(params).GetOr(nowYear), RequestedMonthIndex(params).GetOr(nowMonthIndex), jams)
  {
    var year := ResolveYear(params, nowYear);
    var monthIndex := ResolveMonthIndex(params, nowMonthIndex);
    view := MonthPage(jams, year, monthIndex);
  }
}
