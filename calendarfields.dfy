/**
  The stored jam record as the calendar reads it, and the parsers for its
  scheduling fields (app/calendar/page.tsx).
*/
module CalendarFields {
  import opened Wrappers
  import opened Text
  import opened CivilDate
  import opened PageParams

  /** The fields of a stored jam that the calendar reads. */
  datatype Jam = Jam(
    id: int,
    event_name: Option<string>,
    start_time: Option<string>,
    day_of_week: Option<string>,    // "Sun", "Mon", ...
    start_date: Option<string>,     // "2025-11-20"
    end_date: Option<string>,
    frequency: Option<string>,      // "weekly", "one_off", "2nd_4th_monthly", ...
    weeks_of_month: Option<string>, // "2,4"
    is_festival: Option<bool>)

  /** The weekday keys, Sunday first, indexed by `getDay`. */
  const DAYS: seq<string> := ["Sun", "Mon", "Tue", "Wed", "Thu", "Fri", "Sat"]

  /** The key of the weekday `date` falls on. */
  function DayKey(date: Date): (key: string)
    requires 1 <= date.month <= 12
    ensures key in DAYS && |key| == 3
  {
    DAYS[Weekday(date)]
  }

  /** The keys of consecutive days follow `DAYS` round and round. */
  lemma DayKeyOfNextDay(date: Date)
    requires IsValid(date)
    ensures DayKey(NextDay(date)) == DAYS[(Weekday(date) + 1) % 7]
  {
    WeekdayOfNextDay(date);
  }

  /** One string from a page parameter: absent or `""` give nothing, a
      repeated key gives its first value. */
  function GetParam(params: SearchParams, key: string): (r: Option<string>)
    ensures key !in params ==> r == None
    ensures key in params && params[key].Str? ==>
              r == if params[key].s == "" then None else Some(params[key].s)
    ensures key in params && params[key].Arr? ==> r == Some(params[key].first)
  {
    if key !in params then None
    else match params[key]
      case Str(s) => if s == "" then None else Some(s)
      case Arr(first, _) => Some(first)
  }

  // ---------------------------------------------------------------------
  // Parsing the stored fields
  // ---------------------------------------------------------------------

  /** A stored date, "YYYY-MM-DD" naming a real calendar day; anything else
      (absent, empty, another shape, a day the month does not have) gives
      nothing. */
  function ParseDate(s: Option<string>): (r: Option<Date>)
    ensures r.Some? ==> IsValid(r.value) && 0 <= r.value.year <= 9999
    ensures s.None? ==> r.None?
  {
    if s.None? || |s.value| == 0 then None
    else
      var t := s.value;
      if |t| == 10 && t[4] == '-' && t[7] == '-' then
        match (DecimalValue(t, 0, 4), DecimalValue(t, 5, 7), DecimalValue(t, 8, 10))
        case (Some(year), Some(month), Some(day)) =>
          DecimalValueBound(t, 0, 4);
          assert Pow10(4) == 10000;
          var d := Date(year, month, day);
          if IsValid(d) then Some(d) else None
        case _ => None
      else None
  }

  /** How a date is stored: "YYYY-MM-DD". */
  function FormatDate(d: Date): (s: string)
    requires IsValid(d) && 0 <= d.year <= 9999
    ensures |s| == 10
  {
    Digits4(d.year) + "-" + Digits2(d.month) + "-" + Digits2(d.day)
  }

  /** Every storable date is read back as itself. */
  lemma ParseFormattedDate(d: Date)
    requires IsValid(d) && 0 <= d.year <= 9999
    ensures ParseDate(Some(FormatDate(d))) == Some(d)
  {
    var t := FormatDate(d);
    assert t[0..4] == Digits4(d.year);
    assert t[5..7] == Digits2(d.month);
    assert t[8..10] == Digits2(d.day);
    DecimalValueDigits(t, 0, 4);
    DecimalValueDigits(t, 5, 7);
    DecimalValueDigits(t, 8, 10);
  }

  /** The value one segment of `weeks_of_month` contributes: `parseInt` of
      the trimmed segment, kept only when it is a week number 1..5. */
  function WeekValue(segment: string): (r: Option<int>)
    ensures r.Some? ==> 1 <= r.value <= 5
  {
    var n := ParseIntPrefix(Trim(segment));
    if n.Some? && 1 <= n.value <= 5 then n else None
  }

  /** The present values of `xs`, in order. */
  function Present<T>(xs: seq<Option<T>>): (r: seq<T>)
    ensures |r| <= |xs|
    decreases |xs|
  {
    if |xs| == 0 then []
    else if xs[0].Some? then [xs[0].value] + Present(xs[1..])
    else Present(xs[1..])
  }

  /** A value is kept exactly when some entry holds it. */
  lemma {:induction false} PresentMembers<T>(xs: seq<Option<T>>, x: T)
    ensures x in Present(xs) <==> Some(x) in xs
    decreases |xs|
  {
    if |xs| > 0 {
      PresentMembers(xs[1..], x);
      assert xs == [xs[0]] + xs[1..];
    }
  }

  /** What each segment of `weeks_of_month` contributes, in order. */
  function WeekValues(segments: seq<string>): (r: seq<Option<int>>)
    ensures |r| == |segments|
    ensures forall i :: 0 <= i < |segments| ==> r[i] == WeekValue(segments[i])
  {
    seq(|segments|, i requires 0 <= i < |segments| => WeekValue(segments[i]))
  }

  /** `weeks_of_month` ("1,3", "2, 4") as the week numbers it lists, in
      order; absent or empty gives none. */
  function ParseWeeksOfMonth(weeks: Option<string>): (r: seq<int>)
    ensures forall x :: x in r ==> 1 <= x <= 5
    ensures weeks.None? || weeks == Some("") ==> r == []
  {
    if weeks.None? || weeks.value == "" then []
    else
      var values := WeekValues(Split(weeks.value, ','));
      var r := Present(values);
      forall x | x in r ensures 1 <= x <= 5 {
        PresentMembers(values, x);
      }
      r
  }

  /** A week number is listed exactly when some comma-separated segment of
      `weeks_of_month` reads as it. */
  lemma WeeksOfMonthMembers(weeks: string, n: int)
    requires weeks != ""
    ensures n in ParseWeeksOfMonth(Some(weeks)) <==> Some(n) in WeekValues(Split(weeks, ','))
  {
    PresentMembers(WeekValues(Split(weeks, ',')), n);
  }

  /** The week of the month a day falls in: days 1-7 are week 1, and so on. */
  function WeekOfMonth(date: Date): (w: int)
    requires IsValid(date)
    ensures 1 <= w <= 5
    ensures 7 * (w - 1) < date.day <= 7 * w
  {
    (date.day - 1) / 7 + 1
  }

}
