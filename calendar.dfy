/**
  The calendar's recurrence engine: given a stored jam record and a civil
  date, whether the jam happens on that date (`occursOnDate` of
  app/calendar/page.tsx).
*/
module Calendar {
  import opened Wrappers
  import opened Text
  import opened CivilDate
  import opened CalendarFields

  // ---------------------------------------------------------------------
  // The occurrence rule
  // ---------------------------------------------------------------------

  predicate IsSet(flag: Option<bool>) {
    flag == Some(true)
  }

  /** The frequency as the rule reads it: lower-cased, absent as "". */
  function Frequency(jam: Jam): string {
    ToLower(jam.frequency.GetOr(""))
  }

  /** The week rule a "...monthly" frequency implies by its prefix when no
      explicit weeks are stored; any other name means the first week. */
  predicate MonthlyByName(freq: string, weekOfMonth: int) {
    if StartsWith(freq, "1st") then weekOfMonth == 1
    else if StartsWith(freq, "2nd_4th") then weekOfMonth == 2 || weekOfMonth == 4
    else if StartsWith(freq, "2nd") then weekOfMonth == 2
    else if StartsWith(freq, "3rd") then weekOfMonth == 3
    else if StartsWith(freq, "4th") then weekOfMonth == 4
    else weekOfMonth == 1
  }

  /** The fields of a jam as the rule reads them: the frequency lower-cased,
      the bounds parsed, the festival flag as truthiness, the weeks parsed. */
  datatype Reading = Reading(
    freq: string,
    start: Option<Date>,
    end: Option<Date>,
    festival: bool,
    dayOfWeek: Option<string>,
    weeks: seq<int>)

  /** The parsed bounds are real days. */
  predicate WellRead(j: Reading) {
    (j.start.Some? ==> IsValid(j.start.value)) && (j.end.Some? ==> IsValid(j.end.value))
  }

  function Read(jam: Jam): (r: Reading)
    ensures WellRead(r)
    ensures r.freq == Frequency(jam)
    ensures r.start == ParseDate(jam.start_date) && r.end == ParseDate(jam.end_date)
    ensures forall x :: x in r.weeks ==> 1 <= x <= 5
  {
    Reading(Frequency(jam), ParseDate(jam.start_date), ParseDate(jam.end_date),
            IsSet(jam.is_festival), jam.day_of_week, ParseWeeksOfMonth(jam.weeks_of_month))
  }

  /** The rule itself, on the fields as read. */
  function Decide(j: Reading, date: Date): (r: bool)
    requires IsValid(date) && WellRead(j)
    ensures r && j.start.Some? ==> DayNumber(j.start.value) <= DayNumber(date)
    ensures r && j.end.Some? ==> DayNumber(date) <= DayNumber(j.end.value)
  {
    var dayKey := DayKey(date);
    if j.start.Some? && DayNumber(date) < DayNumber(j.start.value) then false
    else if j.end.Some? && DayNumber(date) > DayNumber(j.end.value) then false
    else if j.freq == "one_off" then
      if j.start.None? then false
      else if j.festival && j.end.Some? then
        DayNumber(j.start.value) <= DayNumber(date) <= DayNumber(j.end.value)
      else date == j.start.value
    else if j.festival && j.start.Some? && j.end.Some? then
      DayNumber(j.start.value) <= DayNumber(date) <= DayNumber(j.end.value)
    else if j.dayOfWeek.None? || j.dayOfWeek.value == "" || j.dayOfWeek.value != dayKey then
      false
    else FrequencyRule(j, date)
  }

  /** The frequency rules, for a date on the jam's weekday that the window,
      one-off and festival checks let through. */
  function FrequencyRule(j: Reading, date: Date): bool
    requires IsValid(date) && WellRead(j)
  {
    var weekOfMonth := WeekOfMonth(date);
    if j.freq == "biweekly" then
      if j.start.None? then true
      else
        var diffDays := DayNumber(date) - DayNumber(j.start.value);
        var diffWeeks := diffDays / 7;
        diffWeeks % 2 == 0
    else if Contains(j.freq, "monthly") then
      if |j.weeks| > 0 then weekOfMonth in j.weeks
      else MonthlyByName(j.freq, weekOfMonth)
    else if j.freq == "yearly" then
      if j.start.None? then false
      else date.month == j.start.value.month && date.day == j.start.value.day
    else true
  }

  /** Whether `jam` happens on `date`. */
  function OccursOnDate(jam: Jam, date: Date): (r: bool)
    requires IsValid(date)
    ensures r && ParseDate(jam.start_date).Some? ==> DayNumber(ParseDate(jam.start_date).value) <= DayNumber(date)
    ensures r && ParseDate(jam.end_date).Some? ==> DayNumber(date) <= DayNumber(ParseDate(jam.end_date).value)
  {
    Decide(Read(jam), date)
  }

  // ---------------------------------------------------------------------
  // The date window
  // ---------------------------------------------------------------------

  /** `date` lies inside the window the parseable bounds of `jam` set. */
  predicate InWindow(jam: Jam, date: Date) {
    && (ParseDate(jam.start_date).Some? ==> !Before(date, ParseDate(jam.start_date).value))
    && (ParseDate(jam.end_date).Some? ==> !Before(ParseDate(jam.end_date).value, date))
  }

  /** No jam occurs before its start date or after its end date, whatever
      its frequency. */
  lemma OccurrencesInsideWindow(jam: Jam, date: Date)
    requires IsValid(date) && OccursOnDate(jam, date)
    ensures InWindow(jam, date)
  {
    var start, end := ParseDate(jam.start_date), ParseDate(jam.end_date);
    if start.Some? {
      DayNumberOrder(date, start.value);
    }
    if end.Some? {
      DayNumberOrder(end.value, date);
    }
  }

  /** A bound that does not parse is the same as no bound. */
  lemma UnparseableBoundsIgnored(jam: Jam, date: Date)
    requires IsValid(date)
    ensures ParseDate(jam.start_date).None? ==>
              OccursOnDate(jam, date) == OccursOnDate(jam.(start_date := None), date)
    ensures ParseDate(jam.end_date).None? ==>
              OccursOnDate(jam, date) == OccursOnDate(jam.(end_date := None), date)
  {
    if ParseDate(jam.start_date).None? {
      assert Read(jam) == Read(jam.(start_date := None));
    }
    if ParseDate(jam.end_date).None? {
      assert Read(jam) == Read(jam.(end_date := None));
    }
  }

  // ---------------------------------------------------------------------
  // One-off events and festivals
  // ---------------------------------------------------------------------

  /** A one-off event without a readable start never happens. */
  lemma OneOffNeedsStart(jam: Jam, date: Date)
    requires IsValid(date)
    requires Frequency(jam) == "one_off" && ParseDate(jam.start_date).None?
    ensures !OccursOnDate(jam, date)
  {
  }

  /** A one-off event that is not a festival with an end date happens on its
      start day only, and not even then when the end date lies before it. */
  lemma OneOffSingleDay(jam: Jam, date: Date)
    requires IsValid(date)
    requires Frequency(jam) == "one_off" && ParseDate(jam.start_date).Some?
    requires !(IsSet(jam.is_festival) && ParseDate(jam.end_date).Some?)
    ensures OccursOnDate(jam, date) <==>
              date == ParseDate(jam.start_date).value
              && (ParseDate(jam.end_date).Some? ==> !Before(ParseDate(jam.end_date).value, date))
  {
    var start, end := ParseDate(jam.start_date), ParseDate(jam.end_date);
    DayNumberOrder(date, start.value);
    if end.Some? {
      DayNumberOrder(end.value, date);
    }
  }

  /** A festival with both dates runs on every day from start to end, one-off
      or not; its weekday plays no part. */
  lemma FestivalRange(jam: Jam, date: Date)
    requires IsValid(date)
    requires IsSet(jam.is_festival)
    requires ParseDate(jam.start_date).Some? && ParseDate(jam.end_date).Some?
    ensures OccursOnDate(jam, date) <==>
              !Before(date, ParseDate(jam.start_date).value)
              && !Before(ParseDate(jam.end_date).value, date)
  {
    DayNumberOrder(date, ParseDate(jam.start_date).value);
    DayNumberOrder(ParseDate(jam.end_date).value, date);
  }

  // ---------------------------------------------------------------------
  // Recurring events
  // ---------------------------------------------------------------------

  /** A jam the one-off and festival rules do not decide. */
  predicate Recurring(jam: Jam) {
    && Frequency(jam) != "one_off"
    && !(IsSet(jam.is_festival) && ParseDate(jam.start_date).Some? && ParseDate(jam.end_date).Some?)
  }

  /** A recurring jam happens only on days whose key is exactly its stored
      `day_of_week`. */
  lemma RecurringNeedsWeekday(jam: Jam, date: Date)
    requires IsValid(date) && Recurring(jam) && OccursOnDate(jam, date)
    ensures jam.day_of_week == Some(DayKey(date))
  {
  }

  /** There is no normalisation of the weekday: a recurring jam stored with
      "Thur" happens on no day at all. */
  lemma StoredThurNeverMatches(jam: Jam, date: Date)
    requires IsValid(date) && Recurring(jam) && jam.day_of_week == Some("Thur")
    ensures !OccursOnDate(jam, date)
  {
  }

  /** `date` gets past the window, one-off, festival and weekday checks:
      only the frequency rules are left to decide. */
  predicate ReachesFrequencyRules(jam: Jam, date: Date)
    requires IsValid(date)
  {
    InWindow(jam, date) && Recurring(jam) && jam.day_of_week == Some(DayKey(date))
  }

  /** When the window holds, `OccursOnDate` passes its first two checks. */
  lemma WindowChecks(jam: Jam, date: Date)
    requires IsValid(date) && InWindow(jam, date)
    ensures ParseDate(jam.start_date).Some? ==> DayNumber(ParseDate(jam.start_date).value) <= DayNumber(date)
    ensures ParseDate(jam.end_date).Some? ==> DayNumber(date) <= DayNumber(ParseDate(jam.end_date).value)
  {
    if ParseDate(jam.start_date).Some? {
      DayNumberOrder(date, ParseDate(jam.start_date).value);
    }
    if ParseDate(jam.end_date).Some? {
      DayNumberOrder(ParseDate(jam.end_date).value, date);
    }
  }

  /** Past those checks, the frequency rules alone decide. */
  lemma ReachedRules(jam: Jam, date: Date)
    requires IsValid(date) && ReachesFrequencyRules(jam, date)
    ensures OccursOnDate(jam, date) == FrequencyRule(Read(jam), date)
  {
    WindowChecks(jam, date);
  }

  /** Not starting with a string shorter than the other rules out containing it. */
  lemma {:induction false} NotContainsShort(s: string, t: string)
    requires |s| < |t|
    ensures !Contains(s, t)
  {
    if Contains(s, t) {
      var i := ContainsWitness(s, t);
    }
  }

  lemma BiweeklyNotMonthly()
    ensures !Contains("biweekly", "monthly")
  {
    assert "biweekly"[1..] == "iweekly" && "iweekly"[1..] == "weekly";
    DiffersAt("biweekly", "monthly", 0);
    DiffersAt("iweekly", "monthly", 0);
    NotContainsShort("weekly", "monthly");
  }

  /** Biweekly with no readable start: every matching weekday. */
  lemma BiweeklyWithoutStart(jam: Jam, date: Date)
    requires IsValid(date) && ReachesFrequencyRules(jam, date)
    requires Frequency(jam) == "biweekly" && ParseDate(jam.start_date).None?
    ensures OccursOnDate(jam, date)
  {
    ReachedRules(jam, date);
  }

  /** Biweekly with a start: a date a whole number `n` of weeks after the
      start (on the weekday it names) is an occurrence exactly when `n` is
      even; the start itself is one, a week later is not, two weeks later is. */
  lemma BiweeklyCadence(jam: Jam, date: Date, n: int)
    requires IsValid(date) && Recurring(jam)
    requires Frequency(jam) == "biweekly" && ParseDate(jam.start_date).Some?
    requires jam.day_of_week == Some(DayKey(ParseDate(jam.start_date).value))
    requires n >= 0 && DayNumber(date) == DayNumber(ParseDate(jam.start_date).value) + 7 * n
    requires ParseDate(jam.end_date).Some? ==> !Before(ParseDate(jam.end_date).value, date)
    ensures OccursOnDate(jam, date) <==> n % 2 == 0
  {
    var start := ParseDate(jam.start_date).value;
    WeekdayPeriodic(start, date, n);
    assert DayKey(date) == DayKey(start);
    DayNumberOrder(date, start);
    assert InWindow(jam, date);
    ReachedRules(jam, date);
    var j := Read(jam);
    assert j.start == Some(start) && j.freq == "biweekly";
    assert FrequencyRule(j, date) == (((DayNumber(date) - DayNumber(start)) / 7) % 2 == 0);
    WholeWeeks(DayNumber(start), DayNumber(date), n);
  }

  lemma WholeWeeks(a: int, b: int, n: int)
    requires b == a + 7 * n
    ensures (b - a) / 7 == n
  {
  }

  /** For a "...monthly" frequency, a non-empty `weeks_of_month` alone decides. */
  lemma WeeksListDecides(jam: Jam, date: Date)
    requires IsValid(date) && ReachesFrequencyRules(jam, date)
    requires Contains(Frequency(jam), "monthly") && |ParseWeeksOfMonth(jam.weeks_of_month)| > 0
    ensures OccursOnDate(jam, date) <==> WeekOfMonth(date) in ParseWeeksOfMonth(jam.weeks_of_month)
  {
    ReachedRules(jam, date);
    BiweeklyNotMonthly();
  }

  /** Without explicit weeks, the name of a "...monthly" frequency decides. */
  lemma MonthlyByNameDecides(jam: Jam, date: Date)
    requires IsValid(date) && ReachesFrequencyRules(jam, date)
    requires Contains(Frequency(jam), "monthly") && ParseWeeksOfMonth(jam.weeks_of_month) == []
    ensures OccursOnDate(jam, date) <==> MonthlyByName(Frequency(jam), WeekOfMonth(date))
  {
    ReachedRules(jam, date);
    BiweeklyNotMonthly();
  }

  /** A string that differs from `prefix` at some position of both does
      not start with it. */
  lemma DiffersAt(s: string, prefix: string, i: nat)
    requires i < |s| && i < |prefix| && s[i] != prefix[i]
    ensures !StartsWith(s, prefix)
  {
  }

  /** The week rules the stored monthly names imply; plain "monthly" and
      the stored "1nd_3th_monthly" both mean the first week only. */
  lemma MonthlyNames(w: int)
    ensures MonthlyByName("1st_monthly", w) <==> w == 1
    ensures MonthlyByName("2nd_monthly", w) <==> w == 2
    ensures MonthlyByName("3rd_monthly", w) <==> w == 3
    ensures MonthlyByName("4th_monthly", w) <==> w == 4
    ensures MonthlyByName("2nd_4th_monthly", w) <==> w == 2 || w == 4
    ensures MonthlyByName("monthly", w) <==> w == 1
    ensures MonthlyByName("1nd_3th_monthly", w) <==> w == 1
  {
    MonthlyFirst(w);
    MonthlySecond(w);
    MonthlyThird(w);
    MonthlyFourth(w);
    MonthlySecondFourth(w);
    MonthlyPlain(w);
    MonthlyMisspelt(w);
  }

  lemma MonthlyFirst(w: int)
    ensures MonthlyByName("1st_monthly", w) <==> w == 1
  {
  }

  lemma MonthlySecond(w: int)
    ensures MonthlyByName("2nd_monthly", w) <==> w == 2
  {
    DiffersAt("2nd_monthly", "1st", 0);
    DiffersAt("2nd_monthly", "2nd_4th", 4);
  }

  lemma MonthlyThird(w: int)
    ensures MonthlyByName("3rd_monthly", w) <==> w == 3
  {
    DiffersAt("3rd_monthly", "1st", 0);
    DiffersAt("3rd_monthly", "2nd_4th", 0);
    DiffersAt("3rd_monthly", "2nd", 0);
  }

  lemma MonthlyFourth(w: int)
    ensures MonthlyByName("4th_monthly", w) <==> w == 4
  {
    DiffersAt("4th_monthly", "1st", 0);
    DiffersAt("4th_monthly", "2nd_4th", 0);
    DiffersAt("4th_monthly", "2nd", 0);
    DiffersAt("4th_monthly", "3rd", 0);
  }

  lemma MonthlySecondFourth(w: int)
    ensures MonthlyByName("2nd_4th_monthly", w) <==> w == 2 || w == 4
  {
    DiffersAt("2nd_4th_monthly", "1st", 0);
  }

  lemma MonthlyPlain(w: int)
    ensures MonthlyByName("monthly", w) <==> w == 1
  {
    DiffersAt("monthly", "1st", 0);
    DiffersAt("monthly", "2nd_4th", 0);
    DiffersAt("monthly", "2nd", 0);
    DiffersAt("monthly", "3rd", 0);
    DiffersAt("monthly", "4th", 0);
  }

  lemma MonthlyMisspelt(w: int)
    ensures MonthlyByName("1nd_3th_monthly", w) <==> w == 1
  {
    DiffersAt("1nd_3th_monthly", "1st", 1);
    DiffersAt("1nd_3th_monthly", "2nd_4th", 0);
    DiffersAt("1nd_3th_monthly", "2nd", 0);
    DiffersAt("1nd_3th_monthly", "3rd", 0);
    DiffersAt("1nd_3th_monthly", "4th", 0);
  }


  /** Yearly: the start's month and day, in every year of the window. */
  lemma Yearly(jam: Jam, date: Date)
    requires IsValid(date) && ReachesFrequencyRules(jam, date)
    requires Frequency(jam) == "yearly"
    ensures OccursOnDate(jam, date) <==>
              ParseDate(jam.start_date).Some?
              && date.month == ParseDate(jam.start_date).value.month
              && date.day == ParseDate(jam.start_date).value.day
  {
    ReachedRules(jam, date);
    NotContainsShort("yearly", "monthly");
  }

  /** Any other frequency ("weekly", "daily", empty, unknown) happens on
      every day of its weekday in the window. */
  lemma DefaultWeekly(jam: Jam, date: Date)
    requires IsValid(date) && ReachesFrequencyRules(jam, date)
    requires Frequency(jam) != "biweekly" && Frequency(jam) != "yearly"
    requires !Contains(Frequency(jam), "monthly")
    ensures OccursOnDate(jam, date)
  {
    ReachedRules(jam, date);
  }

  /** The frequency is read without regard to letter case. */
  lemma FrequencyIgnoresCase(jam: Jam, date: Date)
    requires IsValid(date) && jam.frequency.Some?
    ensures OccursOnDate(jam, date) == OccursOnDate(jam.(frequency := Some(ToLower(jam.frequency.value))), date)
  {
    ToLowerIdempotent(jam.frequency.value);
    assert Read(jam.(frequency := Some(ToLower(jam.frequency.value)))) == Read(jam);
  }

  // ---------------------------------------------------------------------
  // A worked example
  // ---------------------------------------------------------------------

  /** A "2nd_4th_monthly" Friday jam with no stored weeks and no dates. */
  const SECOND_FOURTH_FRIDAYS := Jam(0, None, None, Some("Fri"), None, None, Some("2nd_4th_monthly"), None, None)

  /** In November 2025 (Fridays on the 7th, 14th, 21st and 28th) that jam
      happens on the 14th and the 28th only. */
  lemma SecondAndFourthFridays(day: int)
    requires 1 <= day <= 30
    ensures OccursOnDate(SECOND_FOURTH_FRIDAYS, Date(2025, 11, day)) <==> day == 14 || day == 28
  {
    NovemberFridays(day);
    if DayKey(Date(2025, 11, day)) == "Fri" {
      SecondFourthOnFriday(day);
    } else {
      SecondFourthOffFriday(Date(2025, 11, day));
    }
  }

  lemma SecondFourthOffFriday(date: Date)
    requires IsValid(date) && DayKey(date) != "Fri"
    ensures !OccursOnDate(SECOND_FOURTH_FRIDAYS, date)
  {
    SecondFourthFridaysReading();
    if OccursOnDate(SECOND_FOURTH_FRIDAYS, date) {
      RecurringNeedsWeekday(SECOND_FOURTH_FRIDAYS, date);
    }
  }

  lemma SecondFourthOnFriday(day: int)
    requires 1 <= day <= 30 && day % 7 == 0
    requires DayKey(Date(2025, 11, day)) == "Fri"
    ensures OccursOnDate(SECOND_FOURTH_FRIDAYS, Date(2025, 11, day)) <==> day == 14 || day == 28
  {
    var date := Date(2025, 11, day);
    SecondFourthFridaysReading();
    assert InWindow(SECOND_FOURTH_FRIDAYS, date);
    assert ParseWeeksOfMonth(SECOND_FOURTH_FRIDAYS.weeks_of_month) == [];
    MonthlyByNameDecides(SECOND_FOURTH_FRIDAYS, date);
    MonthlyNames(WeekOfMonth(date));
    SecondAndFourthWeeks(day);
  }

  lemma SecondFourthFridaysReading()
    ensures Frequency(SECOND_FOURTH_FRIDAYS) == "2nd_4th_monthly"
    ensures Contains(Frequency(SECOND_FOURTH_FRIDAYS), "monthly")
    ensures Recurring(SECOND_FOURTH_FRIDAYS)
  {
    var jam := SECOND_FOURTH_FRIDAYS;
    assert jam.frequency == Some("2nd_4th_monthly");
    LowerSecondFourth();
    assert Frequency(jam) == "2nd_4th_monthly";
    ContainsAt("2nd_4th_monthly", "monthly", 8);
    assert ParseDate(jam.start_date) == None;
  }

  lemma LowerSecondFourth()
    ensures ToLower("2nd_4th_monthly") == "2nd_4th_monthly"
  {
    ToLowerNoCapitals("2nd_4th_monthly");
  }

  lemma SecondAndFourthWeeks(day: int)
    requires 1 <= day <= 30
    ensures day % 7 == 0 && ((day - 1) / 7 + 1 == 2 || (day - 1) / 7 + 1 == 4) <==> day == 14 || day == 28
  {
    if day % 7 == 0 {
      var q := day / 7;
      assert day == 7 * q;
      assert (day - 1) / 7 == q - 1;
    }
  }

  /** The Fridays of November 2025 are the multiples of seven. */
  lemma NovemberFridays(day: int)
    requires 1 <= day <= 30
    ensures DayKey(Date(2025, 11, day)) == "Fri" <==> day % 7 == 0
  {
    var date := Date(2025, 11, day);
    assert DayNumber(date) == 20393 + day - 1;
    var k := (day + 5) % 7;
    assert Weekday(date) == k;
  }
}
