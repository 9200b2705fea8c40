# JamGuide core in Dafny

JamGuide is a directory of music jams around the San Francisco Bay Area. Visitors can list jams filtered by region, day, time, genre, skill and more, see them on a month calendar, and submit new ones through a form. This project models the logic behind those pages and proves properties about it.

- **The calendar recurrence engine** (`app/calendar/page.tsx`). `occursOnDate` decides whether a stored jam falls on a given date. It checks the date window, one-off and festival dates, the exact weekday, the biweekly phase, the monthly week rules, yearly dates and the weekly default. Around it sits the month page: picking the month from the URL, the links to the previous and next month, the jams of each day, and the grid of week rows.
  - Dates are proleptic Gregorian civil dates `(year, month, day)`.
  - Each date has an exact day number, which gives the weekday, the order of dates and the day difference (module `CivilDate`).
- **The submission form** (`app/submit/page.tsx`):
  - `nullIfEmpty`;
  - the time normaliser `parseTimeToDb`, which reads 24-hour and 12-hour input and writes `HH:MM:SS`;
  - the checks `handleSubmit` makes and the record it sends.

  The page state is a class, `SubmitForm.SubmitJamPage`.
- **The filter options** (`lib/filterConfig.ts`):
  - the option tables;
  - `parseListParam`;
  - `dbValuesForSelected`, a method whose loops are proved against a specification function.
- **The home page's query** (`app/page.tsx`). A chain of conditional narrowings adds one constraint per filter axis that has something selected. It is modelled as a method that reassigns the query, proved against the chain of builder calls it describes.
- **The two filter components**:
  - `app/RegionFilter.tsx`: `parseList`, `normalizeBasePath`, `buildPath`, the list and flag toggles, and the reset path.
  - `app/FiltersPanel.tsx`: `toggleInList` and `applyFilters`.

  Both work on a `URLSearchParams` object. The model treats it as an ordered list of name–value pairs with the standard `get`/`set`/`delete` behaviour (module `UrlParams`, class `UrlSearchParams`).
- **The notable-jam test** `isNotable` (`lib/jamUtils.ts`).

The URL parameters of a server page form a map from key to value. A value is either a string or the non-empty array of values of a repeated key (`PageParams`).

Where the code departs from its own comments or from what a reader might expect, the model follows the code:
- A stored weekday `"Thur"` never equals the calendar's key `"Thu"`, so a recurring jam stored that way never appears on the calendar (`Calendar.StoredThurNeverMatches`).
- The last row of the grid is not padded. It may hold fewer than seven cells.
- The frequency `"1nd_3th_monthly"`, which the Biweekly filter option stands for, is placed by the calendar in the first week of the month only (`Calendar.MonthlyMisspelt`).
- A 12-hour time `"13 am"` is accepted as `13:00:00`, and `"13 pm"` is rejected.
- `applyFilters` in `app/FiltersPanel.tsx` writes the skill selection under the key `skill`, but the home page reads `skills`. The model keeps both keys as written (`FiltersPanel.AppliedKeys`, `Home.SKILLS_AXIS`).

## Model

| member | source | states |
|---|---|---|
| CalendarFields.DayKey | app/calendar/page.tsx:40-43 | the day key of a date is one of the seven three-letter keys of `DAYS`, chosen by its weekday (Sunday first) |
| CalendarFields.DayKeyOfNextDay | app/calendar/page.tsx:40-43 | the key of the next day is the next key of `DAYS`, wrapping from Saturday to Sunday |
| Home.PagesReadParamsAlike | app/calendar/page.tsx:46-50 | the calendar's `getParam` and the home page's readers (app/page.tsx:7-14, 27-30) treat a parameter alike: nothing for a missing key or a lone empty string, the first value of a repeated key; so the home page's list is the comma list of the string the calendar reads, and a flag is on exactly when the calendar would read "1" |
| CalendarFields.ParseDate | app/calendar/page.tsx:53-58 | a parsed date is a real calendar day; a missing date string parses to nothing |
| CalendarFields.ParseFormattedDate | app/calendar/page.tsx:53-58 | every real date with a four-digit year, written `YYYY-MM-DD`, parses back to itself |
| CalendarFields.WeekValue | app/calendar/page.tsx:65-66 | one segment of `weeks_of_month` yields a week only when its `parseInt` value lies in 1..5 |
| CalendarFields.PresentMembers | app/calendar/page.tsx:66 | dropping the NaN entries keeps exactly the numbers the list holds |
| CalendarFields.ParseWeeksOfMonth | app/calendar/page.tsx:61-67 | every week kept lies in 1..5; a missing or empty field gives no weeks |
| CalendarFields.WeeksOfMonthMembers | app/calendar/page.tsx:61-67 | a week is in the list exactly when some comma segment reads as that week |
| CalendarFields.WeekOfMonth | app/calendar/page.tsx:103 | the week of the month lies in 1..5 and is the seven-day block holding the day |
| Calendar.Read | app/calendar/page.tsx:71-74 | the frequency read case-blind, the start and end dates as `parseDate` reads them (each a real calendar day or nothing), and week numbers only in 1..5 |
| Calendar.Frequency | app/calendar/page.tsx:71 | no contract of its own; `Calendar.FrequencyIgnoresCase` states that the letter case of the stored frequency never matters |
| Calendar.FrequencyRule | app/calendar/page.tsx:99-146 | no contract of its own; `Calendar.ReachedRules` states that it decides every date that passes the window and one-off checks; the rule lemmas below state each branch |
| Calendar.MonthlyByName | app/calendar/page.tsx:125-132 | no contract of its own; `Calendar.MonthlyNames` and the `Calendar.Monthly…` lemmas state which week of the month each name matches |
| Calendar.Decide | app/calendar/page.tsx:77-146 | a date the rules accept is never before the start or after the end |
| Calendar.OccursOnDate | app/calendar/page.tsx:69-147 | no jam occurs before its parsed start or after its parsed end, whatever its frequency |
| Calendar.OccurrencesInsideWindow | app/calendar/page.tsx:77-78 | an occurrence lies inside the window of the bounds that parse |
| Calendar.WindowChecks | app/calendar/page.tsx:77-78 | inside the window means on or after the start and on or before the end by day number |
| Calendar.UnparseableBoundsIgnored | app/calendar/page.tsx:73-78 | a start or end date that does not parse changes nothing: the jam behaves as if it had none |
| Calendar.OneOffNeedsStart | app/calendar/page.tsx:81-82 | a one-off with no parseable start never occurs |
| Calendar.OneOffSingleDay | app/calendar/page.tsx:81-91 | a one-off, unless it is a festival with an end, occurs exactly on its start day (when that is not after its end) |
| Calendar.FestivalRange | app/calendar/page.tsx:85-96 | a festival with a start and an end occurs exactly on the days from start to end, whatever its weekday or frequency |
| Calendar.RecurringNeedsWeekday | app/calendar/page.tsx:99-101 | every other jam occurs only on dates whose key equals its `day_of_week` exactly |
| Calendar.StoredThurNeverMatches | app/calendar/page.tsx:99-101 | a recurring jam stored with `day_of_week` "Thur" never occurs |
| Calendar.ReachedRules | app/calendar/page.tsx:99-146 | once window, one-off, festival and weekday checks are passed, the frequency rule alone decides |
| Calendar.BiweeklyWithoutStart | app/calendar/page.tsx:108-111 | a biweekly jam with no start occurs on every date with its weekday |
| Calendar.BiweeklyCadence | app/calendar/page.tsx:107-116 | a biweekly jam occurs `n` whole weeks after its start exactly when `n` is even |
| Calendar.WeeksListDecides | app/calendar/page.tsx:119-123 | for a monthly frequency, a non-empty weeks list alone decides: the date occurs iff its week of the month is listed |
| Calendar.MonthlyByNameDecides | app/calendar/page.tsx:119-133 | with no weeks list, a monthly jam follows the rules by frequency name |
| Calendar.MonthlyNames | app/calendar/page.tsx:125-132 | 1st→week 1, 2nd→2, 3rd→3, 4th→4, 2nd_4th→2 or 4; plain "monthly" and "1nd_3th_monthly" fall back to week 1 |
| Calendar.MonthlyFirst | app/calendar/page.tsx:125 | "1st_monthly" is week 1 only |
| Calendar.MonthlySecond | app/calendar/page.tsx:127 | "2nd_monthly" is week 2 only |
| Calendar.MonthlyThird | app/calendar/page.tsx:128 | "3rd_monthly" is week 3 only |
| Calendar.MonthlyFourth | app/calendar/page.tsx:129 | "4th_monthly" is week 4 only |
| Calendar.MonthlySecondFourth | app/calendar/page.tsx:126 | "2nd_4th_monthly" is weeks 2 and 4, tested before "2nd" |
| Calendar.MonthlyPlain | app/calendar/page.tsx:132 | plain "monthly" falls back to week 1 |
| Calendar.MonthlyMisspelt | app/calendar/page.tsx:132 | "1nd_3th_monthly" matches no prefix rule and falls back to week 1 |
| Calendar.Yearly | app/calendar/page.tsx:136-142 | a yearly jam needs a start and occurs exactly on the start's month and day |
| Calendar.DefaultWeekly | app/calendar/page.tsx:144-146 | any other frequency occurs on every date with the matching weekday |
| Calendar.FrequencyIgnoresCase | app/calendar/page.tsx:71 | the frequency is read without regard to letter case |
| Calendar.SecondFourthFridaysReading | app/calendar/page.tsx:71 | the example jam reads as a recurring "2nd_4th_monthly" jam |
| Calendar.SecondAndFourthFridays | app/calendar/page.tsx:119-133 | a 2nd-and-4th-Friday jam occurs in November 2025 on the 14th and 28th only |
| Calendar.SecondFourthOffFriday | app/calendar/page.tsx:99-101 | that jam never occurs on a day other than Friday |
| Calendar.SecondFourthOnFriday | app/calendar/page.tsx:126 | on the Fridays of November 2025 it occurs on the 14th and 28th only |
| Calendar.NovemberFridays | app/calendar/page.tsx:40-43 | the Fridays of November 2025 are the days divisible by seven |
| CalendarGrid.NumberParam | app/calendar/page.tsx:165-166 | a parameter that is missing stays missing before `Number` reads it |
| CalendarGrid.RequestedYear | app/calendar/page.tsx:165-170 | a year taken from the URL lies in 1970..2100 |
| CalendarGrid.RequestedMonthIndex | app/calendar/page.tsx:166-173 | a month index taken from the URL lies in 0..11 |
| CalendarGrid.ResolveYear | app/calendar/page.tsx:165-170 | the year is the requested one when it is a number in 1970..2100, else the current year |
| CalendarGrid.ResolveMonthIndex | app/calendar/page.tsx:166-173 | the month index is the requested month minus one when the month is in 1..12, else the current one |
| CalendarGrid.YearParamReads | app/calendar/page.tsx:165-170 | a decimal year parameter is taken exactly when it is in 1970..2100 |
| CalendarGrid.MonthParamReads | app/calendar/page.tsx:166-173 | a decimal month parameter `m` gives index `m - 1` exactly when `m` is in 1..12 |
| CalendarGrid.NotANumberIgnored | app/calendar/page.tsx:168-173 | a year or month that is not a number falls back |
| CalendarGrid.PrevMonth | app/calendar/page.tsx:184-188 | the previous month is a month number in 1..12 |
| CalendarGrid.NextMonth | app/calendar/page.tsx:185-191 | the next month is a month number in 1..12 |
| CalendarGrid.PrevMonthAdjoins | app/calendar/page.tsx:184-188 | the previous month ends the day before the shown month begins; January's is December of the year before |
| CalendarGrid.NextMonthAdjoins | app/calendar/page.tsx:185-191 | the next month begins the day after the shown month ends; December's is January of the year after |
| CalendarGrid.PrevNextRoundTrip | app/calendar/page.tsx:184-191 | the next month of the previous month, and the previous of the next, is the shown month |
| CalendarGrid.MonthHref | app/calendar/page.tsx:247 | a month link goes to the calendar with a `year` parameter |
| CalendarGrid.OccurringOn | app/calendar/page.tsx:212-214 | no contract of its own; `CalendarGrid.OccurringOnMembers` states that it keeps exactly the jams that occur on the date |
| CalendarGrid.OnDay | app/calendar/page.tsx:211-217 | no contract of its own; `CalendarGrid.OnDayExtend` states how one more jam extends a day's list and `CalendarGrid.OnDayOfDate` that the day's list is `OccurringOn` of that date |
| CalendarGrid.OccurringOnMembers | app/calendar/page.tsx:211-217 | a jam is listed on a date exactly when it is one of the jams and occurs on that date |
| CalendarGrid.OnDayExtend | app/calendar/page.tsx:211-217 | each further jam is appended to a day's list when it occurs on that day |
| CalendarGrid.OnDayOfDate | app/calendar/page.tsx:212-214 | a day's list in the month is the list of jams occurring on that date, in input order |
| CalendarGrid.AddToDays | app/calendar/page.tsx:211-217 | one pass over the days adds one jam to the lists of the days it occurs on |
| CalendarGrid.JamsByDate | app/calendar/page.tsx:206-218 | every day 1..N has a list, and no other key does; each holds exactly the jams occurring on it, in input order |
| CalendarGrid.Cells | app/calendar/page.tsx:221-232 | the grid holds the blanks before the first plus one cell per day |
| CalendarGrid.BuildCells | app/calendar/page.tsx:221-232 | the loops build the blanks, then days 1..N |
| CalendarGrid.CellsPlaceDays | app/calendar/page.tsx:224-232 | cell `i` is blank before the first day's weekday and day `i - firstDay + 1` after it |
| CalendarGrid.DaysLineUpWithWeekdays | app/calendar/page.tsx:224-232 | every day sits in the column of its own weekday |
| CalendarGrid.Chunks | app/calendar/page.tsx:235-238 | no contract of its own; `CalendarGrid.ChunksCount`, `CalendarGrid.ChunksShape` and `CalendarGrid.ChunkContents` state the number of rows, their sizes and their cells |
| CalendarGrid.ChunksCount | app/calendar/page.tsx:235-238 | there are ⌈cells/7⌉ rows |
| CalendarGrid.ChunksShape | app/calendar/page.tsx:235-238 | the rows, joined, are the cells; every row holds 1..7 cells and all but the last exactly 7 |
| CalendarGrid.ChunkContents | app/calendar/page.tsx:236-237 | row `r` is the slice of cells from `7r` to `7r + 7`, cut at the end |
| CalendarGrid.ChunksFrom | app/calendar/page.tsx:236-237 | the rows from a cell on are its slice of seven, then the rows after it |
| CalendarGrid.BuildRows | app/calendar/page.tsx:235-238 | the stride-7 loop builds exactly those rows |
| CalendarGrid.January2024 | app/calendar/page.tsx:221-238 | January 2024 starts on Monday and fills five rows, the last holding four days |
| CalendarGrid.MonthPage | app/calendar/page.tsx:175-238 | the view of a month: its days, both links, the jams of each day and the rows of the grid |
| CalendarGrid.CalendarPage | app/calendar/page.tsx:160-238 | the view is of the month the URL asks for when it is valid, else of the current month |
| CivilDate.IsLeapYear | app/calendar/page.tsx:176 | no contract of its own; `CivilDate.DaysInMonth` states that February has 29 days exactly in leap years |
| CivilDate.IsValid | app/calendar/page.tsx:53-58 | no contract of its own; the dates `CalendarFields.ParseDate` returns and `CivilDate.NextDay` keeps: a month 1..12 and a day the month has |
| CivilDate.DayNumber | app/calendar/page.tsx:112-114 | no contract of its own; `CivilDate.NextDayNumber` states that consecutive days have consecutive numbers and `CivilDate.DayNumberOrder` that the numbers order the dates |
| CivilDate.DaysInMonth | app/calendar/page.tsx:176 | a month has 28..31 days, 29 only for February of a leap year |
| CivilDate.Weekday | app/calendar/page.tsx:224 | the weekday of a date, 0 for Sunday to 6 for Saturday |
| CivilDate.NextDay | app/calendar/page.tsx:212-213 | the next day is a real date after the given one |
| CivilDate.NextDayNumber | app/calendar/page.tsx:112-114 | the next day's number is one more |
| CivilDate.DayNumberOrder | app/calendar/page.tsx:77-78 | comparing day numbers is comparing dates, and equal numbers are the same date |
| CivilDate.WeekdayOfNextDay | app/calendar/page.tsx:41 | the next day's weekday is one more, modulo 7 |
| CivilDate.WeekdayPeriodic | app/calendar/page.tsx:112-115 | dates a whole number of weeks apart share their weekday |
| CivilDate.FirstOfNextMonth | app/calendar/page.tsx:176 | the next month begins `DaysInMonth` days after this one |
| CivilDate.YearLength | app/calendar/page.tsx:176 | a year holds 365 days, or 366 in a leap year |
| CivilDate.DayOfYearBounds | app/calendar/page.tsx:175-176 | every day of a year lies between its New Year and the next |
| FilterConfig.CommaList | lib/filterConfig.ts:115-118 | no element is empty or has surrounding whitespace |
| FilterConfig.CommaListMembers | lib/filterConfig.ts:115-118 | an element is kept exactly when it is non-empty and is the trim of some comma segment |
| FilterConfig.ListItemsKept | lib/filterConfig.ts:117-118 | items that are non-empty and trimmed pass through trimming and filtering unchanged |
| FilterConfig.CommaListOfJoin | lib/filterConfig.ts:115-118 | comma-joining non-empty, trimmed, comma-free items and splitting again gives them back |
| FilterConfig.ParseListParam | lib/filterConfig.ts:110-119 | a missing or empty parameter gives `[]`; of an array only the first value is read; no element is empty or untrimmed (the home page's copy, app/page.tsx:7-14, is the same code) |
| FilterConfig.SelectedValues | lib/filterConfig.ts:101-104 | no contract of its own; `FilterConfig.SelectedMembers` states which values it holds and `FilterConfig.SelectionOrderIrrelevant` that the order of the slugs does not matter once duplicates are dropped |
| FilterConfig.Distinct | lib/filterConfig.ts:100-106 | no contract of its own; `FilterConfig.DistinctMembers`, `FilterConfig.DistinctNoDuplicates` and `FilterConfig.DistinctSnoc` state that it keeps each value once, first occurrence first |
| FilterConfig.DbValuesForSelected | lib/filterConfig.ts:96-107 | the loops yield the selected options' values, in option order and then value order, each once |
| FilterConfig.DistinctSnoc | lib/filterConfig.ts:103 | adding a value to the set appends it only if it is new |
| FilterConfig.DistinctMembers | lib/filterConfig.ts:100-106 | the set holds exactly the values added |
| FilterConfig.DistinctNoDuplicates | lib/filterConfig.ts:100-106 | the result has no duplicates |
| FilterConfig.SelectedMembers | lib/filterConfig.ts:101-104 | a value is in the result iff some option whose slug is selected lists it |
| FilterConfig.SelectionAgrees | lib/filterConfig.ts:101-102 | only whether each option's slug is selected matters |
| FilterConfig.SelectionOrderIrrelevant | lib/filterConfig.ts:101-106 | the order and repetition of the selected slugs do not change the result |
| FilterConfig.UnknownSlugIgnored | lib/filterConfig.ts:102 | a slug no option has is ignored |
| FilterConfig.NothingSelected | lib/filterConfig.ts:102 | an empty selection gives an empty result |
| FilterConfig.SkillBuckets | lib/filterConfig.ts:47-68 | "mixed" with "beginner_friendly" gives the five values of both buckets, the shared one once |
| FilterConfig.SkillBucketValues | lib/filterConfig.ts:47-68 | those two buckets list six values, in option order, one of them twice |
| FilterConfig.SkillBucketSet | lib/filterConfig.ts:100-106 | the set keeps the first occurrence of the repeated value |
| Home.IsOn | app/page.tsx:27-30 | no contract of its own; `Home.FlagAxisApplied` states that a flag's constraint is in the query exactly when it holds, and `Home.PagesReadParamsAlike` that it holds exactly when the parameter reads as "1" (also app/page.tsx:44-46) |
| Home.AxisFilter | app/page.tsx:56-110 | no contract of its own; `Home.ListAxisFilter` and `Home.FlagAxisFilter` state what one axis adds |
| Home.Filters | app/page.tsx:56-110 | no contract of its own; `Home.FiltersMembers` states that a constraint is there exactly when some axis adds it |
| Home.Narrow | app/page.tsx:56-110 | no contract of its own; `Home.NarrowAllConstraints` states the constraints that narrowing by axes adds |
| Home.NarrowAll | app/page.tsx:52-110 | no contract of its own; `Home.NarrowAllAppend` states that narrowing by two runs of axes is narrowing by one then the other, and `Home.NarrowAllConstraints` what it adds |
| Home.JamsQuery | app/page.tsx:52-112 | no contract of its own; `Home.JamsQueryConstraints` states that its constraints are the active-status test and then each axis's filters, and `Home.BuildQuery` that the step-by-step method builds it |
| Home.NarrowAllAppend | app/page.tsx:52-110 | narrowing by two runs of axes is narrowing by the first run and then by the second |
| Home.NarrowByLocation | app/page.tsx:56-70 | the region, city, greater-region and house-jam steps narrow the query by those axes in order |
| Home.NarrowBySchedule | app/page.tsx:72-78 | the day and time steps narrow the query by those axes |
| Home.NarrowByStyle | app/page.tsx:80-86 | the genre and skill steps narrow the query by those axes |
| Home.NarrowByAccess | app/page.tsx:88-102 | the invite, crowd, cover and dancing steps narrow the query by those axes |
| Home.NarrowByEvent | app/page.tsx:104-110 | the kind and frequency steps narrow the query by those axes |
| Home.BuildQuery | app/page.tsx:52-112 | the query is the active jams narrowed by every axis in order; its constraints are `status = active` then each axis's filter |
| Home.NarrowAllConstraints | app/page.tsx:52-110 | narrowing appends exactly the axes' filters to the constraints |
| Home.FiltersMembers | app/page.tsx:56-110 | a constraint is applied iff some axis adds it |
| Home.ColumnsDiffer | app/page.tsx:56-110 | no two axes constrain the same column |
| Home.ColumnsDistinct | app/page.tsx:56-110 | the axes' columns are pairwise distinct |
| Home.ListAxisFilter | app/page.tsx:56-110 | a list axis adds `in(column, values)` iff `values` is its parsed list and is not empty |
| Home.FlagAxisFilter | app/page.tsx:68-70 | a flag axis adds `eq(column, true)` iff its flag is on |
| Home.JamsQueryConstraints | app/page.tsx:52-110 | the home query carries `status = active` followed by the axes' filters |
| Home.ListAxisApplied | app/page.tsx:56-110 | each list key constrains its own column with its parsed list, only when that list is not empty |
| Home.FlagAxisApplied | app/page.tsx:27-46 | `is_house_jam` and `dancing` constrain their column iff the value is "1" or an array starting with "1" |
| Home.NoFilters | app/page.tsx:56-110 | axes with nothing selected add nothing |
| Home.NoParamsOnlyActive | app/page.tsx:52-110 | with no parameters the only constraint is `status = active` |
| JamUtils.IsNotable | lib/jamUtils.ts:8-19 | no contract of its own; `JamUtils.NotableByOccurrence` states exactly which jams it marks |
| JamUtils.ContainsOccurs | lib/jamUtils.ts:14-17 | `includes` holds exactly when the text occurs at some position |
| JamUtils.NotableByOccurrence | lib/jamUtils.ts:8-19 | notable iff the lower-cased name holds one of the two jams' names, or the name or venue holds "blondie" and the city is exactly "San Francisco"; nothing else is |
| JamUtils.BlondieNeedsSanFrancisco | lib/jamUtils.ts:16-17 | outside San Francisco only the two jams' names count |
| JamUtils.VenueNeedsSanFrancisco | lib/jamUtils.ts:17 | outside San Francisco the venue never matters |
| JamUtils.NotableIgnoresCase | lib/jamUtils.ts:9-10 | name and venue are compared in any letter case; the city is compared as written |
| JamUtils.NameCaseIrrelevant | lib/jamUtils.ts:9 | a name and its lower case give the same answer |
| JamUtils.GratonGrassNotable | lib/jamUtils.ts:15 | a name holding "graton grass" in any case is notable wherever the jam is |
| JamUtils.NothingKnownNotNotable | lib/jamUtils.ts:9-11 | a jam with no name, venue or city is not notable |
| Lists.Filter | app/FiltersPanel.tsx:28 | the kept elements are no more than the given ones; `Lists.FilterMembers` states which are kept |
| Lists.ToggleInList | app/FiltersPanel.tsx:26-30 | no contract of its own; `Lists.ToggleMembers`, `Lists.ToggleKeepsOthers` and `Lists.ToggleAbsentTwice` state its effect |
| Lists.FilterMembers | app/FiltersPanel.tsx:28 | filtering keeps exactly the elements that pass |
| Lists.FilterTwice | app/FiltersPanel.tsx:28 | filtering twice is filtering once |
| Lists.ToggleMembers | app/FiltersPanel.tsx:26-30 | after a toggle the value is present iff it was absent before, and every other value is present iff it was before (the region filter's toggle, app/RegionFilter.tsx:37-39, is the same) |
| Lists.ToggleKeepsOthers | app/FiltersPanel.tsx:26-30 | the other elements keep their order and multiplicity |
| Lists.ToggleAbsentTwice | app/FiltersPanel.tsx:26-30 | toggling an absent value twice gives the list back |
| RegionFilter.ParseList | app/RegionFilter.tsx:7-13 | null or "" gives `[]`; no element is empty or has surrounding whitespace |
| RegionFilter.ParseListOfJoin | app/RegionFilter.tsx:7-13 | `parseList` of the comma-join of non-empty, trimmed, comma-free items gives them back |
| RegionFilter.NormalizeBasePath | app/RegionFilter.tsx:16-22 | the path always starts with "/" |
| RegionFilter.BlankBasePath | app/RegionFilter.tsx:17-21 | a null or blank base path is "/" |
| RegionFilter.CleanPathKept | app/RegionFilter.tsx:16-22 | a trimmed path starting with "/" and not ending with "/" (or "/" itself) is kept as it is |
| RegionFilter.TrailingSlashDropped | app/RegionFilter.tsx:20 | exactly one trailing slash is dropped |
| RegionFilter.LeadingSlashAdded | app/RegionFilter.tsx:19 | a path without a leading slash is read as if it had one |
| RegionFilter.BuildPath | app/RegionFilter.tsx:24-27 | no parameters give the bare normalised base; otherwise base, "?" and the query |
| RegionFilter.ToggleListParam | app/RegionFilter.tsx:29-49 | the target is the base path with the toggled list stored under the key, or the key deleted when the list is empty |
| RegionFilter.ToggledListReadsBack | app/RegionFilter.tsx:37-46 | reading the key back after the toggle gives the toggled list |
| RegionFilter.ToggledFlag | app/RegionFilter.tsx:58-64 | the flag reads "1" afterwards iff it did not before; when off, the key is gone; other keys are unchanged |
| RegionFilter.ToggleBooleanParam | app/RegionFilter.tsx:52-66 | the target is the base path with the flag toggled |
| RegionFilter.FlagToggleTwice | app/RegionFilter.tsx:58-64 | two toggles from absent leave the parameters as they were |
| RegionFilter.ResetAll | app/RegionFilter.tsx:238-240 | reset goes to the cleaned page path with no query, which starts with "/" |
| RegionFilter.ResetAllStays | app/RegionFilter.tsx:238-239 | reset from a clean path stays on it, with no query |
| RegionFilter.ResetAllDropsTwoSlashes | app/RegionFilter.tsx:207 | the page path is cleaned once for the drawer and again by `buildPath`, so reset from "/jams//" goes to "/jams" |
| FiltersPanel.WriteSelection | app/FiltersPanel.tsx:48-73 | no contract of its own; `FiltersPanel.WrittenKeys` states the value of every key after the writing |
| FiltersPanel.Applied | app/FiltersPanel.tsx:46-73 | no contract of its own; `FiltersPanel.AppliedKeys` states the value of every key of the applied parameters |
| FiltersPanel.AssignFlag | app/FiltersPanel.tsx:63-73 | a flag key holds "1" when on and is gone when off; other keys are unchanged |
| FiltersPanel.SetList | app/FiltersPanel.tsx:48-54 | a list key holds the comma-join when the list is non-empty and is deleted otherwise |
| FiltersPanel.ApplyFilters | app/FiltersPanel.tsx:45-77 | the target is "/" when the resulting query is empty, else "/?" and the query |
| FiltersPanel.WrittenKeys | app/FiltersPanel.tsx:56-73 | each managed key holds what its selection says, and every other key is carried over |
| FiltersPanel.AppliedKeys | app/FiltersPanel.tsx:46-73 | under the keys regions, dow, tod, genres, skill, freq, adv and notable; every other key unchanged |
| FiltersPanel.NothingToApply | app/FiltersPanel.tsx:75-76 | with no parameters and nothing selected the target is "/" |
| UrlParams.Lookup | app/RegionFilter.tsx:59 | `get` gives the first value stored under a name, or nothing |
| UrlParams.Without | app/RegionFilter.tsx:45 | `delete` removes every value of the name and keeps the others |
| UrlParams.Assign | app/RegionFilter.tsx:43 | `set` leaves exactly one value under the name and keeps the others |
| UrlParams.WithoutAbsent | app/RegionFilter.tsx:45 | deleting a name that is not there changes nothing |
| UrlParams.AssignAbsent | app/RegionFilter.tsx:63 | setting a new name appends one pair |
| UrlParams.WithoutAssign | app/RegionFilter.tsx:61-63 | deleting after setting is deleting |
| UrlParams.AssignList | app/RegionFilter.tsx:42-46 | a list is stored as its comma-join when non-empty and removed when empty; other keys unchanged |
| UrlParams.Serialize | app/FiltersPanel.tsx:75 | no contract of its own; `UrlParams.SerializeEmpty` states that the query string is empty exactly when there are no pairs |
| UrlParams.SerializeEmpty | app/RegionFilter.tsx:26 | the query string is empty exactly when there are no pairs |
| UrlParams.UrlSearchParams.constructor | app/RegionFilter.tsx:41 | a copy of the current pairs |
| UrlParams.UrlSearchParams.Set | app/RegionFilter.tsx:43 | the pairs after `set` |
| UrlParams.UrlSearchParams.Delete | app/RegionFilter.tsx:45 | the pairs after `delete` |
| UrlParams.UrlSearchParams.Get | app/RegionFilter.tsx:59 | no contract of its own; it reads the current pairs; `UrlParams.WithoutAssign` and `UrlParams.AssignAbsent` state what a read gives after the pairs change |
| UrlParams.UrlSearchParams.ToString | app/RegionFilter.tsx:26 | no contract of its own; it writes the current pairs; `UrlParams.SerializeEmpty` states when the result is empty |
| Text.Trim | app/submit/page.tsx:178 | the result has no surrounding whitespace and is empty iff the input is all whitespace |
| Text.TrimIdempotent | app/submit/page.tsx:178 | trimming twice is trimming once |
| Text.TrimIsInfix | app/submit/page.tsx:178 | the trimmed text is the input without a whitespace prefix and suffix |
| Text.ToLower | lib/jamUtils.ts:9 | lower-casing keeps the length, leaves no capital letter, keeps every other character in its place and turns each capital into its lower-case letter |
| Text.ToLowerIdempotent | lib/jamUtils.ts:9-10 | lower-casing twice is lower-casing once |
| Text.Split | lib/filterConfig.ts:116 | there is at least one piece and no piece holds the separator; `Text.JoinSplit` states that joining the pieces gives the string back |
| Text.Join | app/RegionFilter.tsx:43 | no contract of its own; `Text.SplitJoin` states that splitting the joined string gives the pieces back when none holds the separator |
| Text.JoinSplit | lib/filterConfig.ts:116 | joining the comma segments gives the text back |
| Text.SplitJoin | app/RegionFilter.tsx:43 | splitting the join of comma-free items gives them back |
| Text.Contains | lib/jamUtils.ts:14 | no contract of its own; `Text.ContainsWitness`, `Text.ContainsAt` and `JamUtils.ContainsOccurs` state that it holds exactly when the text occurs at some position |
| Text.StartsWith | app/calendar/page.tsx:125-129 | no contract of its own; the `Calendar.Monthly…` lemmas state what the prefix tests decide |
| Text.EndsWith | app/RegionFilter.tsx:20 | no contract of its own; `RegionFilter.TrailingSlashDropped` states its effect on the base path |
| Text.ContainsWitness | lib/jamUtils.ts:14 | `includes` has a position where the text occurs |
| Text.ContainsAt | lib/jamUtils.ts:14 | an occurrence at some position makes `includes` hold |
| Text.ParseIntPrefix | app/calendar/page.tsx:65 | no contract of its own; `CalendarFields.WeekValue` and `CalendarFields.WeeksOfMonthMembers` state what a segment reads as |
| Text.DecimalValueDigits | app/calendar/page.tsx:65 | a run of digits has a decimal value, and only a run of digits |
| Text.ParseNumber | app/calendar/page.tsx:165-166 | no contract of its own; `Text.NumberOfSpaces` and `Text.NumberOfDigits` state what blank and all-digit text read as |
| Text.NumberOfSpaces | app/calendar/page.tsx:165 | `Number` of a blank string is 0 |
| Text.NumberOfDigits | app/calendar/page.tsx:165 | `Number` of a run of digits is its decimal value |
| Text.NatToString | app/submit/page.tsx:331 | the decimal digits of a natural number: their value is the number, and the first digit is 0 only for 0 itself, written "0" |
| Text.IntToString | app/submit/page.tsx:331 | `String(n)`: the decimal digits of the number with no leading zero (0 is "0"), after a minus sign when it is negative |
| Text.Pad2Digits | app/submit/page.tsx:195 | `padStart(2, "0")` of a number below 100 is its two digits |
| SubmitJam.NullIfEmpty | app/submit/page.tsx:177-180 | null exactly when the text is blank, else the trimmed text |
| SubmitJam.NullIfEmptyKeeps | app/submit/page.tsx:177-180 | a non-empty trimmed text is kept as it is |
| SubmitJam.ParseTimeToDb | app/submit/page.tsx:182-216 | no contract of its own; `SubmitJam.NoTimeExactly`, `SubmitJam.ParsedIsDbTime`, `SubmitJam.AcceptedForms` and `SubmitJam.ParseTimeIdempotent` state its results |
| SubmitJam.ParseTrimmed | app/submit/page.tsx:186-215 | no contract of its own; `SubmitJam.ParseTrimmedInput` states that it is the reading of the trimmed input by the two patterns |
| SubmitJam.FromMatches | app/submit/page.tsx:187-215 | no contract of its own; `SubmitJam.FromMatchesIsDbTime` states that it yields only database times |
| SubmitJam.FromMatchesIsDbTime | app/submit/page.tsx:187-215 | whatever time either pattern yields is in the database's `HH:MM:SS` form |
| SubmitJam.From12 | app/submit/page.tsx:201-212 | no contract of its own; `SubmitJam.From12Value` states its result |
| SubmitJam.From12IsDbTime | app/submit/page.tsx:201-212 | the time the 12-hour pattern yields is in the database's `HH:MM:SS` form |
| SubmitJam.Hour24 | app/submit/page.tsx:207-208 | no contract of its own; `SubmitJam.ThirteenAm` and `SubmitJam.ThirteenPm` state what it makes of hours past 12 |
| SubmitJam.Match24 | app/submit/page.tsx:188-189 | the 24-hour pattern yields hours, minutes and seconds of at most two digits |
| SubmitJam.Match12 | app/submit/page.tsx:201-202 | the 12-hour pattern yields hours and minutes of at most two digits and the suffix |
| SubmitJam.DbTimeOf | app/submit/page.tsx:195-196 | an in-range time is written `HH:MM:SS` and its fields read back |
| SubmitJam.PaddedTime | app/submit/page.tsx:195-196 | padding each field to two digits gives that time |
| SubmitJam.NoTimeExactly | app/submit/page.tsx:183-185 | the result is null exactly for a missing or blank input |
| SubmitJam.ParsedIsDbTime | app/submit/page.tsx:182-216 | every string result is a well-formed `HH:MM:SS` with hours ≤ 23 and minutes, seconds ≤ 59 |
| SubmitJam.ParseIgnoresSurroundingSpace | app/submit/page.tsx:184 | surrounding whitespace does not change the result |
| SubmitJam.ParseTrimmedInput | app/submit/page.tsx:184-215 | a trimmed non-blank input is decided by the 24-hour match first, then the 12-hour match, else invalid |
| SubmitJam.TwentyFourHour | app/submit/page.tsx:188-197 | `H:MM`, `HH:MM` or `HH:MM:SS` is its zero-padded time when in range (seconds default to 00), else invalid |
| SubmitJam.Parse24InRange | app/submit/page.tsx:190-197 | a 24-hour match in range is written out padded |
| SubmitJam.Match24Parts | app/submit/page.tsx:188-193 | the 24-hour pattern reads hours, minutes and optional seconds as written |
| SubmitJam.Match24Shape | app/submit/page.tsx:188 | the 24-hour pattern matches only text of the shape `H[H]:MM[:SS]` |
| SubmitJam.Match24EndsInDigit | app/submit/page.tsx:188 | a 24-hour text ends in a digit |
| SubmitJam.TwelveHour | app/submit/page.tsx:201-212 | `H[:MM]`, optional spaces, then am or pm in any case: 12 becomes 0, pm adds 12, accepted only when in range, seconds 00 |
| SubmitJam.Parse12Matched | app/submit/page.tsx:203-213 | a 12-hour match that is not a 24-hour one is converted the same way |
| SubmitJam.From12Value | app/submit/page.tsx:203-213 | the 12-hour rule, from the match to the written time or rejection |
| SubmitJam.Match12Parts | app/submit/page.tsx:201-206 | the 12-hour pattern reads hours, optional minutes and the suffix as written |
| SubmitJam.Match12Shape | app/submit/page.tsx:201 | the 12-hour pattern matches only text of the shape `H[H][:MM] *(am\|pm)` |
| SubmitJam.Match12EndsInM | app/submit/page.tsx:201 | a 12-hour text ends in "m" in some case, never a digit, so no text matches both patterns |
| SubmitJam.AcceptedForms | app/submit/page.tsx:187-215 | any input accepted is, once trimmed, of the 24-hour or the 12-hour shape; everything else is invalid |
| SubmitJam.ThirteenAm | app/submit/page.tsx:201-212 | "13 am" is accepted as 13:00:00 |
| SubmitJam.ThirteenPm | app/submit/page.tsx:201-212 | "13 pm" is rejected |
| SubmitJam.DbTimeMatches24 | app/submit/page.tsx:188-193 | a written time matches the 24-hour pattern with its own fields |
| SubmitJam.DbTimeOfFields | app/submit/page.tsx:195-196 | writing a time's fields again gives the same text |
| SubmitJam.DbTimeReparses | app/submit/page.tsx:188-197 | a written time parses to itself |
| SubmitJam.ParseTimeIdempotent | app/submit/page.tsx:182-216 | every string result parses again to itself |
| SubmitJam.TwoDigitsRoundTrip | app/submit/page.tsx:195 | two digits read and written back are the same two digits |
| SubmitForm.Validate | app/submit/page.tsx:252-315 | no contract of its own; `SubmitForm.ValidationOrder` states which message each failure gives, and `SubmitForm.ValidatedPayload` the record a success gives |
| SubmitForm.BuildPayload | app/submit/page.tsx:272-315 | no contract of its own; `SubmitForm.BuildPayloadText` and `SubmitForm.PayloadContents` state each field of the record |
| SubmitForm.ValidationOrder | app/submit/page.tsx:252-270 | a blank name gives the name message; then a blank city or region the location message; then a bad start or end time the time message; it succeeds iff none applies |
| SubmitForm.TimeField | app/submit/page.tsx:264-293 | a valid time input becomes the stored time: null when blank, else its written time |
| SubmitForm.ValidatedPayload | app/submit/page.tsx:252-315 | a record is built only when every check passes, and it is built from the form and both times |
| SubmitForm.BuildPayloadText | app/submit/page.tsx:272-315 | every optional text column is `nullIfEmpty` of its input |
| SubmitForm.PayloadContents | app/submit/page.tsx:272-315 | name, city and region trimmed and non-empty; optional text through `nullIfEmpty`; times as parsed; booleans copied; status "active" |
| SubmitForm.ValidatedIsRecord | app/submit/page.tsx:272-315 | a validated record is clean: trimmed text, null for blanks, written times, status "active" |
| SubmitForm.NullIfEmptyStored | app/submit/page.tsx:177-180 | a stored optional text passes `nullIfEmpty` unchanged |
| SubmitForm.TimeStored | app/submit/page.tsx:182-216 | a stored time, put back in the form, parses to itself |
| SubmitForm.RebuildRecord | app/submit/page.tsx:272-315 | a clean record put back in the form builds the same record |
| SubmitForm.ResubmitRecord | app/submit/page.tsx:252-315 | a clean record put back in the form passes every check and gives itself |
| SubmitForm.ValidateIdempotent | app/submit/page.tsx:252-315 | submitting the form of a validated record gives the same record |
| SubmitForm.SuccessMessage | app/submit/page.tsx:329-333 | the confirmation starts with the fixed text and links to `/jam/<id>.` exactly when an id other than 0 came back |
| SubmitForm.SubmitJamPage.constructor | app/submit/page.tsx:225-228 | the page starts with the empty form, not submitting, with no messages |
| SubmitForm.SubmitJamPage.HandleSubmit | app/submit/page.tsx:240-336 | a failed check shows its message and sends nothing; otherwise the record is sent, and the insert's error is shown or the confirmation is shown and the form emptied; never left submitting |

## Left out

- Backend calls:
  - The backend (Supabase) is not part of this model: the calendar's fetch of active jams, the home page's execution of its query and its ordering, and the insert of a submitted jam.
  - The calendar takes the jams as a parameter.
  - The home page ends at the chain of builder calls it would send.
  - `HandleSubmit` takes the insert's outcome as a parameter.
- Rendering and browser effects are not modelled:
  - JSX rendering and the `useState` setters. The page state of the submission form is modelled as a class instead.
  - `router.push`: the toggles and `applyFilters` return the path they would push.
  - `setIsOpen` in `resetAll`.
  - The month label from `toLocaleString`.
- JavaScript `Date` objects, time zones and daylight saving are not modelled. Dates are civil dates and the biweekly difference counts whole days exactly. The source floors a millisecond difference (app/calendar/page.tsx:112-115): in a zone with daylight saving, from a start in standard time to a date in daylight time that difference is one hour short of whole days, so it floors to one day less: a date a whole number of weeks after the start then counts one week fewer, which flips the biweekly parity. The model does not have that off-by-one.
- The current date is a parameter of the calendar page.
- `CalendarFields.ParseDate`: reads only `YYYY-MM-DD` naming a real day of years 0..9999. Any other text counts as no date, including the forms a JavaScript engine's lenient `new Date` would accept.
- `Text.ParseNumber`: `Number` is modelled for blank text and optionally signed decimal integers only. Fractions, exponents, hexadecimal and `Infinity` read as NaN. This can only make a URL year or month fall back where the code might accept it, e.g. "2025.0".
- `Text.ToLower`: `toLowerCase` is modelled on ASCII letters only; other characters are kept as they are. `trim` uses the JavaScript whitespace set.
- `UrlSearchParams` serialization omits percent-encoding: `toString` writes `name=value` pairs joined by `&`. This does not change which keys are present or whether the query is empty.
- The submission form:
  - `latitude` and `longitude` (`toNumber`, floating point) are not part of the record.
  - The random `event_id` (`Math.random`) is not part of the record.
  - `handleChange`, which copies one input into the form, is not modelled.
- `FiltersPanel`'s props only seed its state, so the model takes the selection as an input.
- The rest of the site is not part of this model: the map view, sign-in, and the admin and "my jams" pages.
- The `searchParams` arrays: the framework builds an array only for a key repeated in the URL, so `PageParams.ParamValue` has no empty array. `parseListParam` would throw on one.
- `CalendarGrid.MonthHref`: its contract states only the path and the first parameter. The full link, year then month, is its body.
- `CalendarGrid.JamsByDate`: the per-day test is a parameter. `CalendarGrid.OnDayOfDate` ties it to `OccursOnDate` for the days of the month shown.
