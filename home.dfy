/**
  The home page's reading of its URL parameters (app/page.tsx): the list
  and flag parameters it understands and the filter constraints it adds to
  the jam query, one per axis that has something selected. The query runs
  on the backend; here it is the chain of builder calls that describes it.
*/
module Home {
  import opened Wrappers
  import opened PageParams
  import opened FilterConfig
  import CalendarFields

  /** One constraint of the query: a column equal to a text or a boolean,
      or a column with a value in a list. */
  datatype Constraint =
    | EqText(column: string, text: string)
    | EqFlag(column: string, flag: bool)
    | InList(column: string, values: seq<string>)

  /** The query builder's chain: the table, then one call per constraint,
      then the ordering. */
  datatype Query =
    | From(table: string)
    | Where(base: Query, constraint: Constraint)
    | OrderBy(base: Query, column: string, ascending: bool)

  /** The constraints of a chain, in the order they were added. */
  function Constraints(q: Query): seq<Constraint> {
    match q
    case From(_) => []
    case Where(base, c) => Constraints(base) + [c]
    case OrderBy(base, _, _) => Constraints(base)
  }

  /** One filter axis: a URL key and the column it constrains, read either
      as a comma-separated list or as an on/off flag. */
  datatype Axis = ListAxis(key: string, column: string) | FlagAxis(key: string, column: string)

  const REGIONS_AXIS := ListAxis("regions", "region")
  const CITIES_AXIS := ListAxis("cities", "city")
  const GREATER_REGIONS_AXIS := ListAxis("greater_regions", "greater_region")
  const HOUSE_JAM_AXIS := FlagAxis("is_house_jam", "is_house_jam")
  const DAYS_AXIS := ListAxis("dow", "day_of_week")
  const TIMES_AXIS := ListAxis("tod", "time_of_day")
  const GENRES_AXIS := ListAxis("genres", "primary_genre")
  const SKILLS_AXIS := ListAxis("skills", "skill_level")
  const INVITE_AXIS := ListAxis("invite", "invite_status")
  const CROWD_AXIS := ListAxis("crowd", "avg_crowd_size")
  const COVER_AXIS := ListAxis("cover_type", "cover_charge_type")
  const DANCING_AXIS := FlagAxis("dancing", "includes_dancing")
  const KINDS_AXIS := ListAxis("kind", "event_kind")
  const FREQ_AXIS := ListAxis("freq", "frequency")

  /** The axes of each section of the page, in the order the query is
      built. */
  const LOCATION_AXES := [REGIONS_AXIS, CITIES_AXIS, GREATER_REGIONS_AXIS, HOUSE_JAM_AXIS]
  const SCHEDULE_AXES := [DAYS_AXIS, TIMES_AXIS]
  const STYLE_AXES := [GENRES_AXIS, SKILLS_AXIS]
  const ACCESS_AXES := [INVITE_AXIS, CROWD_AXIS, COVER_AXIS, DANCING_AXIS]
  const EVENT_AXES := [KINDS_AXIS, FREQ_AXIS]

  /** All the axes, in the order the query is built. */
  const AXES: seq<Axis> := LOCATION_AXES + SCHEDULE_AXES + STYLE_AXES + ACCESS_AXES + EVENT_AXES

  /** Only active jams are listed. */
  const ACTIVE := EqText("status", "active")

  /** A flag parameter is on when it is the string "1" or a repeated key
      whose first value is "1". */
  predicate IsOn(raw: Option<ParamValue>) {
    raw == Some(Str("1")) || (raw.Some? && raw.value.Arr? && raw.value.first == "1")
  }

  /** What one axis adds: an `in` constraint when its list is not empty, an
      `eq true` constraint when its flag is on, nothing otherwise. */
  function AxisFilter(params: SearchParams, axis: Axis): seq<Constraint> {
    match axis
    case ListAxis(key, column) =>
      var list := ParseListParam(Param(params, key));
      if |list| > 0 then [InList(column, list)] else []
    case FlagAxis(key, column) =>
      if IsOn(Param(params, key)) then [EqFlag(column, true)] else []
  }

  /** What the axes add, in their order. */
  function Filters(params: SearchParams, axes: seq<Axis>): seq<Constraint>
    decreases |axes|
  {
    if |axes| == 0 then []
    else AxisFilter(params, axes[0]) + Filters(params, axes[1..])
  }

  /** The query narrowed by one axis. */
  function Narrow(q: Query, params: SearchParams, axis: Axis): Query {
    match axis
    case ListAxis(key, column) =>
      var list := ParseListParam(Param(params, key));
      if |list| > 0 then Where(q, InList(column, list)) else q
    case FlagAxis(key, column) =>
      if IsOn(Param(params, key)) then Where(q, EqFlag(column, true)) else q
  }

  /** The query narrowed by each of the axes in turn. */
  function NarrowAll(q: Query, params: SearchParams, axes: seq<Axis>): Query
    decreases |axes|
  {
    if |axes| == 0 then q
    else NarrowAll(Narrow(q, params, axes[0]), params, axes[1..])
  }

  /** The home page's query: the active jams, narrowed by every axis,
      ordered by name. */
  function JamsQuery(params: SearchParams): Query {
    OrderBy(NarrowAll(Where(From("jams"), ACTIVE), params, AXES), "event_name", true)
  }

  /** Narrowing by two runs of axes is narrowing by the first, then by the
      second. */
  lemma {:induction false} NarrowAllAppend(q: Query, params: SearchParams, a: seq<Axis>, b: seq<Axis>)
    ensures NarrowAll(q, params, a + b) == NarrowAll(NarrowAll(q, params, a), params, b)
    decreases |a|
  {
    if |a| > 0 {
      assert (a + b)[0] == a[0];
      assert (a + b)[1..] == a[1..] + b;
      NarrowAllAppend(Narrow(q, params, a[0]), params, a[1..], b);
    } else {
      assert a + b == b;
    }
  }

  /** Narrowing by five runs of axes is narrowing by each run in turn. */
  lemma NarrowAllFive(q: Query, params: SearchParams, a: seq<Axis>, b: seq<Axis>, c: seq<Axis>, d: seq<Axis>, e: seq<Axis>)
    ensures NarrowAll(q, params, a + b + c + d + e)
            == NarrowAll(NarrowAll(NarrowAll(NarrowAll(NarrowAll(q, params, a), params, b), params, c), params, d), params, e)
  {
    NarrowAllAppend(q, params, a + b + c + d, e);
    NarrowAllAppend(q, params, a + b + c, d);
    NarrowAllAppend(q, params, a + b, c);
    NarrowAllAppend(q, params, a, b);
  }

  /** Narrowing by a run of two axes. */
  lemma NarrowAllTwo(q: Query, params: SearchParams, a: Axis, b: Axis)
    ensures NarrowAll(q, params, [a, b]) == Narrow(Narrow(q, params, a), params, b)
  {
    assert [a, b][1..] == [b];
    assert [b][1..] == [];
    var qa := Narrow(q, params, a);
    assert NarrowAll(qa, params, [b]) == NarrowAll(Narrow(qa, params, b), params, []);
  }

  /** Narrowing by a run of four axes. */
  lemma NarrowAllFour(q: Query, params: SearchParams, a: Axis, b: Axis, c: Axis, d: Axis)
    ensures NarrowAll(q, params, [a, b, c, d])
            == Narrow(Narrow(Narrow(Narrow(q, params, a), params, b), params, c), params, d)
  {
    assert [a, b, c, d][1..] == [b, c, d];
    assert [b, c, d][1..] == [c, d];
    NarrowAllTwo(Narrow(Narrow(q, params, a), params, b), params, c, d);
  }

  /** The location section: regions, cities, greater regions, house jams. */
  method NarrowByLocation(params: SearchParams, query: Query) returns (q: Query)
    ensures q == NarrowAll(query, params, LOCATION_AXES)
  {
    var regions := ParseListParam(Param(params, "regions"));
    var cities := ParseListParam(Param(params, "cities"));
    var greaterRegions := ParseListParam(Param(params, "greater_regions"));
    var isHouseJamOnly := IsOn(Param(params, "is_house_jam"));
    NarrowAllFour(query, params, REGIONS_AXIS, CITIES_AXIS, GREATER_REGIONS_AXIS, HOUSE_JAM_AXIS);
    q := query;
    if |regions| > 0 {
      q := Where(q, InList("region", regions));
    }
    if |cities| > 0 {
      q := Where(q, InList("city", cities));
    }
    if |greaterRegions| > 0 {
      q := Where(q, InList("greater_region", greaterRegions));
    }
    if isHouseJamOnly {
      q := Where(q, EqFlag("is_house_jam", true));
    }
  }

  /** The day and time section. */
  method NarrowBySchedule(params: SearchParams, query: Query) returns (q: Query)
    ensures q == NarrowAll(query, params, SCHEDULE_AXES)
  {
    var dows := ParseListParam(Param(params, "dow"));
    var timeOfDay := ParseListParam(Param(params, "tod"));
    NarrowAllTwo(query, params, DAYS_AXIS, TIMES_AXIS);
    q := query;
    if |dows| > 0 {
      q := Where(q, InList("day_of_week", dows));
    }
    if |timeOfDay| > 0 {
      q := Where(q, InList("time_of_day", timeOfDay));
    }
  }

  /** The genre and skill section. */
  method NarrowByStyle(params: SearchParams, query: Query) returns (q: Query)
    ensures q == NarrowAll(query, params, STYLE_AXES)
  {
    var genres := ParseListParam(Param(params, "genres"));
    var skills := ParseListParam(Param(params, "skills"));
    NarrowAllTwo(query, params, GENRES_AXIS, SKILLS_AXIS);
    q := query;
    if |genres| > 0 {
      q := Where(q, InList("primary_genre", genres));
    }
    if |skills| > 0 {
      q := Where(q, InList("skill_level", skills));
    }
  }

  /** The access, crowd and cost section. */
  method NarrowByAccess(params: SearchParams, query: Query) returns (q: Query)
    ensures q == NarrowAll(query, params, ACCESS_AXES)
  {
    var invite := ParseListParam(Param(params, "invite"));
    var crowd := ParseListParam(Param(params, "crowd"));
    var coverType := ParseListParam(Param(params, "cover_type"));
    var includesDancingOnly := IsOn(Param(params, "dancing"));
    NarrowAllFour(query, params, INVITE_AXIS, CROWD_AXIS, COVER_AXIS, DANCING_AXIS);
    q := query;
    if |invite| > 0 {
      q := Where(q, InList("invite_status", invite));
    }
    if |crowd| > 0 {
      q := Where(q, InList("avg_crowd_size", crowd));
    }
    if |coverType| > 0 {
      q := Where(q, InList("cover_charge_type", coverType));
    }
    if includesDancingOnly {
      q := Where(q, EqFlag("includes_dancing", true));
    }
  }

  /** The event type and frequency section. */
  method NarrowByEvent(params: SearchParams, query: Query) returns (q: Query)
    ensures q == NarrowAll(query, params, EVENT_AXES)
  {
    var kinds := ParseListParam(Param(params, "kind"));
    var freq := ParseListParam(Param(params, "freq"));
    NarrowAllTwo(query, params, KINDS_AXIS, FREQ_AXIS);
    q := query;
    if |kinds| > 0 {
      q := Where(q, InList("event_kind", kinds));
    }
    if |freq| > 0 {
      q := Where(q, InList("frequency", freq));
    }
  }

  /** `Home`: the active jams, narrowed section by section, ordered by
      name; its constraints are the active status and what each axis
      adds. */
  method BuildQuery(params: SearchParams) returns (query: Query)
    ensures query == JamsQuery(params)
    ensures Constraints(query) == [ACTIVE] + Filters(params, AXES)
  {
    ghost var base := Where(From("jams"), ACTIVE);
    query := Where(From("jams"), ACTIVE);
    query := NarrowByLocation(params, query);
    query := NarrowBySchedule(params, query);
    query := NarrowByStyle(params, query);
    query := NarrowByAccess(params, query);
    query := NarrowByEvent(params, query);
    NarrowAllFive(base, params, LOCATION_AXES, SCHEDULE_AXES, STYLE_AXES, ACCESS_AXES, EVENT_AXES);
    query := OrderBy(query, "event_name", true);
    JamsQueryConstraints(params);
  }

  // ---------------------------------------------------------------------
  // What the query means
  // ---------------------------------------------------------------------

  /** Narrowing by the axes adds their constraints at the end. */
  lemma {:induction false} NarrowAllConstraints(q: Query, params: SearchParams, axes: seq<Axis>)
    ensures Constraints(NarrowAll(q, params, axes)) == Constraints(q) + Filters(params, axes)
    decreases |axes|
  {
    if |axes| > 0 {
      NarrowAllConstraints(Narrow(q, params, axes[0]), params, axes[1..]);
    }
  }

  /** A constraint is added exactly when some axis adds it. */
  lemma {:induction false} FiltersMembers(params: SearchParams, axes: seq<Axis>, c: Constraint)
    ensures c in Filters(params, axes) <==> exists i :: 0 <= i < |axes| && c in AxisFilter(params, axes[i])
    decreases |axes|
  {
    if |axes| > 0 {
      var rest := axes[1..];
      FiltersMembers(params, rest, c);
      if exists i :: 0 <= i < |axes| && c in AxisFilter(params, axes[i]) {
        var i :| 0 <= i < |axes| && c in AxisFilter(params, axes[i]);
        if i > 0 {
          assert rest[i - 1] == axes[i];
        }
      }
      if exists i :: 0 <= i < |rest| && c in AxisFilter(params, rest[i]) {
        var i :| 0 <= i < |rest| && c in AxisFilter(params, rest[i]);
        assert axes[i + 1] == rest[i];
      }
    }
  }

  /** No two of the axes constrain the same column. */
  ghost predicate DistinctColumns(axes: seq<Axis>) {
    forall i, j :: 0 <= i < |axes| && 0 <= j < |axes| && i != j ==> axes[i].column != axes[j].column
  }

  /** Two different axes of the page constrain different columns. */
  lemma ColumnsDiffer(i: int, j: int)
    requires 0 <= i < |AXES| && 0 <= j < |AXES| && i != j
    ensures AXES[i].column != AXES[j].column
  {
  }

  /** Every axis of the page constrains a column of its own. */
  lemma ColumnsDistinct()
    ensures DistinctColumns(AXES)
  {
    forall i, j | 0 <= i < |AXES| && 0 <= j < |AXES| && i != j
      ensures AXES[i].column != AXES[j].column
    {
      ColumnsDiffer(i, j);
    }
  }

  /** Among axes with distinct columns, a list constraint on an axis's
      column comes from that axis alone. */
  lemma ListAxisFilter(params: SearchParams, axes: seq<Axis>, i: int, values: seq<string>)
    requires DistinctColumns(axes) && 0 <= i < |axes| && axes[i].ListAxis?
    ensures InList(axes[i].column, values) in Filters(params, axes)
            <==> values == ParseListParam(Param(params, axes[i].key)) && |values| > 0
  {
    var c := InList(axes[i].column, values);
    FiltersMembers(params, axes, c);
    if exists j :: 0 <= j < |axes| && c in AxisFilter(params, axes[j]) {
      var j :| 0 <= j < |axes| && c in AxisFilter(params, axes[j]);
      assert axes[j].column == axes[i].column;
    }
    if values == ParseListParam(Param(params, axes[i].key)) && |values| > 0 {
      assert c in AxisFilter(params, axes[i]);
    }
  }

  /** Among axes with distinct columns, a flag constraint on an axis's
      column comes from that axis alone. */
  lemma FlagAxisFilter(params: SearchParams, axes: seq<Axis>, i: int)
    requires DistinctColumns(axes) && 0 <= i < |axes| && axes[i].FlagAxis?
    ensures EqFlag(axes[i].column, true) in Filters(params, axes) <==> IsOn(Param(params, axes[i].key))
  {
    var c := EqFlag(axes[i].column, true);
    FiltersMembers(params, axes, c);
    if exists j :: 0 <= j < |axes| && c in AxisFilter(params, axes[j]) {
      var j :| 0 <= j < |axes| && c in AxisFilter(params, axes[j]);
      assert axes[j].column == axes[i].column;
    }
    if IsOn(Param(params, axes[i].key)) {
      assert c in AxisFilter(params, axes[i]);
    }
  }

  /** The query's constraints: the active status, then the axes'. */
  lemma JamsQueryConstraints(params: SearchParams)
    ensures Constraints(JamsQuery(params)) == [ACTIVE] + Filters(params, AXES)
  {
    var base := Where(From("jams"), ACTIVE);
    assert Constraints(base) == [ACTIVE];
    NarrowAllConstraints(base, params, AXES);
  }

  /** An axis's list constraint is in the query exactly when its list is
      not empty, and then with that list. */
  lemma ListAxisApplied(params: SearchParams, i: int, values: seq<string>)
    requires 0 <= i < |AXES| && AXES[i].ListAxis?
    ensures InList(AXES[i].column, values) in Constraints(JamsQuery(params))
            <==> values == ParseListParam(Param(params, AXES[i].key)) && |values| > 0
  {
    JamsQueryConstraints(params);
    ColumnsDistinct();
    ListAxisFilter(params, AXES, i, values);
  }


  /** An axis's flag constraint is in the query exactly when its flag is
      on. */
  lemma FlagAxisApplied(params: SearchParams, i: int)
    requires 0 <= i < |AXES| && AXES[i].FlagAxis?
    ensures EqFlag(AXES[i].column, true) in Constraints(JamsQuery(params)) <==> IsOn(Param(params, AXES[i].key))
  {
    JamsQueryConstraints(params);
    ColumnsDistinct();
    FlagAxisFilter(params, AXES, i);
  }


  /** Axes that add nothing leave nothing in the query. */
  lemma {:induction false} NoFilters(params: SearchParams, axes: seq<Axis>)
    requires forall i :: 0 <= i < |axes| ==> AxisFilter(params, axes[i]) == []
    ensures Filters(params, axes) == []
    decreases |axes|
  {
    if |axes| > 0 {
      assert forall i :: 0 <= i < |axes| - 1 ==> axes[1..][i] == axes[i + 1];
      NoFilters(params, axes[1..]);
    }
  }

  /** With no parameters, the active status is the only constraint. */
  lemma NoParamsOnlyActive()
    ensures Constraints(JamsQuery(map[])) == [ACTIVE]
  {
    JamsQueryConstraints(map[]);
    NoFilters(map[], AXES);
  }

  /** The home page and the calendar read a parameter alike: a missing key
      and a lone empty string are both "nothing", and of a repeated key only
      the first value counts. So the list the home page filters by is the
      comma list of the string the calendar reads, and a flag is on exactly
      when the calendar would read "1". */
  lemma PagesReadParamsAlike(params: SearchParams, key: string)
    ensures CalendarFields.GetParam(params, key).None? ==> ParseListParam(Param(params, key)) == []
    ensures CalendarFields.GetParam(params, key).Some? ==>
              ParseListParam(Param(params, key)) == CommaList(CalendarFields.GetParam(params, key).value)
    ensures IsOn(Param(params, key)) <==> CalendarFields.GetParam(params, key) == Some("1")
  {
  }
}
