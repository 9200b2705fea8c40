/**
  The filter options of lib/filterConfig.ts: each option a label, the slug
  the URL carries, and the column values it stands for; the merge of the
  values of the selected slugs; and the reading of a comma-separated list
  parameter.
*/
module FilterConfig {
  import opened Wrappers
  import opened Text
  import opened PageParams
  import opened Lists

  // ---------------------------------------------------------------------
  // Comma-separated lists
  // ---------------------------------------------------------------------

  /** Each string trimmed (`.map((s) => s.trim())`). */
  function TrimAll(xs: seq<string>): (r: seq<string>)
    ensures |r| == |xs|
    ensures forall i :: 0 <= i < |xs| ==> r[i] == Trim(xs[i])
  {
    seq(|xs|, i requires 0 <= i < |xs| => Trim(xs[i]))
  }

  /** `Boolean` on a string: it is not empty. */
  predicate NonEmpty(x: string) {
    x != ""
  }

  /** `str.split(",").map((s) => s.trim()).filter(Boolean)`: the trimmed
      comma-separated segments, the empty ones dropped. */
  function CommaList(s: string): (r: seq<string>)
    ensures forall x :: x in r ==> x != "" && IsTrimmed(x)
  {
    var segments := TrimAll(Split(s, ','));
    var r := Filter(segments, NonEmpty);
    forall x | x in r ensures x != "" && IsTrimmed(x) {
      FilterMembers(segments, NonEmpty, x);
    }
    r
  }

  /** A string is listed exactly when it is not empty and some segment
      trims to it. */
  lemma CommaListMembers(s: string, x: string)
    ensures x in CommaList(s) <==> x != "" && exists seg :: seg in Split(s, ',') && Trim(seg) == x
  {
    var segments := Split(s, ',');
    FilterMembers(TrimAll(segments), NonEmpty, x);
    TrimAllMembers(segments, x);
  }

  /** A string is among the trimmed segments exactly when some segment
      trims to it. */
  lemma TrimAllMembers(segments: seq<string>, x: string)
    ensures x in TrimAll(segments) <==> exists seg :: seg in segments && Trim(seg) == x
  {
    if x in TrimAll(segments) {
      var i :| 0 <= i < |segments| && TrimAll(segments)[i] == x;
      assert segments[i] in segments;
    }
    if exists seg :: seg in segments && Trim(seg) == x {
      var seg :| seg in segments && Trim(seg) == x;
      var i :| 0 <= i < |segments| && segments[i] == seg;
      assert TrimAll(segments)[i] == x;
    }
  }


  /** A string that can sit in a comma-separated list and be read back:
      not empty, no white space at its ends, no comma. */
  predicate IsListItem(x: string) {
    x != "" && IsTrimmed(x) && ',' !in x
  }

  /** List items are kept as they are. */
  lemma ListItemsKept(xs: seq<string>)
    requires forall i :: 0 <= i < |xs| ==> IsListItem(xs[i])
    ensures Filter(TrimAll(xs), NonEmpty) == xs
  {
    forall i | 0 <= i < |xs| ensures TrimAll(xs)[i] == xs[i] {
      TrimmedIsFixed(xs[i]);
    }
    assert TrimAll(xs) == xs;
    FilterAll(xs, NonEmpty);
  }

  /** Reading back the comma-join of list items gives the items. */
  lemma CommaListOfJoin(xs: seq<string>)
    requires forall i :: 0 <= i < |xs| ==> IsListItem(xs[i])
    ensures CommaList(Join(xs, ',')) == xs
  {
    if |xs| == 0 {
      assert Split("", ',') == [""];
      assert TrimAll([""]) == [""];
      assert Filter([""], NonEmpty) == Filter([], NonEmpty) + [];
    } else {
      SplitJoin(xs, ',');
      ListItemsKept(xs);
    }
  }

  /** `parseListParam`: a missing or empty parameter is the empty list; of
      a repeated key only the first value is read. */
  function ParseListParam(raw: Option<ParamValue>): (r: seq<string>)
    ensures raw.None? || raw == Some(Str("")) ==> r == []
    ensures raw.Some? && raw.value.Arr? ==> r == CommaList(raw.value.first)
    ensures forall x :: x in r ==> x != "" && IsTrimmed(x)
  {
    match raw
    case None => []
    case Some(Str(s)) => if s == "" then [] else CommaList(s)
    case Some(Arr(first, _)) => CommaList(first)
  }

  /** The parameter named `key`, when the page was given one. */
  function Param(params: SearchParams, key: string): Option<ParamValue> {
    if key in params then Some(params[key]) else None
  }

  // ---------------------------------------------------------------------
  // Options
  // ---------------------------------------------------------------------

  /** `label` (the text shown), `slug` and `dbValues`. */
  datatype FilterOption = FilterOption(caption: string, slug: string, dbValues: seq<string>)

  const REGION_OPTIONS: seq<FilterOption> := [
    FilterOption("San Francisco", "sf", ["San Francisco"]),
    FilterOption("East Bay", "east_bay", ["East Bay"]),
    FilterOption("North Bay", "north_bay", ["Marin County", "Sonoma County"]),
    FilterOption("South Bay", "south_bay", ["South Bay"]),
    FilterOption("Peninsula", "peninsula", ["Peninsula"])
  ]

  /** Thursday is shown as "Thu" but carried and stored as "Thur". */
  const DAY_OF_WEEK_OPTIONS: seq<FilterOption> := [
    FilterOption("Mon", "Mon", ["Mon"]),
    FilterOption("Tue", "Tue", ["Tue"]),
    FilterOption("Wed", "Wed", ["Wed"]),
    FilterOption("Thu", "Thur", ["Thur"]),
    FilterOption("Fri", "Fri", ["Fri"]),
    FilterOption("Sat", "Sat", ["Sat"]),
    FilterOption("Sun", "Sun", ["Sun"])
  ]

  const TIME_OF_DAY_OPTIONS: seq<FilterOption> := [
    FilterOption("Daytime", "daytime", ["morning"]),
    FilterOption("Evening", "evening", ["evening"]),
    FilterOption("Nighttime", "nighttime", ["nightime", "late_night"])
  ]

  const GENRE_OPTIONS: seq<FilterOption> := [
    FilterOption("Bluegrass", "bluegrass", ["bluegrass"]),
    FilterOption("Jazz", "jazz", ["jazz"]),
    FilterOption("Jam Band", "jam_band", ["jam_band"])
  ]

  const SKILL_LEVEL_OPTIONS: seq<FilterOption> := [
    FilterOption("Beginner Friendly", "beginner_friendly", ["Begginer", "Begginer_Intermediate", "all_skill_levels"]),
    FilterOption("Mixed", "mixed", ["Intermediate", "Advanced_Intermediate", "all_skill_levels"]),
    FilterOption("Advanced", "advanced", ["Advanced", "Advanced_Intermediate"]),
    FilterOption("Pro", "pro", ["Pro"])
  ]

  const FREQUENCY_OPTIONS: seq<FilterOption> := [
    FilterOption("Weekly", "weekly", ["weekly"]),
    FilterOption("Biweekly", "biweekly", ["1nd_3th_monthly"]),
    FilterOption("Monthly", "monthly", ["monthly", "1st_monthly", "2nd_monthly", "3rd_monthly", "4th_monthly"]),
    FilterOption("2nd 4th Monthly", "2nd_4th_monthly", ["2nd_4th_monthly"]),
    FilterOption("One Off", "one_off", ["one_off"])
  ]

  // ---------------------------------------------------------------------
  // Merging the values of the selected options
  // ---------------------------------------------------------------------

  /** The values of the selected options, option after option, repeats
      included. */
  function SelectedValues(options: seq<FilterOption>, selected: seq<string>): seq<string>
    decreases |options|
  {
    if |options| == 0 then []
    else
      var last := options[|options| - 1];
      SelectedValues(options[..|options| - 1], selected) + (if last.slug in selected then last.dbValues else [])
  }

  /** The elements of `xs` in the order they first occur, each once: what a
      `Set` filled from `xs` holds, in insertion order. */
  function Distinct<T(==)>(xs: seq<T>): seq<T>
    decreases |xs|
  {
    if |xs| == 0 then []
    else
      var d := Distinct(xs[..|xs| - 1]);
      if xs[|xs| - 1] in d then d else d + [xs[|xs| - 1]]
  }

  predicate NoDuplicates<T(==)>(xs: seq<T>) {
    forall i, j :: 0 <= i < j < |xs| ==> xs[i] != xs[j]
  }

  /** Adding one more element to the set. */
  lemma DistinctSnoc<T>(xs: seq<T>, v: T)
    ensures Distinct(xs + [v]) == if v in Distinct(xs) then Distinct(xs) else Distinct(xs) + [v]
  {
    assert (xs + [v])[..|xs|] == xs;
  }

  /** The set holds exactly the elements of `xs`. */
  lemma {:induction false} DistinctMembers<T>(xs: seq<T>, x: T)
    ensures x in Distinct(xs) <==> x in xs
    decreases |xs|
  {
    if |xs| > 0 {
      DistinctMembers(xs[..|xs| - 1], x);
      assert xs == xs[..|xs| - 1] + [xs[|xs| - 1]];
    }
  }

  /** The set holds each element once. */
  lemma {:induction false} DistinctNoDuplicates<T>(xs: seq<T>)
    ensures NoDuplicates(Distinct(xs))
    decreases |xs|
  {
    if |xs| > 0 {
      DistinctNoDuplicates(xs[..|xs| - 1]);
    }
  }

  /** `dbValuesForSelected`: the values of the options whose slug is
      selected, in option order and then value order, each once. */
  method DbValuesForSelected(options: seq<FilterOption>, selectedSlugs: seq<string>) returns (values: seq<string>)
    ensures values == Distinct(SelectedValues(options, selectedSlugs))
  {
    var merged: seq<string> := [];
    for i := 0 to |options|
      invariant merged == Distinct(SelectedValues(options[..i], selectedSlugs))
    {
      var opt := options[i];
      SelectedStep(options, selectedSlugs, i);
      if opt.slug in selectedSlugs {
        ghost var before := SelectedValues(options[..i], selectedSlugs);
        assert before + opt.dbValues[..0] == before;
        for j := 0 to |opt.dbValues|
          invariant merged == Distinct(before + opt.dbValues[..j])
        {
          var v := opt.dbValues[j];
          DistinctStep(before, opt.dbValues, j);
          if v !in merged {
            merged := merged + [v];
          }
        }
        assert opt.dbValues[..|opt.dbValues|] == opt.dbValues;
      } else {
        assert SelectedValues(options[..i], selectedSlugs) + [] == SelectedValues(options[..i], selectedSlugs);
      }
    }
    assert options[..|options|] == options;
    values := merged;
  }

  /** One more option adds its values when it is selected. */
  lemma SelectedStep(options: seq<FilterOption>, selected: seq<string>, i: int)
    requires 0 <= i < |options|
    ensures SelectedValues(options[..i + 1], selected)
            == SelectedValues(options[..i], selected) + (if options[i].slug in selected then options[i].dbValues else [])
  {
    assert options[..i + 1][..i] == options[..i];
  }

  /** One more value joins the set unless it is there already. */
  lemma DistinctStep(before: seq<string>, vals: seq<string>, j: int)
    requires 0 <= j < |vals|
    ensures Distinct(before + vals[..j + 1])
            == if vals[j] in Distinct(before + vals[..j]) then Distinct(before + vals[..j])
               else Distinct(before + vals[..j]) + [vals[j]]
  {
    assert before + vals[..j + 1] == (before + vals[..j]) + [vals[j]];
    DistinctSnoc(before + vals[..j], vals[j]);
  }


  /** A value is merged exactly when some selected option lists it. */
  lemma {:induction false} SelectedMembers(options: seq<FilterOption>, selected: seq<string>, v: string)
    ensures v in SelectedValues(options, selected)
            <==> exists i :: 0 <= i < |options| && options[i].slug in selected && v in options[i].dbValues
    decreases |options|
  {
    if |options| > 0 {
      var init := options[..|options| - 1];
      SelectedMembers(init, selected, v);
      if exists i :: 0 <= i < |options| && options[i].slug in selected && v in options[i].dbValues {
        var i :| 0 <= i < |options| && options[i].slug in selected && v in options[i].dbValues;
        if i < |options| - 1 {
          assert init[i] == options[i];
        }
      }
      if exists i :: 0 <= i < |init| && init[i].slug in selected && v in init[i].dbValues {
        var i :| 0 <= i < |init| && init[i].slug in selected && v in init[i].dbValues;
        assert options[i] == init[i];
      }
    }
  }

  /** Only which options are selected matters: selections that agree on
      every option's slug merge the same values, in the same order. */
  lemma {:induction false} SelectionAgrees(options: seq<FilterOption>, sel1: seq<string>, sel2: seq<string>)
    requires forall i :: 0 <= i < |options| ==> (options[i].slug in sel1 <==> options[i].slug in sel2)
    ensures SelectedValues(options, sel1) == SelectedValues(options, sel2)
    decreases |options|
  {
    if |options| > 0 {
      var init := options[..|options| - 1];
      assert forall i :: 0 <= i < |init| ==> init[i] == options[i];
      SelectionAgrees(init, sel1, sel2);
      assert options[|options| - 1].slug in sel1 <==> options[|options| - 1].slug in sel2;
    }
  }

  /** The order and repetition of the selected slugs do not matter. */
  lemma SelectionOrderIrrelevant(options: seq<FilterOption>, sel1: seq<string>, sel2: seq<string>)
    requires forall s :: s in sel1 <==> s in sel2
    ensures Distinct(SelectedValues(options, sel1)) == Distinct(SelectedValues(options, sel2))
  {
    SelectionAgrees(options, sel1, sel2);
  }

  /** A slug no option has is ignored. */
  lemma UnknownSlugIgnored(options: seq<FilterOption>, selected: seq<string>, s: string)
    requires forall i :: 0 <= i < |options| ==> options[i].slug != s
    ensures Distinct(SelectedValues(options, selected + [s])) == Distinct(SelectedValues(options, selected))
  {
    SelectionAgrees(options, selected + [s], selected);
  }

  /** Selecting nothing merges nothing. */
  lemma {:induction false} NothingSelected(options: seq<FilterOption>)
    ensures Distinct(SelectedValues(options, [])) == []
    decreases |options|
  {
    if |options| > 0 {
      NothingSelected(options[..|options| - 1]);
    }
  }

  /** The beginner and mixed skill buckets share "all_skill_levels", which
      is merged once, where the first of them lists it; the values follow
      the option order whatever order the slugs come in. */
  lemma SkillBuckets()
    ensures Distinct(SelectedValues(SKILL_LEVEL_OPTIONS, ["mixed", "beginner_friendly"]))
            == ["Begginer", "Begginer_Intermediate", "all_skill_levels", "Intermediate", "Advanced_Intermediate"]
  {
    SkillBucketValues();
    SkillBucketSet();
  }

  lemma SkillBucketValues()
    ensures SelectedValues(SKILL_LEVEL_OPTIONS, ["mixed", "beginner_friendly"])
            == ["Begginer", "Begginer_Intermediate", "all_skill_levels", "Intermediate", "Advanced_Intermediate", "all_skill_levels"]
  {
    var sel := ["mixed", "beginner_friendly"];
    var o := SKILL_LEVEL_OPTIONS;
    assert o[..1][..0] == o[..0] && o[..2][..1] == o[..1] && o[..3][..2] == o[..2] && o[..4][..3] == o[..3];
    assert o[..4] == o;
    var low := ["Begginer", "Begginer_Intermediate", "all_skill_levels"];
    var mixed := ["Intermediate", "Advanced_Intermediate", "all_skill_levels"];
    assert SelectedValues(o[..1], sel) == low;
    assert SelectedValues(o[..2], sel) == low + mixed;
    assert SelectedValues(o[..3], sel) == low + mixed;
  }

  lemma SkillBucketSet()
    ensures Distinct(["Begginer", "Begginer_Intermediate", "all_skill_levels", "Intermediate", "Advanced_Intermediate", "all_skill_levels"])
            == ["Begginer", "Begginer_Intermediate", "all_skill_levels", "Intermediate", "Advanced_Intermediate"]
  {
    DistinctRepeatThird("Begginer", "Begginer_Intermediate", "all_skill_levels", "Intermediate", "Advanced_Intermediate");
  }

  /** Five different values with the third repeated at the end: the
      repeat goes. */
  lemma DistinctRepeatThird<T>(a: T, b: T, c: T, d: T, e: T)
    requires a != b && a != c && a != d && a != e && b != c && b != d && b != e
    requires c != d && c != e && d != e
    ensures Distinct([a, b, c, d, e, c]) == [a, b, c, d, e]
  {
    var x1 := [a];
    assert x1[..0] == [];
    var x2 := x1 + [b];
    DistinctSnoc(x1, b);
    var x3 := x2 + [c];
    DistinctSnoc(x2, c);
    var x4 := x3 + [d];
    DistinctSnoc(x3, d);
    var x5 := x4 + [e];
    DistinctSnoc(x4, e);
    assert Distinct(x5) == x5;
    DistinctSnoc(x5, c);
    assert x5 + [c] == [a, b, c, d, e, c];
    assert x5 == [a, b, c, d, e];
  }

}
