/**
  The apply button of the filter panel in app/FiltersPanel.tsx: the
  selections held by the panel are written into a copy of the current query,
  and the page navigates to the result.
*/
module FiltersPanel {
  import opened Text
  import opened UrlParams

  /** What the panel holds: the selected slugs of each list and two flags. */
  datatype Selection = Selection(
    regions: seq<string>,
    daysOfWeek: seq<string>,
    timesOfDay: seq<string>,
    genres: seq<string>,
    skillLevels: seq<string>,
    frequencies: seq<string>,
    advancedOnly: bool,
    notableOnly: bool)

  /** The names of the keys the panel writes. */
  datatype PanelKeys = PanelKeys(
    regions: string, dow: string, tod: string, genres: string,
    skill: string, freq: string, adv: string, notable: string)

  const PANEL_KEYS := PanelKeys("regions", "dow", "tod", "genres", "skill", "freq", "adv", "notable")

  /** The eight names are different. */
  predicate DistinctKeys(k: PanelKeys) {
    && k.regions != k.dow && k.regions != k.tod && k.regions != k.genres && k.regions != k.skill
    && k.regions != k.freq && k.regions != k.adv && k.regions != k.notable && k.dow != k.tod
    && k.dow != k.genres && k.dow != k.skill && k.dow != k.freq && k.dow != k.adv
    && k.dow != k.notable && k.tod != k.genres && k.tod != k.skill && k.tod != k.freq
    && k.tod != k.adv && k.tod != k.notable && k.genres != k.skill && k.genres != k.freq
    && k.genres != k.adv && k.genres != k.notable && k.skill != k.freq && k.skill != k.adv
    && k.skill != k.notable && k.freq != k.adv && k.freq != k.notable && k.adv != k.notable
  }

  /** `name` is one of the eight. */
  predicate IsPanelKey(k: PanelKeys, name: string) {
    || name == k.regions || name == k.dow || name == k.tod || name == k.genres
    || name == k.skill || name == k.freq || name == k.adv || name == k.notable
  }

  /** A flag is stored as "1" when it is on and not at all when it is off. */
  function AssignFlag(es: seq<Entry>, key: string, on: bool): (r: seq<Entry>)
    ensures ValuesOf(r, key) == if on then ["1"] else []
    ensures forall k {:trigger ValuesOf(r, k)} :: k != key ==> ValuesOf(r, k) == ValuesOf(es, k)
  {
    if on then Assign(es, key, "1") else Without(es, key)
  }

  /** The writes of `applyFilters`, in its order, under the key names `k`. */
  function WriteSelection(es: seq<Entry>, k: PanelKeys, sel: Selection): seq<Entry> {
    var q1 := AssignList(es, k.regions, sel.regions);
    var q2 := AssignList(q1, k.dow, sel.daysOfWeek);
    var q3 := AssignList(q2, k.tod, sel.timesOfDay);
    var q4 := AssignList(q3, k.genres, sel.genres);
    var q5 := AssignList(q4, k.skill, sel.skillLevels);
    var q6 := AssignList(q5, k.freq, sel.frequencies);
    var q7 := AssignFlag(q6, k.adv, sel.advancedOnly);
    AssignFlag(q7, k.notable, sel.notableOnly)
  }

  /** The query after the panel has written its selections into `es`. */
  function Applied(es: seq<Entry>, sel: Selection): seq<Entry> {
    WriteSelection(es, PANEL_KEYS, sel)
  }

  /** `setList`. */
  method SetList(params: UrlSearchParams, key: string, list: seq<string>)
    modifies params
    ensures params.entries == AssignList(old(params.entries), key, list)
  {
    if |list| > 0 {
      params.Set(key, Join(list, ','));
    } else {
      params.Delete(key);
    }
  }

  /** `applyFilters`: the target of the navigation, "/" when the resulting
      query is empty. */
  method ApplyFilters(searchParams: seq<Entry>, sel: Selection) returns (target: string)
    ensures Applied(searchParams, sel) == [] ==> target == "/"
    ensures Applied(searchParams, sel) != [] ==> target == "/?" + Serialize(Applied(searchParams, sel))
  {
    var params := new UrlSearchParams(searchParams);
    SetList(params, "regions", sel.regions);
    SetList(params, "dow", sel.daysOfWeek);
    SetList(params, "tod", sel.timesOfDay);
    SetList(params, "genres", sel.genres);
    SetList(params, "skill", sel.skillLevels);
    SetList(params, "freq", sel.frequencies);
    if sel.advancedOnly {
      params.Set("adv", "1");
    } else {
      params.Delete("adv");
    }
    if sel.notableOnly {
      params.Set("notable", "1");
    } else {
      params.Delete("notable");
    }
    var qs := params.ToString();
    SerializeEmpty(params.entries);
    target := if qs != "" then "/?" + qs else "/";
  }

  /** The value a list key ends up with. */
  function ListValues(list: seq<string>): seq<string> {
    if |list| > 0 then [Join(list, ',')] else []
  }

  /** Under any eight different key names, each list key ends up with the
      comma-join of its selection, or nothing when the selection is empty;
      each flag with "1" exactly when it is on; and every other key keeps
      all its values. */
  lemma WrittenKeys(es: seq<Entry>, k: PanelKeys, sel: Selection, other: string)
    requires DistinctKeys(k)
    ensures ValuesOf(WriteSelection(es, k, sel), k.regions) == ListValues(sel.regions)
    ensures ValuesOf(WriteSelection(es, k, sel), k.dow) == ListValues(sel.daysOfWeek)
    ensures ValuesOf(WriteSelection(es, k, sel), k.tod) == ListValues(sel.timesOfDay)
    ensures ValuesOf(WriteSelection(es, k, sel), k.genres) == ListValues(sel.genres)
    ensures ValuesOf(WriteSelection(es, k, sel), k.skill) == ListValues(sel.skillLevels)
    ensures ValuesOf(WriteSelection(es, k, sel), k.freq) == ListValues(sel.frequencies)
    ensures ValuesOf(WriteSelection(es, k, sel), k.adv) == if sel.advancedOnly then ["1"] else []
    ensures ValuesOf(WriteSelection(es, k, sel), k.notable) == if sel.notableOnly then ["1"] else []
    ensures !IsPanelKey(k, other) ==> ValuesOf(WriteSelection(es, k, sel), other) == ValuesOf(es, other)
  {
    var q1 := AssignList(es, k.regions, sel.regions);
    var q2 := AssignList(q1, k.dow, sel.daysOfWeek);
    var q3 := AssignList(q2, k.tod, sel.timesOfDay);
    var q4 := AssignList(q3, k.genres, sel.genres);
    var q5 := AssignList(q4, k.skill, sel.skillLevels);
    var q6 := AssignList(q5, k.freq, sel.frequencies);
    var q7 := AssignFlag(q6, k.adv, sel.advancedOnly);
    var q8 := AssignFlag(q7, k.notable, sel.notableOnly);
    assert WriteSelection(es, k, sel) == q8;
    assert ValuesOf(q8, k.regions) == ValuesOf(q1, k.regions) by {
      assert ValuesOf(q3, k.regions) == ValuesOf(q1, k.regions);
      assert ValuesOf(q6, k.regions) == ValuesOf(q3, k.regions);
    }
    assert ValuesOf(q8, k.dow) == ValuesOf(q2, k.dow) by {
      assert ValuesOf(q5, k.dow) == ValuesOf(q2, k.dow);
    }
    assert ValuesOf(q8, k.tod) == ValuesOf(q3, k.tod) by {
      assert ValuesOf(q6, k.tod) == ValuesOf(q3, k.tod);
    }
    assert ValuesOf(q8, k.genres) == ValuesOf(q4, k.genres);
    assert ValuesOf(q8, k.skill) == ValuesOf(q5, k.skill);
    assert ValuesOf(q8, k.freq) == ValuesOf(q6, k.freq);
    if !IsPanelKey(k, other) {
      assert ValuesOf(q2, other) == ValuesOf(es, other);
      assert ValuesOf(q4, other) == ValuesOf(q2, other);
      assert ValuesOf(q6, other) == ValuesOf(q4, other);
      assert ValuesOf(q8, other) == ValuesOf(q6, other);
    }
  }

  /** Each list key holds the comma-join of its selection, or nothing when
      the selection is empty; "adv" and "notable" hold "1" exactly when
      their flag is on; every key the panel does not manage keeps all its
      values. */
  lemma AppliedKeys(es: seq<Entry>, sel: Selection, other: string)
    ensures ValuesOf(Applied(es, sel), "regions") == ListValues(sel.regions)
    ensures ValuesOf(Applied(es, sel), "dow") == ListValues(sel.daysOfWeek)
    ensures ValuesOf(Applied(es, sel), "tod") == ListValues(sel.timesOfDay)
    ensures ValuesOf(Applied(es, sel), "genres") == ListValues(sel.genres)
    ensures ValuesOf(Applied(es, sel), "skill") == ListValues(sel.skillLevels)
    ensures ValuesOf(Applied(es, sel), "freq") == ListValues(sel.frequencies)
    ensures ValuesOf(Applied(es, sel), "adv") == if sel.advancedOnly then ["1"] else []
    ensures ValuesOf(Applied(es, sel), "notable") == if sel.notableOnly then ["1"] else []
    ensures !IsPanelKey(PANEL_KEYS, other) ==> ValuesOf(Applied(es, sel), other) == ValuesOf(es, other)
  {
    WrittenKeys(es, PANEL_KEYS, sel, other);
  }

  /** With nothing in the query and nothing selected the target is "/". */
  lemma NothingToApply()
    ensures Applied([], Selection([], [], [], [], [], [], false, false)) == []
  {
  }
}
