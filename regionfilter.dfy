/**
  The URL logic of the filter drawer in app/RegionFilter.tsx: reading a
  selected list from the query, cleaning the page path, building the path
  to navigate to, and what toggling a list value, toggling a flag and
  resetting do to the query.
*/
module RegionFilter {
  import opened Wrappers
  import opened Text
  import opened Lists
  import opened UrlParams
  import opened FilterConfig

  // ---------------------------------------------------------------------
  // Lists in the query
  // ---------------------------------------------------------------------

  /** `parseList`: an absent or empty value is the empty list, anything
      else its trimmed, non-empty comma-separated segments. */
  function ParseList(raw: Option<string>): (r: seq<string>)
    ensures raw.None? || raw == Some("") ==> r == []
    ensures forall x :: x in r ==> x != "" && IsTrimmed(x)
  {
    if raw.None? || raw.value == "" then [] else CommaList(raw.value)
  }

  /** A list of items written with `join(",")` reads back as itself. */
  lemma ParseListOfJoin(xs: seq<string>)
    requires forall i :: 0 <= i < |xs| ==> IsListItem(xs[i])
    ensures ParseList(Some(Join(xs, ','))) == xs
  {
    CommaListOfJoin(xs);
  }

  // ---------------------------------------------------------------------
  // Paths
  // ---------------------------------------------------------------------

  /** `normalizeBasePath`: trimmed, made to start with "/", and one trailing
      "/" dropped unless the path is "/" itself. */
  function NormalizeBasePath(basePath: Option<string>): (path: string)
    ensures |path| >= 1 && path[0] == '/'
  {
    if basePath.None? || basePath.value == "" then "/"
    else
      var trimmed := Trim(basePath.value);
      var rooted := if StartsWith(trimmed, "/") then trimmed else "/" + trimmed;
      var cut := if |rooted| > 1 && EndsWith(rooted, "/") then rooted[..|rooted| - 1] else rooted;
      if cut == "" then "/" else cut
  }

  /** Absent, empty or white space only gives the root. */
  lemma BlankBasePath(raw: string)
    requires AllSpace(raw)
    ensures NormalizeBasePath(Some(raw)) == "/"
  {
    if raw != "" {
      assert Trim(raw) == "";
      assert !StartsWith("", "/");
    }
  }

  /** A trimmed path that starts with "/" and does not end with one (or is
      "/") is kept as it is. */
  lemma CleanPathKept(p: string)
    requires IsTrimmed(p) && StartsWith(p, "/") && (p == "/" || !EndsWith(p, "/"))
    ensures NormalizeBasePath(Some(p)) == p
  {
    TrimmedIsFixed(p);
  }

  /** Exactly one trailing "/" is dropped: `p + "/"` becomes `p` for every
      trimmed `p` starting with "/" ("//" becomes "/", "/a//" becomes
      "/a/"). */
  lemma TrailingSlashDropped(p: string)
    requires IsTrimmed(p) && StartsWith(p, "/")
    ensures NormalizeBasePath(Some(p + "/")) == p
  {
    var q := p + "/";
    assert q[0] == '/' && q[|q| - 1] == '/';
    TrimmedIsFixed(q);
    assert q[..|p|] == p;
    assert StartsWith(q, "/");
    assert q[|q| - 1..] == "/";
    assert q[..|q| - 1] == p;
  }

  /** A missing leading "/" is added: the path means the same with it. */
  lemma LeadingSlashAdded(p: string)
    requires p != "" && IsTrimmed(p) && p[0] != '/'
    ensures NormalizeBasePath(Some(p)) == NormalizeBasePath(Some("/" + p))
  {
    var q := "/" + p;
    assert q[|q| - 1] == p[|p| - 1];
    TrimmedIsFixed(p);
    TrimmedIsFixed(q);
    assert q[..1] == "/";
  }

  /** `buildPath`: the cleaned base, followed by "?" and the query only
      when there is one. */
  function BuildPath(basePath: string, es: seq<Entry>): (path: string)
    ensures es == [] ==> path == NormalizeBasePath(Some(basePath))
    ensures es != [] ==> path == NormalizeBasePath(Some(basePath)) + "?" + Serialize(es)
  {
    var cleanBase := NormalizeBasePath(Some(basePath));
    SerializeEmpty(es);
    if Serialize(es) != "" then cleanBase + "?" + Serialize(es) else cleanBase
  }

  // ---------------------------------------------------------------------
  // Toggling
  // ---------------------------------------------------------------------

  /** `toggleListParam`: where the drawer navigates when `value` is ticked
      or unticked in the list `current` stored under `key`. */
  method ToggleListParam(key: string, value: string, current: seq<string>, searchParams: seq<Entry>, basePath: string)
    returns (path: string)
    ensures path == BuildPath(basePath, AssignList(searchParams, key, ToggleInList(current, value)))
  {
    var next := ToggleInList(current, value);
    var params := new UrlSearchParams(searchParams);
    if |next| > 0 {
      params.Set(key, Join(next, ','));
    } else {
      params.Delete(key);
    }
    path := BuildPath(basePath, params.entries);
  }

  /** After a toggle the page reads back exactly the toggled list, when the
      list and the value are items a comma-separated list can hold. */
  lemma ToggledListReadsBack(es: seq<Entry>, key: string, value: string, current: seq<string>)
    requires forall i :: 0 <= i < |current| ==> IsListItem(current[i])
    requires IsListItem(value)
    ensures ParseList(Lookup(AssignList(es, key, ToggleInList(current, value)), key)) == ToggleInList(current, value)
  {
    var next := ToggleInList(current, value);
    forall i | 0 <= i < |next| ensures IsListItem(next[i]) {
      ToggleMembers(current, value, next[i]);
    }
    if |next| > 0 {
      ParseListOfJoin(next);
    }
  }

  /** The query after a flag toggle: a flag that is on ("1") is removed,
      any other value or none becomes "1". */
  function ToggledFlag(es: seq<Entry>, key: string): (r: seq<Entry>)
    ensures Lookup(r, key) == Some("1") <==> Lookup(es, key) != Some("1")
    ensures Lookup(r, key) != Some("1") ==> ValuesOf(r, key) == []
    ensures forall k {:trigger ValuesOf(r, k)} :: k != key ==> ValuesOf(r, k) == ValuesOf(es, k)
  {
    if Lookup(es, key) == Some("1") then Without(es, key) else Assign(es, key, "1")
  }

  /** `toggleBooleanParam`: where the drawer navigates when the flag `key`
      is switched. */
  method ToggleBooleanParam(key: string, searchParams: seq<Entry>, basePath: string) returns (path: string)
    ensures path == BuildPath(basePath, ToggledFlag(searchParams, key))
  {
    var params := new UrlSearchParams(searchParams);
    var current := params.Get(key) == Some("1");
    if current {
      params.Delete(key);
    } else {
      params.Set(key, "1");
    }
    path := BuildPath(basePath, params.entries);
  }

  /** Switching a flag that is not in the query on and off again gives the
      query back. */
  lemma FlagToggleTwice(es: seq<Entry>, key: string)
    requires ValuesOf(es, key) == []
    ensures ToggledFlag(ToggledFlag(es, key), key) == es
  {
    WithoutAssign(es, key, "1");
    WithoutAbsent(es, key);
  }

  /** `resetAll`: the page path with no query at all. The path the page
      is on is cleaned twice, once for the drawer and once by `buildPath`. */
  function ResetAll(pathname: Option<string>): (path: string)
    ensures |path| >= 1 && path[0] == '/'
  {
    BuildPath(NormalizeBasePath(pathname), [])
  }

  /** On a clean path, resetting stays on that path. */
  lemma ResetAllStays(p: string)
    requires IsTrimmed(p) && StartsWith(p, "/") && (p == "/" || !EndsWith(p, "/"))
    ensures ResetAll(Some(p)) == p
  {
    CleanPathKept(p);
  }

  /** Cleaning twice drops two trailing slashes. */
  lemma ResetAllDropsTwoSlashes()
    ensures ResetAll(Some("/jams//")) == "/jams"
  {
    TrailingSlashDropped("/jams/");
    TrailingSlashDropped("/jams");
    assert "/jams/" + "/" == "/jams//";
    assert "/jams" + "/" == "/jams/";
  }
}
