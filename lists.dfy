/**
  Order-keeping list operations shared by the pages: `Array.prototype.filter`
  and the add-or-remove toggle of a selected value (`toggleInList` of
  app/FiltersPanel.tsx, written out again inline in `toggleListParam` of
  app/RegionFilter.tsx).
*/
module Lists {

  /** The elements of `xs` that `keep` holds for, in their order
      (`Array.prototype.filter`). */
  function Filter<T>(xs: seq<T>, keep: T -> bool): (r: seq<T>)
    ensures |r| <= |xs|
    decreases |xs|
  {
    if |xs| == 0 then []
    else Filter(xs[..|xs| - 1], keep) + (if keep(xs[|xs| - 1]) then [xs[|xs| - 1]] else [])
  }

  /** An element is kept exactly when it is there and `keep` holds for it. */
  lemma {:induction false} FilterMembers<T>(xs: seq<T>, keep: T -> bool, x: T)
    ensures x in Filter(xs, keep) <==> x in xs && keep(x)
    decreases |xs|
  {
    if |xs| > 0 {
      FilterMembers(xs[..|xs| - 1], keep, x);
      assert xs == xs[..|xs| - 1] + [xs[|xs| - 1]];
    }
  }

  /** Filtering keeps the order: the kept part of a concatenation is the
      kept part of each side, one after the other. */
  lemma {:induction false} FilterAppend<T>(xs: seq<T>, ys: seq<T>, keep: T -> bool)
    ensures Filter(xs + ys, keep) == Filter(xs, keep) + Filter(ys, keep)
    decreases |ys|
  {
    if |ys| > 0 {
      assert (xs + ys)[..|xs + ys| - 1] == xs + ys[..|ys| - 1];
      FilterAppend(xs, ys[..|ys| - 1], keep);
    } else {
      assert xs + ys == xs;
    }
  }

  /** Two tests that agree everywhere keep the same elements. */
  lemma {:induction false} FilterAgrees<T>(xs: seq<T>, f: T -> bool, g: T -> bool)
    requires forall x :: f(x) == g(x)
    ensures Filter(xs, f) == Filter(xs, g)
    decreases |xs|
  {
    if |xs| > 0 {
      FilterAgrees(xs[..|xs| - 1], f, g);
    }
  }


  /** Filtering when every element is kept changes nothing. */
  lemma {:induction false} FilterAll<T>(xs: seq<T>, keep: T -> bool)
    requires forall i :: 0 <= i < |xs| ==> keep(xs[i])
    ensures Filter(xs, keep) == xs
    decreases |xs|
  {
    if |xs| > 0 {
      FilterAll(xs[..|xs| - 1], keep);
      assert xs == xs[..|xs| - 1] + [xs[|xs| - 1]];
    }
  }

  /** Filtering twice by the same test is filtering once. */
  lemma FilterTwice<T>(xs: seq<T>, keep: T -> bool)
    ensures Filter(Filter(xs, keep), keep) == Filter(xs, keep)
  {
    var r := Filter(xs, keep);
    forall i | 0 <= i < |r| ensures keep(r[i]) {
      FilterMembers(xs, keep, r[i]);
    }
    FilterAll(r, keep);
  }

  // ---------------------------------------------------------------------
  // Toggling a selected value
  // ---------------------------------------------------------------------

  /** A value already in the list is removed, every copy of it; a value not
      in the list is added at the end. */
  function ToggleInList<T(==)>(list: seq<T>, value: T): seq<T> {
    if value in list then Filter(list, v => v != value) else list + [value]
  }

  /** After the toggle the value is there exactly when it was not there
      before; every other value is there exactly when it was before. */
  lemma ToggleMembers<T>(list: seq<T>, value: T, x: T)
    ensures x in ToggleInList(list, value) <==> if x == value then value !in list else x in list
  {
    if value in list {
      FilterMembers(list, v => v != value, x);
    }
  }

  /** The other values keep their order: apart from the toggled value, the
      list is what it was. */
  lemma ToggleKeepsOthers<T>(list: seq<T>, value: T)
    ensures Filter(ToggleInList(list, value), v => v != value) == Filter(list, v => v != value)
  {
    var others := v => v != value;
    if value in list {
      FilterTwice(list, others);
    } else {
      FilterAppend(list, [value], others);
      assert Filter([value], others) == Filter([], others) + [];
    }
  }

  /** Toggling a value that is not in the list twice gives the list back. */
  lemma ToggleAbsentTwice<T>(list: seq<T>, value: T)
    requires value !in list
    ensures ToggleInList(ToggleInList(list, value), value) == list
  {
    var others := v => v != value;
    assert value in list + [value];
    FilterAppend(list, [value], others);
    assert Filter([value], others) == Filter([], others) + [];
    FilterAll(list, others);
  }
}
