/**
  The browser's `URLSearchParams`, as the filter components use it: an
  ordered list of name-value pairs, with `get` (the first value of a name),
  `set` (the first pair of the name takes the new value and the others go;
  a new name goes at the end), `delete` (every pair of the name goes) and
  `toString`. Percent-encoding is not modelled: a pair serializes as
  `name=value`.
*/
module UrlParams {
  import opened Wrappers
  import opened Text

  type Entry = (string, string)

  /** The values stored under `name`, in order. */
  function ValuesOf(es: seq<Entry>, name: string): seq<string>
    decreases |es|
  {
    if |es| == 0 then []
    else (if es[0].0 == name then [es[0].1] else []) + ValuesOf(es[1..], name)
  }

  /** `get`: the first value stored under `name`, or nothing (`null`). */
  function Lookup(es: seq<Entry>, name: string): (r: Option<string>)
    ensures r.None? <==> ValuesOf(es, name) == []
    ensures r.Some? ==> r.value == ValuesOf(es, name)[0]
    decreases |es|
  {
    if |es| == 0 then None
    else if es[0].0 == name then Some(es[0].1)
    else Lookup(es[1..], name)
  }

  /** `delete`: the pairs named `name` go, the others stay in order. */
  function Without(es: seq<Entry>, name: string): (r: seq<Entry>)
    ensures ValuesOf(r, name) == []
    ensures forall k {:trigger ValuesOf(r, k)} :: k != name ==> ValuesOf(r, k) == ValuesOf(es, k)
    decreases |es|
  {
    if |es| == 0 then []
    else
      var rest := Without(es[1..], name);
      if es[0].0 == name then rest
      else
        assert ([es[0]] + rest)[1..] == rest;
        [es[0]] + rest
  }

  /** `set`: the first pair named `name` takes `value` and the later ones
      go; when there is none, the pair is added at the end. */
  function Assign(es: seq<Entry>, name: string, value: string): (r: seq<Entry>)
    ensures ValuesOf(r, name) == [value]
    ensures forall k {:trigger ValuesOf(r, k)} :: k != name ==> ValuesOf(r, k) == ValuesOf(es, k)
    decreases |es|
  {
    if |es| == 0 then
      assert ValuesOf([(name, value)], name) == [value] + ValuesOf([], name);
      [(name, value)]
    else if es[0].0 == name then
      var rest := Without(es[1..], name);
      assert ([(name, value)] + rest)[1..] == rest;
      [(name, value)] + rest
    else
      var rest := Assign(es[1..], name, value);
      assert ([es[0]] + rest)[1..] == rest;
      [es[0]] + rest
  }

  /** Deleting a name that is not there changes nothing. */
  lemma {:induction false} WithoutAbsent(es: seq<Entry>, name: string)
    requires ValuesOf(es, name) == []
    ensures Without(es, name) == es
    decreases |es|
  {
    if |es| > 0 {
      WithoutAbsent(es[1..], name);
    }
  }

  /** Setting a name that is not there appends one pair. */
  lemma {:induction false} AssignAbsent(es: seq<Entry>, name: string, value: string)
    requires ValuesOf(es, name) == []
    ensures Assign(es, name, value) == es + [(name, value)]
    decreases |es|
  {
    if |es| > 0 {
      AssignAbsent(es[1..], name, value);
      assert es + [(name, value)] == [es[0]] + (es[1..] + [(name, value)]);
    }
  }

  /** Deleting after setting is deleting. */
  lemma {:induction false} WithoutAssign(es: seq<Entry>, name: string, value: string)
    ensures Without(Assign(es, name, value), name) == Without(es, name)
    decreases |es|
  {
    if |es| > 0 {
      if es[0].0 == name {
        var rest := Without(es[1..], name);
        assert ([(name, value)] + rest)[1..] == rest;
        WithoutAbsent(rest, name);
      } else {
        var rest := Assign(es[1..], name, value);
        assert ([es[0]] + rest)[1..] == rest;
        WithoutAssign(es[1..], name, value);
      }
    }
  }

  /** How both filter components store a list under `key`: the comma-join
      when it has elements, no pair at all when it is empty. */
  function AssignList(es: seq<Entry>, key: string, list: seq<string>): (r: seq<Entry>)
    ensures ValuesOf(r, key) == if |list| > 0 then [Join(list, ',')] else []
    ensures forall k {:trigger ValuesOf(r, k)} :: k != key ==> ValuesOf(r, k) == ValuesOf(es, k)
  {
    if |list| > 0 then Assign(es, key, Join(list, ',')) else Without(es, key)
  }

  /** One pair as `toString` writes it. */
  function Pair(e: Entry): (s: string)
    ensures |s| >= 1
  {
    e.0 + "=" + e.1
  }

  /** `toString`: the pairs, `&`-separated. */
  function Serialize(es: seq<Entry>): string {
    Join(seq(|es|, i requires 0 <= i < |es| => Pair(es[i])), '&')
  }

  /** The query string is empty exactly when there are no pairs. */
  lemma SerializeEmpty(es: seq<Entry>)
    ensures Serialize(es) == "" <==> es == []
  {
    var pairs := seq(|es|, i requires 0 <= i < |es| => Pair(es[i]));
    JoinEmpty(pairs, '&');
  }

  /** A `URLSearchParams` object: its list of pairs changes in place. */
  class UrlSearchParams {
    var entries: seq<Entry>

    /** `new URLSearchParams(other.toString())`: a copy of the pairs. */
    constructor (init: seq<Entry>)
      ensures entries == init
    {
      entries := init;
    }

    function Get(name: string): Option<string>
      reads this
    {
      Lookup(entries, name)
    }

    function ToString(): string
      reads this
    {
      Serialize(entries)
    }

    method Set(name: string, value: string)
      modifies this
      ensures entries == Assign(old(entries), name, value)
    {
      entries := Assign(entries, name, value);
    }

    method Delete(name: string)
      modifies this
      ensures entries == Without(old(entries), name)
    {
      entries := Without(entries, name);
    }
  }
}
