/**
  Which jams the site marks as notable (lib/jamUtils.ts): a few well-known
  jams recognised by their name or their venue.
*/
module JamUtils {
  import opened Wrappers
  import opened Text

  /** The fields of a jam the test looks at; each may be missing. */
  datatype JamPartial = JamPartial(eventName: Option<string>, venueName: Option<string>, city: Option<string>)

  /** `s || ""`: a missing string reads as the empty one. */
  function OrEmpty(s: Option<string>): (r: string)
    ensures s.None? ==> r == ""
    ensures s.Some? ==> r == s.value
  {
    if s.Some? then s.value else ""
  }

  /** `s?.toLowerCase() || ""`. */
  function LowerOrEmpty(s: Option<string>): (r: string)
    ensures s.None? ==> r == ""
    ensures s.Some? ==> r == ToLower(s.value)
  {
    if s.Some? then ToLower(s.value) else ""
  }

  const SAN_FRANCISCO := "San Francisco"

  /** `isNotable`: the Berkeley Bluegrass Barn and Graton Grass jams by
      name wherever they are, and any jam whose name or venue mentions
      Blondie's when it is in San Francisco (spelled exactly so). Name and
      venue are compared in lower case, the city is not. */
  function IsNotable(jam: JamPartial): bool {
    var name := LowerOrEmpty(jam.eventName);
    var venue := LowerOrEmpty(jam.venueName);
    var city := OrEmpty(jam.city);
    Contains(name, "berkeley bluegrass barn")
    || Contains(name, "graton grass")
    || (Contains(name, "blondie") && city == SAN_FRANCISCO)
    || (Contains(venue, "blondie") && city == SAN_FRANCISCO)
  }

  /** `t` occurs in `s` at position `i`. */
  predicate OccursAt(s: string, t: string, i: nat) {
    i + |t| <= |s| && s[i..i + |t|] == t
  }

  /** `t` occurs in `s` at some position. */
  ghost predicate Occurs(s: string, t: string) {
    exists i: nat :: OccursAt(s, t, i)
  }

  /** `includes` finds exactly the occurrences. */
  lemma ContainsOccurs(s: string, t: string)
    ensures Contains(s, t) <==> Occurs(s, t)
  {
    if Contains(s, t) {
      var i := ContainsWitness(s, t);
      assert OccursAt(s, t, i);
    }
    if Occurs(s, t) {
      var i: nat :| OccursAt(s, t, i);
      ContainsAt(s, t, i);
    }
  }

  /** The test, restated by occurrence: notable exactly when the lower-case
      name holds one of the two jams' names, or the lower-case name or
      venue holds "blondie" and the city is San Francisco. */
  lemma NotableByOccurrence(jam: JamPartial)
    ensures var name := LowerOrEmpty(jam.eventName);
            var venue := LowerOrEmpty(jam.venueName);
            IsNotable(jam) <==>
              Occurs(name, "berkeley bluegrass barn") || Occurs(name, "graton grass")
              || ((Occurs(name, "blondie") || Occurs(venue, "blondie")) && jam.city == Some(SAN_FRANCISCO))
  {
    var name := LowerOrEmpty(jam.eventName);
    var venue := LowerOrEmpty(jam.venueName);
    ContainsOccurs(name, "berkeley bluegrass barn");
    ContainsOccurs(name, "graton grass");
    ContainsOccurs(name, "blondie");
    ContainsOccurs(venue, "blondie");
  }

  /** Outside San Francisco (spelled exactly so), only the two jams' names
      count. */
  lemma BlondieNeedsSanFrancisco(jam: JamPartial)
    requires jam.city != Some(SAN_FRANCISCO)
    ensures IsNotable(jam) <==>
              Contains(LowerOrEmpty(jam.eventName), "berkeley bluegrass barn")
              || Contains(LowerOrEmpty(jam.eventName), "graton grass")
  {
    assert OrEmpty(jam.city) != SAN_FRANCISCO;
  }

  /** The venue alone never makes a jam notable outside San Francisco. */
  lemma VenueNeedsSanFrancisco(jam: JamPartial, venue: Option<string>)
    requires jam.city != Some(SAN_FRANCISCO)
    ensures IsNotable(jam.(venueName := venue)) == IsNotable(jam)
  {
    BlondieNeedsSanFrancisco(jam);
    BlondieNeedsSanFrancisco(jam.(venueName := venue));
  }

  /** Name and venue are read without regard to case. */
  lemma NotableIgnoresCase(a: JamPartial, b: JamPartial)
    requires LowerOrEmpty(a.eventName) == LowerOrEmpty(b.eventName)
    requires LowerOrEmpty(a.venueName) == LowerOrEmpty(b.venueName)
    requires OrEmpty(a.city) == OrEmpty(b.city)
    ensures IsNotable(a) == IsNotable(b)
  {
  }

  /** A capitalised name and its lower case agree. */
  lemma NameCaseIrrelevant(jam: JamPartial, name: string)
    ensures IsNotable(jam.(eventName := Some(name))) == IsNotable(jam.(eventName := Some(ToLower(name))))
  {
    ToLowerIdempotent(name);
  }

  /** A name that reads, in lower case, as the Graton Grass jam is notable
      wherever the jam is. */
  lemma GratonGrassNotable(jam: JamPartial, i: nat)
    requires jam.eventName.Some?
    requires i + 12 <= |jam.eventName.value|
    requires ToLower(jam.eventName.value)[i..i + 12] == "graton grass"
    ensures IsNotable(jam)
  {
    ContainsAt(ToLower(jam.eventName.value), "graton grass", i);
  }

  /** A jam with no name, venue or city is not notable. */
  lemma NothingKnownNotNotable()
    ensures !IsNotable(JamPartial(None, None, None))
  {
    assert !Contains("", "berkeley bluegrass barn");
    assert !Contains("", "graton grass");
    assert !Contains("", "blondie");
  }
}
