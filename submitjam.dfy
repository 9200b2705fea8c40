/**
  The jam submission form (app/submit/page.tsx), its helpers: the
  normalisation of its text fields (`nullIfEmpty`) and the reading of the
  start and end times into the database's `HH:MM:SS` form
  (`parseTimeToDb`). The checks made before sending and the record sent are
  in `SubmitForm`.
*/
module SubmitJam {
  import opened Wrappers
  import opened Text

  // ---------------------------------------------------------------------
  // Text fields
  // ---------------------------------------------------------------------

  /** `nullIfEmpty`: a blank field is `null`, any other is trimmed. */
  function NullIfEmpty(val: string): (r: Option<string>)
    ensures r.None? <==> AllSpace(val)
    ensures r.Some? ==> r.value == Trim(val) && r.value != "" && IsTrimmed(r.value)
  {
    var trimmed := Trim(val);
    if trimmed == "" then None else Some(trimmed)
  }

  /** A field that is already trimmed and not empty is kept as it is. */
  lemma NullIfEmptyKeeps(val: string)
    requires val != "" && IsTrimmed(val)
    ensures NullIfEmpty(val) == Some(val)
  {
    TrimmedIsFixed(val);
  }

  // ---------------------------------------------------------------------
  // Times
  // ---------------------------------------------------------------------

  /** What `parseTimeToDb` returns: `null` (no time given), `undefined`
      (not a time) or the time as the database stores it. */
  datatype TimeResult = NoTime | BadTime | DbTime(value: string)

  /** The pattern `^(\d{1,2}):(\d{2})(?::(\d{2}))?$`: hours, minutes and
      seconds (0 when the seconds are left out). */
  function Match24(v: string): (r: Option<(nat, nat, nat)>)
    ensures r.Some? ==> r.value.0 < 100 && r.value.1 < 100 && r.value.2 < 100
  {
    var e := SkipDigits(v, 0);
    if !(1 <= e <= 2) || |v| < e + 3 || v[e] != ':' then None
    else
      DecimalValueBound(v, 0, e);
      DecimalValueBound(v, e + 1, e + 3);
      match (DecimalValue(v, 0, e), DecimalValue(v, e + 1, e + 3))
      case (Some(h), Some(m)) =>
        if |v| == e + 3 then Some((h, m, 0))
        else if |v| == e + 6 && v[e + 3] == ':' then
          DecimalValueBound(v, e + 4, e + 6);
          match DecimalValue(v, e + 4, e + 6)
          case Some(s) => Some((h, m, s))
          case None => None
        else None
      case _ => None
  }

  /** The pattern `^(\d{1,2})(?::(\d{2}))?\s*(am|pm)$`, letter case
      ignored: hours, minutes (0 when left out) and whether it is pm. */
  function Match12(v: string): (r: Option<(nat, nat, bool)>)
    ensures r.Some? ==> r.value.0 < 100 && r.value.1 < 100
  {
    var e := SkipDigits(v, 0);
    if !(1 <= e <= 2) then None
    else
      var withMinutes := e + 3 <= |v| && v[e] == ':' && IsDigit(v[e + 1]) && IsDigit(v[e + 2]);
      var p := if withMinutes then e + 3 else e;
      var q := SkipSpace(v, p);
      if |v| != q + 2 then None
      else
        var suffix := ToLower(v[q..]);
        if suffix != "am" && suffix != "pm" then None
        else
          DecimalValueBound(v, 0, e);
          match DecimalValue(v, 0, e)
          case None => None
          case Some(h) => Some((h, MinutesAt(v, e, withMinutes), suffix == "pm"))
  }

  /** The minutes of a 12-hour time: the two digits after the colon when
      there are any, else 0. */
  function MinutesAt(v: string, e: nat, withMinutes: bool): (m: nat)
    requires withMinutes ==> e + 3 <= |v|
    ensures m < 100
  {
    if withMinutes then
      DecimalValueBound(v, e + 1, e + 3);
      DecimalValue(v, e + 1, e + 3).GetOr(0)
    else 0
  }

  /** The hour of the day a 12-hour time names: 12 counts as 0, and pm
      adds 12 (so "13 am" is hour 13 and "13 pm" hour 25). */
  function Hour24(h12: nat, pm: bool): nat {
    var h0 := if h12 == 12 then 0 else h12;
    if pm then h0 + 12 else h0
  }

  /** `parseTimeToDb`: nothing or white space is no time; otherwise the
      trimmed input is read by the two patterns. */
  function ParseTimeToDb(raw: Option<string>): TimeResult {
    if raw.None? then NoTime
    else
      var val := Trim(raw.value);
      if val == "" then NoTime else ParseTrimmed(val)
  }

  /** A 24-hour time within range, or else a 12-hour one within range, is
      written `HH:MM:SS`; anything else is not a time. */
  function ParseTrimmed(val: string): TimeResult {
    FromMatches(Match24(val), Match12(val))
  }

  /** The 24-hour reading when it matched within range, else the 12-hour
      one. */
  function FromMatches(m24: Option<(nat, nat, nat)>, m12: Option<(nat, nat, bool)>): TimeResult {
    if m24.Some? && m24.value.0 <= 23 && m24.value.1 <= 59 && m24.value.2 <= 59 then
      DbTime(Pad2(m24.value.0) + ":" + Pad2(m24.value.1) + ":" + Pad2(m24.value.2))
    else From12(m12)
  }

  /** The result of the 12-hour pattern: the hour its suffix names, and
      the minutes, when both are in range. */
  function From12(m12: Option<(nat, nat, bool)>): TimeResult {
    match m12
    case None => BadTime
    case Some((h12, minutes, pm)) =>
      var hours := Hour24(h12, pm);
      if hours <= 23 && minutes <= 59 then DbTime(Pad2(hours) + ":" + Pad2(minutes) + ":00")
      else BadTime
  }

  /** The value of two digits. */
  function TwoDigits(a: char, b: char): nat
    requires IsDigit(a) && IsDigit(b)
  {
    DigitValue(a) * 10 + DigitValue(b)
  }

  /** A time as the database stores it: `HH:MM:SS`, within range. */
  predicate IsDbTime(t: string) {
    && |t| == 8 && t[2] == ':' && t[5] == ':'
    && IsDigit(t[0]) && IsDigit(t[1]) && IsDigit(t[3]) && IsDigit(t[4]) && IsDigit(t[6]) && IsDigit(t[7])
    && TwoDigits(t[0], t[1]) <= 23 && TwoDigits(t[3], t[4]) <= 59 && TwoDigits(t[6], t[7]) <= 59
  }

  /** `HH:MM:SS` for hours, minutes and seconds within range. */
  function DbTimeOf(h: nat, m: nat, s: nat): (t: string)
    requires h <= 23 && m <= 59 && s <= 59
    ensures IsDbTime(t)
    ensures TwoDigits(t[0], t[1]) == h && TwoDigits(t[3], t[4]) == m && TwoDigits(t[6], t[7]) == s
  {
    Digits2(h) + ":" + Digits2(m) + ":" + Digits2(s)
  }

  /** The padded form is the two-digit form. */
  lemma PaddedTime(h: nat, m: nat, s: nat)
    requires h <= 23 && m <= 59 && s <= 59
    ensures Pad2(h) + ":" + Pad2(m) + ":" + Pad2(s) == DbTimeOf(h, m, s)
  {
    Pad2Digits(h);
    Pad2Digits(m);
    Pad2Digits(s);
  }

  /** No input at all, or white space only, is no time; nothing else is. */
  lemma NoTimeExactly(raw: Option<string>)
    ensures ParseTimeToDb(raw) == NoTime <==> raw.None? || AllSpace(raw.value)
  {
  }

  /** Every time produced is in the database's form. */
  lemma ParsedIsDbTime(raw: Option<string>)
    ensures ParseTimeToDb(raw).DbTime? ==> IsDbTime(ParseTimeToDb(raw).value)
  {
    if raw.Some? && Trim(raw.value) != "" {
      var val := Trim(raw.value);
      FromMatchesIsDbTime(Match24(val), Match12(val));
    }
  }

  /** What either pattern yields is in the database's form. */
  lemma FromMatchesIsDbTime(m24: Option<(nat, nat, nat)>, m12: Option<(nat, nat, bool)>)
    ensures FromMatches(m24, m12).DbTime? ==> IsDbTime(FromMatches(m24, m12).value)
  {
    if m24.Some? && m24.value.0 <= 23 && m24.value.1 <= 59 && m24.value.2 <= 59 {
      PaddedTime(m24.value.0, m24.value.1, m24.value.2);
    } else {
      From12IsDbTime(m12);
    }
  }

  /** The 12-hour result is a time in the database's form. */
  lemma From12IsDbTime(m12: Option<(nat, nat, bool)>)
    ensures From12(m12).DbTime? ==> IsDbTime(From12(m12).value)
  {
    if m12.Some? {
      From12Value(m12.value.0, m12.value.1, m12.value.2);
    }
  }

  /** The 12-hour result, in the database's form. */
  lemma From12Value(h12: nat, minutes: nat, pm: bool)
    ensures var hours := Hour24(h12, pm);
            From12(Some((h12, minutes, pm)))
              == if hours <= 23 && minutes <= 59 then DbTime(DbTimeOf(hours, minutes, 0)) else BadTime
  {
    var hours := Hour24(h12, pm);
    if hours <= 23 && minutes <= 59 {
      PaddedClock(hours, minutes);
    }
  }

  /** Hours and minutes padded, with zero seconds written out. */
  lemma PaddedClock(h: nat, m: nat)
    requires h <= 23 && m <= 59
    ensures Pad2(h) + ":" + Pad2(m) + ":00" == DbTimeOf(h, m, 0)
  {
    PaddedTime(h, m, 0);
    Pad2Digits(0);
    assert Digits2(0) == "00";
  }

  /** White space around the input does not matter. */
  lemma ParseIgnoresSurroundingSpace(raw: string)
    ensures ParseTimeToDb(Some(raw)) == ParseTimeToDb(Some(Trim(raw)))
  {
    TrimIdempotent(raw);
  }

  /** A digit written back from its value is the same digit. */
  lemma DigitRoundTrip(c: char)
    requires IsDigit(c)
    ensures DigitChar(DigitValue(c)) == c
  {
  }

  /** Two digits written back from their value are the same digits. */
  lemma TwoDigitsRoundTrip(a: char, b: char)
    requires IsDigit(a) && IsDigit(b)
    ensures Digits2(TwoDigits(a, b)) == [a, b]
  {
    var n := TwoDigits(a, b);
    assert n / 10 == DigitValue(a) && n % 10 == DigitValue(b);
    DigitRoundTrip(a);
    DigitRoundTrip(b);
  }

  /** The digits `v[lo..hi]`, read as a number. */
  lemma DecimalOfDigits(v: string, lo: nat, hi: nat)
    requires lo <= hi <= |v| && AllDigits(v[lo..hi])
    ensures DecimalValue(v, lo, hi) == Some(DigitsValue(v[lo..hi]))
  {
    DecimalValueDigits(v, lo, hi);
  }

  /** Two digits, read as a number. */
  lemma DecimalOfTwo(v: string, lo: nat)
    requires lo + 2 <= |v| && IsDigit(v[lo]) && IsDigit(v[lo + 1])
    ensures DecimalValue(v, lo, lo + 2) == Some(TwoDigits(v[lo], v[lo + 1]))
  {
    assert DecimalValue(v, lo, lo) == Some(0);
    assert DecimalValue(v, lo, lo + 1) == Some(DigitValue(v[lo]));
  }

  /** A stored time matches the 24-hour pattern with its own fields. */
  lemma DbTimeMatches24(t: string)
    requires IsDbTime(t)
    ensures Match24(t) == Some((TwoDigits(t[0], t[1]), TwoDigits(t[3], t[4]), TwoDigits(t[6], t[7])))
  {
    assert SkipDigits(t, 2) == 2;
    assert SkipDigits(t, 0) == 2;
    DecimalOfTwo(t, 0);
    DecimalOfTwo(t, 3);
    DecimalOfTwo(t, 6);
  }

  /** A stored time is written back from its fields unchanged. */
  lemma DbTimeOfFields(t: string)
    requires IsDbTime(t)
    ensures DbTimeOf(TwoDigits(t[0], t[1]), TwoDigits(t[3], t[4]), TwoDigits(t[6], t[7])) == t
  {
    TwoDigitsRoundTrip(t[0], t[1]);
    TwoDigitsRoundTrip(t[3], t[4]);
    TwoDigitsRoundTrip(t[6], t[7]);
    assert t == [t[0], t[1]] + ":" + [t[3], t[4]] + ":" + [t[6], t[7]];
  }

  /** A trimmed input that matches the 24-hour pattern within range is
      written from its fields. */
  lemma Parse24InRange(v: string, h: nat, m: nat, s: nat)
    requires IsTrimmed(v) && v != ""
    requires Match24(v) == Some((h, m, s)) && h <= 23 && m <= 59 && s <= 59
    ensures ParseTimeToDb(Some(v)) == DbTime(DbTimeOf(h, m, s))
  {
    TrimmedIsFixed(v);
    PaddedTime(h, m, s);
  }

  /** Idempotence: a stored time reads back as itself. */
  lemma DbTimeReparses(t: string)
    requires IsDbTime(t)
    ensures ParseTimeToDb(Some(t)) == DbTime(t)
  {
    assert !IsSpace(t[0]) && !IsSpace(t[7]);
    DbTimeMatches24(t);
    Parse24InRange(t, TwoDigits(t[0], t[1]), TwoDigits(t[3], t[4]), TwoDigits(t[6], t[7]));
    DbTimeOfFields(t);
  }

  /** Idempotence: whatever time is produced reads back as itself. */
  lemma ParseTimeIdempotent(raw: Option<string>)
    requires ParseTimeToDb(raw).DbTime?
    ensures ParseTimeToDb(Some(ParseTimeToDb(raw).value)) == ParseTimeToDb(raw)
  {
    ParsedIsDbTime(raw);
    DbTimeReparses(ParseTimeToDb(raw).value);
  }

  // ---------------------------------------------------------------------
  // The accepted forms, spelled out
  // ---------------------------------------------------------------------

  /** The parts of a 24-hour time: one or two digits of hours, two of
      minutes and, optionally, two of seconds. */
  predicate Is24Parts(hh: string, mm: string, ss: Option<string>) {
    && 1 <= |hh| <= 2 && AllDigits(hh)
    && |mm| == 2 && AllDigits(mm)
    && (ss.Some? ==> |ss.value| == 2 && AllDigits(ss.value))
  }

  /** `hh:mm` or `hh:mm:ss`. */
  function Text24(hh: string, mm: string, ss: Option<string>): string {
    hh + ":" + mm + (if ss.Some? then ":" + ss.value else "")
  }

  /** The seconds of a 24-hour time: 0 when left out. */
  function SecondsOf(ss: Option<string>): nat
    requires ss.Some? ==> AllDigits(ss.value)
  {
    if ss.Some? then DigitsValue(ss.value) else 0
  }

  /** The 24-hour pattern, read off its positions: hours end at `e`,
      then `:` and the minutes, then nothing or `:` and the seconds. */
  lemma Match24At(v: string, e: nat, h: nat, m: nat, s: nat)
    requires 1 <= e <= 2 && SkipDigits(v, 0) == e && e + 3 <= |v| && v[e] == ':'
    requires DecimalValue(v, 0, e) == Some(h) && DecimalValue(v, e + 1, e + 3) == Some(m)
    requires |v| == e + 3 ==> s == 0
    requires |v| != e + 3 ==> |v| == e + 6 && v[e + 3] == ':' && DecimalValue(v, e + 4, e + 6) == Some(s)
    ensures Match24(v) == Some((h, m, s))
  {
  }

  /** The 24-hour pattern reads exactly these parts. */
  lemma Match24Parts(hh: string, mm: string, ss: Option<string>)
    requires Is24Parts(hh, mm, ss)
    ensures Match24(Text24(hh, mm, ss)) == Some((DigitsValue(hh), DigitsValue(mm), SecondsOf(ss)))
  {
    var rest := if ss.Some? then ":" + ss.value else "";
    Concat4(hh, ":", mm, rest);
    var v := Text24(hh, mm, ss);
    assert v == hh + ":" + mm + rest;
    var e := |hh|;
    assert v[e] == ':';
    forall j | 0 <= j < e ensures IsDigit(v[j]) {
      assert v[j] == v[..e][j];
    }
    SkipDigitsAt(v, 0, e);
    assert v[0..e] == hh;
    DecimalOfDigits(v, 0, e);
    DecimalOfDigits(v, e + 1, e + 3);
    if ss.Some? {
      assert v[e + 3] == rest[0];
      assert v[e + 4..e + 6] == rest[1..];
      DecimalOfDigits(v, e + 4, e + 6);
    }
    Match24At(v, e, DigitsValue(hh), DigitsValue(mm), SecondsOf(ss));
  }

  /** Whatever matches the 24-hour pattern ends in a digit. */
  lemma Match24EndsInDigit(v: string)
    requires Match24(v).Some?
    ensures |v| > 0 && IsDigit(v[|v| - 1])
  {
    var e := SkipDigits(v, 0);
    if |v| == e + 3 {
      DecimalValueDigits(v, e + 1, e + 3);
      assert v[e + 1..e + 3][1] == v[|v| - 1];
    } else {
      DecimalValueDigits(v, e + 4, e + 6);
      assert v[e + 4..e + 6][1] == v[|v| - 1];
    }
  }

  /** Whatever matches the 12-hour pattern ends in `m` or `M`. */
  lemma Match12EndsInM(v: string)
    requires Match12(v).Some?
    ensures |v| > 0 && LowerChar(v[|v| - 1]) == 'm' && !IsDigit(v[|v| - 1])
  {
    Match12Bounds(v);
    var e := SkipDigits(v, 0);
    var withMinutes := e + 3 <= |v| && v[e] == ':' && IsDigit(v[e + 1]) && IsDigit(v[e + 2]);
    SuffixEndsInM(v, SkipSpace(v, if withMinutes then e + 3 else e));
  }

  /** A string ending in "am" or "pm", in either case, ends in a letter m. */
  lemma SuffixEndsInM(v: string, q: nat)
    requires |v| == q + 2
    requires ToLower(v[q..]) == "am" || ToLower(v[q..]) == "pm"
    ensures LowerChar(v[|v| - 1]) == 'm' && !IsDigit(v[|v| - 1])
  {
    assert ToLower(v[q..])[1] == LowerChar(v[|v| - 1]);
  }

  /** A 24-hour time within range is written `HH:MM:SS` (seconds 00 when
      left out); out of range it is not a time. */
  lemma TwentyFourHour(hh: string, mm: string, ss: Option<string>)
    requires Is24Parts(hh, mm, ss)
    ensures var h, m, s := DigitsValue(hh), DigitsValue(mm), SecondsOf(ss);
            ParseTimeToDb(Some(Text24(hh, mm, ss)))
              == if h <= 23 && m <= 59 && s <= 59 then DbTime(DbTimeOf(h, m, s)) else BadTime
  {
    var v := Text24(hh, mm, ss);
    var h, m, s := DigitsValue(hh), DigitsValue(mm), SecondsOf(ss);
    Match24Parts(hh, mm, ss);
    Match24EndsInDigit(v);
    assert v[0] == hh[0];
    if h <= 23 && m <= 59 && s <= 59 {
      Parse24InRange(v, h, m, s);
    } else {
      ParseTrimmedInput(v);
      if Match12(v).Some? {
        Match12EndsInM(v);
      }
    }
  }

  /** Trimmed, non-empty input goes straight to the two patterns. */
  lemma ParseTrimmedInput(v: string)
    requires IsTrimmed(v) && v != ""
    ensures ParseTimeToDb(Some(v)) == FromMatches(Match24(v), Match12(v))
  {
    TrimmedIsFixed(v);
  }

  /** The parts of a 12-hour time: one or two digits of hours, optionally
      two of minutes, any white space, and `am` or `pm` in either case. */
  predicate Is12Parts(hh: string, mm: Option<string>, sp: string, suffix: string) {
    && 1 <= |hh| <= 2 && AllDigits(hh)
    && (mm.Some? ==> |mm.value| == 2 && AllDigits(mm.value))
    && AllSpace(sp)
    && (ToLower(suffix) == "am" || ToLower(suffix) == "pm")
  }

  /** `hh[:mm]`, white space, then the suffix. */
  function Text12(hh: string, mm: Option<string>, sp: string, suffix: string): string {
    hh + (if mm.Some? then ":" + mm.value else "") + sp + suffix
  }

  /** The minutes of a 12-hour time: 0 when left out. */
  function MinutesOf(mm: Option<string>): nat
    requires mm.Some? ==> AllDigits(mm.value)
  {
    if mm.Some? then DigitsValue(mm.value) else 0
  }

  /** The first letter of the suffix is `a` or `p` in either case. */
  lemma SuffixStart(suffix: string)
    requires ToLower(suffix) == "am" || ToLower(suffix) == "pm"
    ensures |suffix| == 2 && !IsDigit(suffix[0]) && !IsSpace(suffix[0]) && suffix[0] != ':'
    ensures !IsSpace(suffix[1])
  {
    assert LowerChar(suffix[0]) == ToLower(suffix)[0];
    assert LowerChar(suffix[1]) == ToLower(suffix)[1];
  }

  /** The 12-hour pattern, read off its positions: hours end at `e`, the
      minutes are there or not, and white space runs from `p` to `q`. */
  lemma Match12At(v: string, e: nat, withMinutes: bool, q: nat, h: nat, m: nat)
    requires 1 <= e <= 2 && SkipDigits(v, 0) == e
    requires withMinutes <==> e + 3 <= |v| && v[e] == ':' && IsDigit(v[e + 1]) && IsDigit(v[e + 2])
    requires var p := if withMinutes then e + 3 else e; p <= |v| && SkipSpace(v, p) == q
    requires |v| == q + 2 && (ToLower(v[q..]) == "am" || ToLower(v[q..]) == "pm")
    requires DecimalValue(v, 0, e) == Some(h)
    requires withMinutes ==> DecimalValue(v, e + 1, e + 3) == Some(m)
    requires !withMinutes ==> m == 0
    ensures Match12(v) == Some((h, m, ToLower(v[q..]) == "pm"))
  {
  }

  /** Where the digits stop. */
  lemma SkipDigitsAt(v: string, i: nat, k: nat)
    requires i <= k <= |v|
    requires forall j :: i <= j < k ==> IsDigit(v[j])
    requires k < |v| ==> !IsDigit(v[k])
    ensures SkipDigits(v, i) == k
  {
  }

  /** Where the white space stops. */
  lemma SkipSpaceAt(v: string, i: nat, k: nat)
    requires i <= k <= |v|
    requires forall j :: i <= j < k ==> IsSpace(v[j])
    requires k < |v| ==> !IsSpace(v[k])
    ensures SkipSpace(v, i) == k
  {
  }

  /** Where the four pieces of a concatenation sit in it. */
  lemma Concat4(a: string, b: string, c: string, d: string)
    ensures var v := a + b + c + d;
            var i, j := |a| + |b|, |a| + |b| + |c|;
            && |v| == j + |d|
            && v[..|a|] == a && v[|a|..i] == b && v[i..j] == c && v[j..] == d
  {
  }

  /** A string is its four consecutive slices. */
  lemma Split4(v: string, e: nat, p: nat, q: nat)
    requires e <= p <= q <= |v|
    ensures v == v[..e] + v[e..p] + v[p..q] + v[q..]
  {
    assert v == v[..e] + v[e..];
    assert v[e..] == v[e..p] + v[p..];
    assert v[p..] == v[p..q] + v[q..];
  }

  /** Where the parts of a 12-hour time sit in its text. */
  lemma Text12Layout(hh: string, mm: Option<string>, sp: string, suffix: string)
    requires Is12Parts(hh, mm, sp, suffix)
    ensures var v, e := Text12(hh, mm, sp, suffix), |hh|;
            var p := if mm.Some? then e + 3 else e;
            var q := p + |sp|;
            && |v| == q + 2 && v[q..] == suffix
            && (forall j :: 0 <= j < e ==> IsDigit(v[j]))
            && !IsDigit(v[e]) && (mm.Some? <==> v[e] == ':')
            && v[0..e] == hh
            && (mm.Some? ==> IsDigit(v[e + 1]) && IsDigit(v[e + 2]) && v[e + 1..e + 3] == mm.value)
            && (forall j :: p <= j < q ==> IsSpace(v[j]))
            && !IsSpace(v[q])
  {
    SuffixStart(suffix);
    if mm.Some? {
      LayoutWithMinutes(hh, mm.value, sp, suffix);
    } else {
      LayoutWithoutMinutes(hh, sp, suffix);
    }
  }

  /** The layout of `hh:mm`, spaces and the suffix. */
  lemma LayoutWithMinutes(hh: string, mm: string, sp: string, suffix: string)
    requires AllDigits(hh) && |mm| == 2 && AllDigits(mm) && AllSpace(sp)
    requires |suffix| == 2 && !IsSpace(suffix[0])
    ensures var v, e := hh + (":" + mm) + sp + suffix, |hh|;
            var q := e + 3 + |sp|;
            && |v| == q + 2 && v[q..] == suffix
            && (forall j :: 0 <= j < e ==> IsDigit(v[j]))
            && v[e] == ':' && v[0..e] == hh
            && IsDigit(v[e + 1]) && IsDigit(v[e + 2]) && v[e + 1..e + 3] == mm
            && (forall j :: e + 3 <= j < q ==> IsSpace(v[j]))
            && !IsSpace(v[q])
  {
    var mid := ":" + mm;
    Concat4(hh, mid, sp, suffix);
    var v := hh + mid + sp + suffix;
    var e := |hh|;
    var q := e + 3 + |sp|;
    assert v[e] == v[e..e + 3][0];
    assert v[e + 1..e + 3] == v[e..e + 3][1..];
    assert v[e + 1] == mm[0] && v[e + 2] == mm[1];
    DigitsAt(v, 0, e);
    SpacesAt(v, e + 3, q);
    assert v[q] == v[q..][0];
  }

  /** The layout of `hh`, spaces and the suffix. */
  lemma LayoutWithoutMinutes(hh: string, sp: string, suffix: string)
    requires AllDigits(hh) && AllSpace(sp)
    requires |suffix| == 2 && !IsDigit(suffix[0]) && !IsSpace(suffix[0]) && suffix[0] != ':'
    ensures var v, e := hh + "" + sp + suffix, |hh|;
            var q := e + |sp|;
            && |v| == q + 2 && v[q..] == suffix
            && (forall j :: 0 <= j < e ==> IsDigit(v[j]))
            && !IsDigit(v[e]) && v[e] != ':' && v[0..e] == hh
            && (forall j :: e <= j < q ==> IsSpace(v[j]))
            && !IsSpace(v[q])
  {
    Concat4(hh, "", sp, suffix);
    var v := hh + "" + sp + suffix;
    var e := |hh|;
    var q := e + |sp|;
    if |sp| > 0 {
      assert v[e] == v[e..q][0];
    } else {
      assert v[e] == v[q..][0];
    }
    DigitsAt(v, 0, e);
    SpacesAt(v, e, q);
    assert v[q] == v[q..][0];
  }


  /** Digits in a slice are digits of the string. */
  lemma DigitsAt(v: string, lo: nat, hi: nat)
    requires lo <= hi <= |v| && AllDigits(v[lo..hi])
    ensures forall j :: lo <= j < hi ==> IsDigit(v[j])
  {
    forall j | lo <= j < hi ensures IsDigit(v[j]) {
      assert v[j] == v[lo..hi][j - lo];
    }
  }

  /** White space in a slice is white space of the string. */
  lemma SpacesAt(v: string, lo: nat, hi: nat)
    requires lo <= hi <= |v| && AllSpace(v[lo..hi])
    ensures forall j :: lo <= j < hi ==> IsSpace(v[j])
  {
    forall j | lo <= j < hi ensures IsSpace(v[j]) {
      assert v[j] == v[lo..hi][j - lo];
    }
  }

  /** The 12-hour pattern reads exactly these parts. */
  lemma Match12Parts(hh: string, mm: Option<string>, sp: string, suffix: string)
    requires Is12Parts(hh, mm, sp, suffix)
    ensures Match12(Text12(hh, mm, sp, suffix))
              == Some((DigitsValue(hh), MinutesOf(mm), ToLower(suffix) == "pm"))
  {
    Text12Layout(hh, mm, sp, suffix);
    var v := Text12(hh, mm, sp, suffix);
    var e := |hh|;
    var p := if mm.Some? then e + 3 else e;
    var q := p + |sp|;
    SkipDigitsAt(v, 0, e);
    DecimalOfDigits(v, 0, e);
    var withMinutes := e + 3 <= |v| && v[e] == ':' && IsDigit(v[e + 1]) && IsDigit(v[e + 2]);
    assert withMinutes == mm.Some?;
    if mm.Some? {
      DecimalOfDigits(v, e + 1, e + 3);
    }
    SkipSpaceAt(v, p, q);
    Match12At(v, e, withMinutes, q, DigitsValue(hh), MinutesOf(mm));
  }

  /** A trimmed input that fails the 24-hour pattern and matches the
      12-hour one is written from the hour its suffix names. */
  lemma Parse12Matched(v: string, h12: nat, m: nat, pm: bool)
    requires IsTrimmed(v) && v != ""
    requires Match24(v).None? && Match12(v) == Some((h12, m, pm))
    ensures var hours := Hour24(h12, pm);
            ParseTimeToDb(Some(v)) == if hours <= 23 && m <= 59 then DbTime(DbTimeOf(hours, m, 0)) else BadTime
  {
    TrimmedIsFixed(v);
    From12Value(h12, m, pm);
  }

  /** A 12-hour time is written `HH:MM:00` for the hour its suffix names
      when that hour and the minutes are in range; otherwise it is not a
      time. */
  lemma TwelveHour(hh: string, mm: Option<string>, sp: string, suffix: string)
    requires Is12Parts(hh, mm, sp, suffix)
    ensures var hours, m := Hour24(DigitsValue(hh), ToLower(suffix) == "pm"), MinutesOf(mm);
            ParseTimeToDb(Some(Text12(hh, mm, sp, suffix)))
              == if hours <= 23 && m <= 59 then DbTime(DbTimeOf(hours, m, 0)) else BadTime
  {
    var v := Text12(hh, mm, sp, suffix);
    SuffixStart(suffix);
    Match12Parts(hh, mm, sp, suffix);
    assert v[0] == hh[0];
    assert v[|v| - 1] == suffix[1];
    if Match24(v).Some? {
      Match24EndsInDigit(v);
      Match12EndsInM(v);
    }
    Parse12Matched(v, DigitsValue(hh), MinutesOf(mm), ToLower(suffix) == "pm");
  }

  /** `v` is written in the 24-hour form. */
  ghost predicate Is24Text(v: string) {
    exists hh, mm, ss :: Is24Parts(hh, mm, ss) && v == Text24(hh, mm, ss)
  }

  /** `v` is written in the 12-hour form. */
  ghost predicate Is12Text(v: string) {
    exists hh, mm, sp, suffix :: Is12Parts(hh, mm, sp, suffix) && v == Text12(hh, mm, sp, suffix)
  }

  /** What the 24-hour pattern matches is written in the 24-hour form. */
  lemma Match24Shape(v: string)
    requires Match24(v).Some?
    ensures Is24Text(v)
  {
    Match24Bounds(v);
    Split24(v, SkipDigits(v, 0));
  }

  /** Where the 24-hour pattern found its parts. */
  lemma Match24Bounds(v: string)
    requires Match24(v).Some?
    ensures var e := SkipDigits(v, 0);
            && 1 <= e <= 2 && |v| >= e + 3 && v[e] == ':'
            && AllDigits(v[0..e]) && AllDigits(v[e + 1..e + 3])
            && (|v| == e + 3 || (|v| == e + 6 && v[e + 3] == ':' && AllDigits(v[e + 4..e + 6])))
  {
    var e := SkipDigits(v, 0);
    DecimalValueDigits(v, 0, e);
    DecimalValueDigits(v, e + 1, e + 3);
    if |v| != e + 3 {
      DecimalValueDigits(v, e + 4, e + 6);
    }
  }

  /** Hours, a colon, two digits and optionally a colon and two more
      digits, at the positions found, make a 24-hour text. */
  lemma Split24(v: string, e: nat)
    requires 1 <= e <= 2 && |v| >= e + 3 && v[e] == ':'
    requires AllDigits(v[0..e]) && AllDigits(v[e + 1..e + 3])
    requires |v| == e + 3 || (|v| == e + 6 && v[e + 3] == ':' && AllDigits(v[e + 4..e + 6]))
    ensures Is24Text(v)
  {
    var hh, mm := v[0..e], v[e + 1..e + 3];
    var ss := if |v| == e + 3 then None else Some(v[e + 4..e + 6]);
    assert Is24Parts(hh, mm, ss);
    var rest := if ss.Some? then ":" + ss.value else "";
    Split4(v, e, e + 1, e + 3);
    assert v[e..e + 1] == ":";
    if ss.Some? {
      assert v[e + 3..] == [v[e + 3]] + v[e + 4..e + 6];
    }
    assert v[e + 3..] == rest;
    assert v == Text24(hh, mm, ss);
  }


  /** The positions the 12-hour pattern reads, when it matches. */
  lemma Match12Bounds(v: string)
    requires Match12(v).Some?
    ensures var e := SkipDigits(v, 0);
            var withMinutes := e + 3 <= |v| && v[e] == ':' && IsDigit(v[e + 1]) && IsDigit(v[e + 2]);
            var q := SkipSpace(v, if withMinutes then e + 3 else e);
            1 <= e <= 2 && |v| == q + 2 && (ToLower(v[q..]) == "am" || ToLower(v[q..]) == "pm")
  {
  }

  /** Digits up to `e`, optionally `:` and two digits, white space from `p`
      to `q`, then `am` or `pm`: the 12-hour form. */
  lemma Split12(v: string, e: nat, withMinutes: bool, p: nat, q: nat)
    requires 1 <= e <= 2 && p == (if withMinutes then e + 3 else e) && p <= q && |v| == q + 2
    requires withMinutes ==> v[e] == ':' && IsDigit(v[e + 1]) && IsDigit(v[e + 2])
    requires forall j :: 0 <= j < e ==> IsDigit(v[j])
    requires forall j :: p <= j < q ==> IsSpace(v[j])
    requires ToLower(v[q..]) == "am" || ToLower(v[q..]) == "pm"
    ensures Is12Text(v)
  {
    var hh, sp, suffix := v[..e], v[p..q], v[q..];
    var mm := if withMinutes then Some(v[e + 1..e + 3]) else None;
    assert AllDigits(hh) by {
      forall j | 0 <= j < |hh| ensures IsDigit(hh[j]) {
        assert hh[j] == v[j];
      }
    }
    assert AllSpace(sp) by {
      forall j | 0 <= j < |sp| ensures IsSpace(sp[j]) {
        assert sp[j] == v[p + j];
      }
    }
    assert mm.Some? ==> AllDigits(mm.value) by {
      if withMinutes {
        assert mm.value[0] == v[e + 1] && mm.value[1] == v[e + 2];
      }
    }
    assert Is12Parts(hh, mm, sp, suffix);
    Split4(v, e, p, q);
    if withMinutes {
      assert v[e..p] == [v[e]] + v[e + 1..e + 3];
    } else {
      assert v[e..p] == [];
    }
    assert v == Text12(hh, mm, sp, suffix);
  }

  /** What the 12-hour pattern matches is written in the 12-hour form. */
  lemma Match12Shape(v: string)
    requires Match12(v).Some?
    ensures Is12Text(v)
  {
    Match12Bounds(v);
    var e := SkipDigits(v, 0);
    var withMinutes := e + 3 <= |v| && v[e] == ':' && IsDigit(v[e + 1]) && IsDigit(v[e + 2]);
    var p := if withMinutes then e + 3 else e;
    Split12(v, e, withMinutes, p, SkipSpace(v, p));
  }

  /** Only the two forms are ever accepted: any other input that is not
      blank is not a time. */
  lemma AcceptedForms(raw: string)
    ensures ParseTimeToDb(Some(raw)).DbTime? ==> Is24Text(Trim(raw)) || Is12Text(Trim(raw))
  {
    var v := Trim(raw);
    if Match24(v).Some? {
      Match24Shape(v);
    }
    if Match12(v).Some? {
      Match12Shape(v);
    }
  }

  /** The literal facts the two examples below rest on. */
  lemma ThirteenFacts()
    ensures DigitsValue("13") == 13 && ToLower("am") == "am" && ToLower("pm") == "pm"
    ensures DbTimeOf(13, 0, 0) == "13:00:00"
  {
  }

  /** "13 am" is 13:00, since only 12 is folded to 0. */
  lemma ThirteenAm(v: string)
    requires v == "13 am"
    ensures ParseTimeToDb(Some(v)) == DbTime("13:00:00")
  {
    assert v == Text12("13", None, " ", "am");
    ThirteenFacts();
    TwelveHour("13", None, " ", "am");
  }

  /** "13 pm" would be hour 25, so it is not a time. */
  lemma ThirteenPm(v: string)
    requires v == "13 pm"
    ensures ParseTimeToDb(Some(v)) == BadTime
  {
    assert v == Text12("13", None, " ", "pm");
    ThirteenFacts();
    TwelveHour("13", None, " ", "pm");
  }
}
