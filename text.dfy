/**
  The JavaScript string primitives the application relies on, stated on
  `seq<char>`: white space and `trim`, ASCII `toLowerCase`, `includes`,
  `startsWith`/`endsWith`, `split`/`join` on one separator character,
  `parseInt(s, 10)`, `Number(s)` on decimal integers, and `padStart(2, "0")`.
*/
module Text {
  import opened Wrappers

  // ---------------------------------------------------------------------
  // White space and trimming
  // ---------------------------------------------------------------------

  /** The WhiteSpace and LineTerminator code points of ECMAScript: what
      `String.prototype.trim` strips and what the regular-expression class
      `\s` matches. */
  predicate IsSpace(c: char) {
    || c == '\t' || c == '\n' || c == '\U{B}' || c == '\U{C}' || c == '\r'
    || c == ' ' || c == '\U{A0}' || c == '\U{1680}'
    || ('\U{2000}' <= c <= '\U{200A}')
    || c == '\U{2028}' || c == '\U{2029}' || c == '\U{202F}' || c == '\U{205F}'
    || c == '\U{3000}' || c == '\U{FEFF}'
  }

  predicate AllSpace(s: string) {
    forall i :: 0 <= i < |s| ==> IsSpace(s[i])
  }

  /** `s` has no white space at either end (what `trim` leaves). */
  predicate IsTrimmed(s: string) {
    s == [] || (!IsSpace(s[0]) && !IsSpace(s[|s| - 1]))
  }

  /** The first position at or after `i` that does not hold white space
      (`|s|` when there is none). */
  function SkipSpace(s: string, i: nat): (k: nat)
    requires i <= |s|
    ensures i <= k <= |s|
    ensures forall j :: i <= j < k ==> IsSpace(s[j])
    ensures k < |s| ==> !IsSpace(s[k])
    decreases |s| - i
  {
    if i < |s| && IsSpace(s[i]) then SkipSpace(s, i + 1) else i
  }

  /** The position just after the last character before `e`, and not
      before `lo`, that is not white space (`lo` when there is none). */
  function SkipSpaceBack(s: string, lo: nat, e: nat): (k: nat)
    requires lo <= e <= |s|
    ensures lo <= k <= e
    ensures forall j :: k <= j < e ==> IsSpace(s[j])
    ensures k > lo ==> !IsSpace(s[k - 1])
    decreases e - lo
  {
    if e > lo && IsSpace(s[e - 1]) then SkipSpaceBack(s, lo, e - 1) else e
  }

  /** `String.prototype.trim`. */
  function Trim(s: string): (r: string)
    ensures IsTrimmed(r)
    ensures r == [] <==> AllSpace(s)
  {
    var a := SkipSpace(s, 0);
    var b := SkipSpaceBack(s, a, |s|);
    assert b > a ==> s[a..b][0] == s[a] && s[a..b][b - a - 1] == s[b - 1];
    s[a..b]
  }

  /** Trimming a string without white space at its ends changes nothing. */
  lemma TrimmedIsFixed(s: string)
    requires IsTrimmed(s)
    ensures Trim(s) == s
  {
    if s != [] {
      assert SkipSpace(s, 0) == 0;
      assert s[0..|s|] == s;
    }
  }

  /** `trim` is idempotent. */
  lemma TrimIdempotent(s: string)
    ensures Trim(Trim(s)) == Trim(s)
  {
    TrimmedIsFixed(Trim(s));
  }

  /** What `trim` keeps is the middle of `s`: white space, then the result,
      then white space. */
  lemma TrimIsInfix(s: string) returns (k: nat)
    ensures k + |Trim(s)| <= |s|
    ensures s == s[..k] + Trim(s) + s[k + |Trim(s)|..]
    ensures AllSpace(s[..k]) && AllSpace(s[k + |Trim(s)|..])
  {
    k := SkipSpace(s, 0);
    var b := SkipSpaceBack(s, k, |s|);
    assert Trim(s) == s[k..b];
    Infix(s, k, b - k);
  }

  lemma Infix(s: string, k: nat, n: nat)
    requires k + n <= |s|
    ensures s == s[..k] + s[k..k + n] + s[k + n..]
  {
  }

  // ---------------------------------------------------------------------
  // Letter case
  // ---------------------------------------------------------------------

  function LowerChar(c: char): char {
    if 'A' <= c <= 'Z' then (c as int + 32) as char else c
  }

  /** `String.prototype.toLowerCase` on the ASCII letters: no capital is
      left, and every other character stays where it was. */
  function ToLower(s: string): (r: string)
    ensures |r| == |s|
    ensures forall i :: 0 <= i < |r| ==> !('A' <= r[i] <= 'Z')
    ensures forall i :: 0 <= i < |s| && !('A' <= s[i] <= 'Z') ==> r[i] == s[i]
    ensures forall i :: 0 <= i < |s| && 'A' <= s[i] <= 'Z' ==> r[i] as int == s[i] as int + 32
  {
    seq(|s|, i requires 0 <= i < |s| => LowerChar(s[i]))
  }

  /** Lower-casing twice is lower-casing once. */
  lemma ToLowerIdempotent(s: string)
    ensures ToLower(ToLower(s)) == ToLower(s)
  {
  }

  /** A string without capital letters is its own lower case. */
  lemma ToLowerNoCapitals(s: string)
    requires forall i :: 0 <= i < |s| ==> !('A' <= s[i] <= 'Z')
    ensures ToLower(s) == s
  {
  }

  // ---------------------------------------------------------------------
  // Searching
  // ---------------------------------------------------------------------

  predicate StartsWith(s: string, prefix: string) {
    |prefix| <= |s| && s[..|prefix|] == prefix
  }

  predicate EndsWith(s: string, suffix: string) {
    |suffix| <= |s| && s[|s| - |suffix|..] == suffix
  }

  /** `String.prototype.includes`: `t` occurs somewhere in `s`. */
  predicate Contains(s: string, t: string)
    decreases |s|
  {
    StartsWith(s, t) || (|s| > 0 && Contains(s[1..], t))
  }

  /** `Contains` finds exactly the positions where `t` occurs. */
  lemma {:induction false} ContainsAt(s: string, t: string, i: nat)
    requires i + |t| <= |s|
    ensures s[i..i + |t|] == t ==> Contains(s, t)
    decreases i
  {
    if i > 0 && s[i..i + |t|] == t {
      assert s[1..][i - 1..i - 1 + |t|] == s[i..i + |t|];
      ContainsAt(s[1..], t, i - 1);
    }
  }

  /** If `t` occurs in `s`, it occurs at some position. */
  lemma {:induction false} ContainsWitness(s: string, t: string) returns (i: nat)
    requires Contains(s, t)
    ensures i + |t| <= |s| && s[i..i + |t|] == t
    decreases |s|
  {
    if StartsWith(s, t) {
      i := 0;
    } else {
      var j := ContainsWitness(s[1..], t);
      assert s[1..][j..j + |t|] == s[j + 1..j + 1 + |t|];
      i := j + 1;
    }
  }

  // ---------------------------------------------------------------------
  // Splitting and joining on one separator character
  // ---------------------------------------------------------------------

  /** `String.prototype.split(sep)` for a one-character separator: the
      pieces between separators, at least one (`"".split(",")` is `[""]`). */
  function Split(s: string, sep: char): (r: seq<string>)
    ensures |r| >= 1
    ensures forall i :: 0 <= i < |r| ==> sep !in r[i]
    decreases |s|
  {
    if |s| == 0 then [""]
    else
      var rest := Split(s[1..], sep);
      if s[0] == sep then [""] + rest
      else [[s[0]] + rest[0]] + rest[1..]
  }

  /** `Array.prototype.join(sep)`: `[]` joins to `""`. */
  function Join(xs: seq<string>, sep: char): string
    decreases |xs|
  {
    if |xs| == 0 then ""
    else if |xs| == 1 then xs[0]
    else xs[0] + [sep] + Join(xs[1..], sep)
  }

  /** Joining the pieces of a split gives back the string. */
  lemma {:induction false} JoinSplit(s: string, sep: char)
    ensures Join(Split(s, sep), sep) == s
    decreases |s|
  {
    if |s| > 0 {
      var rest := Split(s[1..], sep);
      JoinSplit(s[1..], sep);
      if s[0] == sep {
        assert s == [sep] + s[1..];
      } else if |rest| == 1 {
        assert s == [s[0]] + s[1..];
      } else {
        assert Join(rest, sep) == rest[0] + [sep] + Join(rest[1..], sep);
        assert s == [s[0]] + s[1..];
      }
    }
  }

  /** A string with no separator splits into itself alone. */
  lemma {:induction false} SplitNoSeparator(s: string, sep: char)
    requires sep !in s
    ensures Split(s, sep) == [s]
    decreases |s|
  {
    if |s| > 0 {
      SplitNoSeparator(s[1..], sep);
      assert s == [s[0]] + s[1..];
    }
  }

  /** Splitting `a + sep + b`, where `a` holds no separator, yields `a` and
      then the pieces of `b`. */
  lemma {:induction false} SplitAfterPiece(a: string, sep: char, b: string)
    requires sep !in a
    ensures Split(a + [sep] + b, sep) == [a] + Split(b, sep)
    decreases |a|
  {
    if |a| == 0 {
      assert a + [sep] + b == [sep] + b;
      assert ([sep] + b)[1..] == b;
    } else {
      assert (a + [sep] + b)[1..] == a[1..] + [sep] + b;
      SplitAfterPiece(a[1..], sep, b);
      assert [a[0]] + a[1..] == a;
    }
  }

  /** Splitting a join gives back the pieces, when none holds the separator. */
  lemma {:induction false} SplitJoin(xs: seq<string>, sep: char)
    requires |xs| >= 1
    requires forall i :: 0 <= i < |xs| ==> sep !in xs[i]
    ensures Split(Join(xs, sep), sep) == xs
    decreases |xs|
  {
    if |xs| == 1 {
      SplitNoSeparator(xs[0], sep);
    } else {
      SplitJoin(xs[1..], sep);
      SplitAfterPiece(xs[0], sep, Join(xs[1..], sep));
      assert [xs[0]] + xs[1..] == xs;
    }
  }

  /** The join of non-empty pieces is empty only when there are no pieces. */
  lemma JoinEmpty(xs: seq<string>, sep: char)
    requires forall i :: 0 <= i < |xs| ==> xs[i] != ""
    ensures Join(xs, sep) == "" <==> xs == []
  {
    if |xs| > 0 {
      assert |Join(xs, sep)| >= |xs[0]| by {
        if |xs| > 1 {
          assert Join(xs, sep) == xs[0] + [sep] + Join(xs[1..], sep);
        }
      }
    }
  }

  // ---------------------------------------------------------------------
  // Decimal digits and numbers
  // ---------------------------------------------------------------------

  predicate IsDigit(c: char) {
    '0' <= c <= '9'
  }

  predicate AllDigits(s: string) {
    forall i :: 0 <= i < |s| ==> IsDigit(s[i])
  }

  function DigitValue(c: char): (n: nat)
    requires IsDigit(c)
    ensures n < 10
  {
    c as int - '0' as int
  }

  function DigitChar(n: nat): (c: char)
    requires n < 10
    ensures IsDigit(c) && DigitValue(c) == n
  {
    ('0' as int + n) as char
  }

  /** The value of a string of decimal digits, most significant first. */
  function DigitsValue(s: string): nat
    requires AllDigits(s)
    decreases |s|
  {
    if |s| == 0 then 0 else DigitsValue(s[..|s| - 1]) * 10 + DigitValue(s[|s| - 1])
  }

  function Pow10(n: nat): (p: nat)
    ensures p >= 1
  {
    if n == 0 then 1 else 10 * Pow10(n - 1)
  }

  /** The first position at or after `i` that does not hold a decimal
      digit (`|s|` when there is none). */
  function SkipDigits(s: string, i: nat): (k: nat)
    requires i <= |s|
    ensures i <= k <= |s|
    ensures forall j :: i <= j < k ==> IsDigit(s[j])
    ensures k < |s| ==> !IsDigit(s[k])
    decreases |s| - i
  {
    if i < |s| && IsDigit(s[i]) then SkipDigits(s, i + 1) else i
  }

  /** `parseInt(s, 10)`: leading white space is skipped, then an optional
      sign, then the longest run of decimal digits; no digits is NaN
      (`None`). Whatever follows the digits is ignored. */
  function ParseIntPrefix(s: string): Option<int> {
    var a := SkipSpace(s, 0);
    var negative := a < |s| && s[a] == '-';
    var start := if a < |s| && (s[a] == '-' || s[a] == '+') then a + 1 else a;
    var end := SkipDigits(s, start);
    if end == start then None
    else match DecimalValue(s, start, end)
      case None => None
      case Some(v) => var n: int := v; Some(if negative then -n else n)
  }

  /** The value of the decimal digits `s[lo..hi]`, or nothing when one of
      them is not a digit. */
  function DecimalValue(s: string, lo: nat, hi: nat): Option<nat>
    requires lo <= hi <= |s|
    decreases hi - lo
  {
    if hi == lo then Some(0)
    else match DecimalValue(s, lo, hi - 1)
      case None => None
      case Some(v) => if IsDigit(s[hi - 1]) then Some(v * 10 + DigitValue(s[hi - 1])) else None
  }

  /** `DecimalValue` reads `s[lo..hi]` exactly when it is all digits, as
      the number they spell. */
  lemma {:induction false} DecimalValueDigits(s: string, lo: nat, hi: nat)
    requires lo <= hi <= |s|
    ensures DecimalValue(s, lo, hi).Some? <==> AllDigits(s[lo..hi])
    ensures AllDigits(s[lo..hi]) ==> DecimalValue(s, lo, hi) == Some(DigitsValue(s[lo..hi]))
    decreases hi - lo
  {
    if hi > lo {
      DecimalValueDigits(s, lo, hi - 1);
      assert s[lo..hi][..hi - lo - 1] == s[lo..hi - 1];
      assert s[lo..hi][hi - lo - 1] == s[hi - 1];
      if AllDigits(s[lo..hi - 1]) && !AllDigits(s[lo..hi]) {
        forall i | 0 <= i < hi - lo - 1 ensures IsDigit(s[lo..hi][i]) {
          assert s[lo..hi][i] == s[lo..hi - 1][i];
        }
      }
    }
  }

  /** `hi - lo` digits write a number below `10^(hi - lo)`. */
  lemma {:induction false} DecimalValueBound(s: string, lo: nat, hi: nat)
    requires lo <= hi <= |s|
    ensures DecimalValue(s, lo, hi).Some? ==> DecimalValue(s, lo, hi).value < Pow10(hi - lo)
    decreases hi - lo
  {
    if hi > lo {
      DecimalValueBound(s, lo, hi - 1);
    }
  }

  /** `Number(s)` for the decimal-integer forms: white space around the
      number is ignored, a string of white space only is 0, an optional sign
      may precede the digits, and anything else is NaN (`None`). */
  function ParseNumber(s: string): Option<int> {
    var a := SkipSpace(s, 0);
    var b := SkipSpaceBack(s, a, |s|);
    if a == b then Some(0)
    else
      var start := if s[a] == '-' || s[a] == '+' then a + 1 else a;
      if start == b then None
      else match DecimalValue(s, start, b)
        case None => None
        case Some(v) => var n: int := v; Some(if s[a] == '-' then -n else n)
  }

  /** A string of white space only (the empty one included) is 0. */
  lemma NumberOfSpaces(s: string)
    requires AllSpace(s)
    ensures ParseNumber(s) == Some(0)
  {
  }

  /** A string of decimal digits is the number they spell. */
  lemma NumberOfDigits(s: string)
    requires s != "" && AllDigits(s)
    ensures ParseNumber(s) == Some(DigitsValue(s))
  {
    assert SkipSpace(s, 0) == 0;
    assert SkipSpaceBack(s, 0, |s|) == |s|;
    DecimalValueDigits(s, 0, |s|);
    assert s[0..|s|] == s;
  }

  /** `String(n)` for a natural number. */
  function NatToString(n: nat): (s: string)
    ensures AllDigits(s) && s != [] && DigitsValue(s) == n
    ensures s[0] == '0' <==> n == 0
    ensures n == 0 ==> s == "0"
    decreases n
  {
    if n < 10 then [DigitChar(n)]
    else
      var s := NatToString(n / 10) + [DigitChar(n % 10)];
      assert s[..|s| - 1] == NatToString(n / 10);
      s
  }

  /** `String(i)` for an integer: a minus sign before the digits of a
      negative one. */
  function IntToString(i: int): (s: string)
    ensures i >= 0 ==> AllDigits(s) && s != [] && DigitsValue(s) == i
    ensures i >= 0 ==> (s[0] == '0' <==> i == 0) && (i == 0 ==> s == "0")
    ensures i < 0 ==> |s| >= 2 && s[0] == '-' && AllDigits(s[1..]) && DigitsValue(s[1..]) == -i
    ensures i < 0 ==> s[1] != '0'
  {
    if i >= 0 then NatToString(i)
    else
      var s := "-" + NatToString(-i);
      assert s[1..] == NatToString(-i);
      s
  }

  /** Appending a digit shifts the value one decimal place. */
  lemma DigitsValueAppend(s: string, c: char)
    requires AllDigits(s) && IsDigit(c)
    ensures AllDigits(s + [c]) && DigitsValue(s + [c]) == DigitsValue(s) * 10 + DigitValue(c)
  {
    assert (s + [c])[..|s|] == s;
  }

  /** `n` written with exactly two digits. */
  function Digits2(n: nat): (s: string)
    requires n < 100
    ensures |s| == 2 && AllDigits(s) && DigitsValue(s) == n
  {
    DigitsValueAppend([], DigitChar(n / 10));
    DigitsValueAppend([DigitChar(n / 10)], DigitChar(n % 10));
    [DigitChar(n / 10)] + [DigitChar(n % 10)]
  }

  /** `n` written with exactly four digits. */
  function Digits4(n: nat): (s: string)
    requires n < 10000
    ensures |s| == 4 && AllDigits(s) && DigitsValue(s) == n
  {
    var hi := Digits2(n / 100);
    DigitsValueAppend(hi, DigitChar(n / 10 % 10));
    DigitsValueAppend(hi + [DigitChar(n / 10 % 10)], DigitChar(n % 10));
    hi + [DigitChar(n / 10 % 10)] + [DigitChar(n % 10)]
  }

  /** `String(n).padStart(2, "0")`. */
  function Pad2(n: nat): string {
    var s := NatToString(n);
    if |s| >= 2 then s else seq(2 - |s|, _ => '0') + s
  }

  /** Below 100, padding to two characters writes the tens and the units. */
  lemma Pad2Digits(n: nat)
    requires n < 100
    ensures Pad2(n) == Digits2(n)
  {
    if n >= 10 {
      assert NatToString(n / 10) == [DigitChar(n / 10)];
    }
  }
}
