/** The hour window of a question, read with the two regular expressions
    `(\d{1,2})h\s*(et|-|à)\s*(\d{1,2})h` (an interval) and `(\d{1,2})h`
    (a single hour), each searched for leftmost-first as `re.search` does. */
module Hours {
  import opened Options
  import opened Text

  /** The window used when the question names no hour: 9h to 12h. */
  const DefaultWindow: (nat, nat) := (9, 12)

  function DigitValue(c: char): nat
    requires IsDigit(c)
  {
    (c as int) - ('0' as int)
  }

  /** `int()` of the w (one or two) decimal digits from position i. */
  function GroupValue(s: string, i: nat, w: nat): (v: nat)
    requires w == 1 || w == 2
    requires i + w <= |s| && forall k :: i <= k < i + w ==> IsDigit(s[k])
    ensures v <= 99
  {
    if w == 1 then DigitValue(s[i]) else 10 * DigitValue(s[i]) + DigitValue(s[i + 1])
  }

  // ---------------------------------------------------------------------
  // The patterns, as the sets of strings they match

  /** `(\d{1,2})h` matches at i taking w digits, and its group reads as v. */
  predicate HourAt(s: string, i: int, w: int, v: int)
  {
    && 0 <= i
    && (w == 1 || w == 2)
    && i + w < |s|
    && (forall k :: i <= k < i + w ==> IsDigit(s[k]))
    && s[i + w] == 'h'
    && v == GroupValue(s, i, w)
  }

  /** `\s*` matches exactly the n characters from i. */
  predicate SpacesAt(s: string, i: int, n: int)
  {
    0 <= i && 0 <= n && i + n <= |s| && forall k :: i <= k < i + n ==> IsSpace(s[k])
  }

  /** `(et|-|à)` matches the n characters from i. */
  predicate ConnectorAt(s: string, i: int, n: int)
  {
    && 0 <= i
    && (|| (n == 2 && i + 2 <= |s| && s[i] == 'e' && s[i + 1] == 't')
        || (n == 1 && i < |s| && (s[i] == '-' || s[i] == 'à')))
  }

  /** The widths of the five pieces of one way to match the interval pattern. */
  datatype IntervalParse = IntervalParse(w1: nat, sp1: nat, cn: nat, sp2: nat, w2: nat)

  predicate IsIntervalParse(s: string, i: int, p: IntervalParse, a: int, b: int)
  {
    && HourAt(s, i, p.w1, a)
    && SpacesAt(s, i + p.w1 + 1, p.sp1)
    && ConnectorAt(s, i + p.w1 + 1 + p.sp1, p.cn)
    && SpacesAt(s, i + p.w1 + 1 + p.sp1 + p.cn, p.sp2)
    && HourAt(s, i + p.w1 + 1 + p.sp1 + p.cn + p.sp2, p.w2, b)
  }

  /** The interval pattern matches at i with first group a and third group b. */
  ghost predicate IntervalMatchAt(s: string, i: int, a: int, b: int)
  {
    exists p :: IsIntervalParse(s, i, p, a, b)
  }

  // ---------------------------------------------------------------------
  // The matcher

  /** `(\d{1,2})h` at i, greedy on the digits: the digit count and the hour. */
  function MatchHour(s: string, i: nat): (r: Option<(nat, nat)>)
    ensures r.Some? ==> HourAt(s, i, r.value.0, r.value.1) && r.value.1 <= 99
    ensures forall w, v :: HourAt(s, i, w, v) ==> r == Some((w, v))
  {
    if i + 2 < |s| && IsDigit(s[i]) && IsDigit(s[i + 1]) && s[i + 2] == 'h' then
      Some((2, GroupValue(s, i, 2)))
    else if i + 1 < |s| && IsDigit(s[i]) && s[i + 1] == 'h' then
      Some((1, GroupValue(s, i, 1)))
    else
      None
  }

  /** `\s*` from i, greedy: the first position at or after i that is not whitespace. */
  function SkipSpaces(s: string, i: nat): (j: nat)
    requires i <= |s|
    ensures i <= j <= |s|
    ensures SpacesAt(s, i, j - i)
    ensures j == |s| || !IsSpace(s[j])
    decreases |s| - i
  {
    if i < |s| && IsSpace(s[i]) then SkipSpaces(s, i + 1) else i
  }

  /** `(et|-|à)` at i: the width of the alternative that matches. */
  function MatchConnector(s: string, i: nat): (r: Option<nat>)
    ensures r.Some? ==> ConnectorAt(s, i, r.value)
    ensures forall n :: ConnectorAt(s, i, n) ==> r == Some(n)
  {
    if i + 2 <= |s| && s[i] == 'e' && s[i + 1] == 't' then Some(2)
    else if i < |s| && (s[i] == '-' || s[i] == 'à') then Some(1)
    else None
  }

  /** The interval pattern tried at position i, piece by piece. */
  function IntervalAt(s: string, i: nat): (r: Option<(nat, nat)>)
    ensures r.Some? ==> i < |s| && r.value.0 <= 99 && r.value.1 <= 99
  {
    match MatchHour(s, i)
    case None => None
    case Some((w1, a)) => AfterFirstHour(s, i + w1 + 1, a)
  }

  /** The rest of the interval pattern, `\s*(et|-|à)\s*(\d{1,2})h`, from j1. */
  function AfterFirstHour(s: string, j1: nat, a: nat): (r: Option<(nat, nat)>)
    requires j1 <= |s|
    ensures r.Some? ==> r.value.0 == a && r.value.1 <= 99
  {
    var j2 := SkipSpaces(s, j1);
    match MatchConnector(s, j2)
    case None => None
    case Some(cn) => AfterConnector(s, j2 + cn, a)
  }

  /** The tail of the interval pattern, `\s*(\d{1,2})h`, from j3. */
  function AfterConnector(s: string, j3: nat, a: nat): (r: Option<(nat, nat)>)
    requires j3 <= |s|
    ensures r.Some? ==> r.value.0 == a && r.value.1 <= 99
  {
    match MatchHour(s, SkipSpaces(s, j3))
    case None => None
    case Some((_, b)) => Some((a, b))
  }

  /** Greedy `\s*` stops exactly where a run of whitespace meets a non-space. */
  lemma SkipSpacesStopsAt(s: string, i: nat, n: nat)
    requires SpacesAt(s, i, n) && i + n < |s| && !IsSpace(s[i + n])
    ensures SkipSpaces(s, i) == i + n
  {
  }

  /** A match found piece by piece is a match of the pattern. */
  lemma IntervalAtSound(s: string, i: nat)
    requires IntervalAt(s, i).Some?
    ensures IntervalMatchAt(s, i, IntervalAt(s, i).value.0, IntervalAt(s, i).value.1)
  {
    var (a, b) := IntervalAt(s, i).value;
    var w1 := MatchHour(s, i).value.0;
    var j1 := i + w1 + 1;
    var j2 := SkipSpaces(s, j1);
    var cn := MatchConnector(s, j2).value;
    var j3 := j2 + cn;
    var j4 := SkipSpaces(s, j3);
    var w2 := MatchHour(s, j4).value.0;
    var p := IntervalParse(w1, j2 - j1, cn, j4 - j3, w2);
    assert HourAt(s, i, w1, a);
    assert SpacesAt(s, j1, p.sp1);
    assert ConnectorAt(s, j2, cn);
    assert SpacesAt(s, j3, p.sp2);
    assert HourAt(s, j4, w2, b);
    assert IsIntervalParse(s, i, p, a, b);
  }

  /** A connector starts with a character that is not whitespace. */
  lemma ConnectorNotSpace(s: string, j: nat, n: nat)
    requires ConnectorAt(s, j, n)
    ensures j < |s| && !IsSpace(s[j])
  {
  }

  /** An hour starts with a digit, which is not whitespace. */
  lemma HourNotSpace(s: string, j: nat, w: nat, v: nat)
    requires HourAt(s, j, w, v)
    ensures j < |s| && !IsSpace(s[j])
  {
    assert IsDigit(s[j]);
  }

  lemma AfterConnectorComplete(s: string, j3: nat, sp2: nat, w2: nat, a: nat, b: nat)
    requires SpacesAt(s, j3, sp2) && HourAt(s, j3 + sp2, w2, b)
    ensures AfterConnector(s, j3, a) == Some((a, b))
  {
    HourNotSpace(s, j3 + sp2, w2, b);
    SkipSpacesStopsAt(s, j3, sp2);
    assert MatchHour(s, j3 + sp2) == Some((w2, b));
  }

  lemma AfterFirstHourComplete(s: string, j1: nat, sp1: nat, cn: nat, sp2: nat, w2: nat, a: nat, b: nat)
    requires SpacesAt(s, j1, sp1) && ConnectorAt(s, j1 + sp1, cn)
    requires SpacesAt(s, j1 + sp1 + cn, sp2) && HourAt(s, j1 + sp1 + cn + sp2, w2, b)
    ensures AfterFirstHour(s, j1, a) == Some((a, b))
  {
    ConnectorNotSpace(s, j1 + sp1, cn);
    SkipSpacesStopsAt(s, j1, sp1);
    assert MatchConnector(s, j1 + sp1) == Some(cn);
    AfterConnectorComplete(s, j1 + sp1 + cn, sp2, w2, a, b);
  }

  /** Every way to match the pattern at i is the one the piecewise matcher
      finds, so every match at i reads the same two hours. */
  lemma IntervalAtComplete(s: string, i: nat, p: IntervalParse, a: nat, b: nat)
    requires IsIntervalParse(s, i, p, a, b)
    ensures IntervalAt(s, i) == Some((a, b))
  {
    IntervalFromPieces(s, i, p.w1, p.sp1, p.cn, p.sp2, p.w2, a, b);
  }

  /** The piecewise matcher reads the first hour, then the rest, of a parse. */
  lemma IntervalFromPieces(s: string, i: nat, w1: nat, sp1: nat, cn: nat, sp2: nat, w2: nat, a: nat, b: nat)
    requires HourAt(s, i, w1, a)
    requires SpacesAt(s, i + w1 + 1, sp1) && ConnectorAt(s, i + w1 + 1 + sp1, cn)
    requires SpacesAt(s, i + w1 + 1 + sp1 + cn, sp2) && HourAt(s, i + w1 + 1 + sp1 + cn + sp2, w2, b)
    ensures IntervalAt(s, i) == Some((a, b))
  {
    assert MatchHour(s, i) == Some((w1, a));
    AfterFirstHourComplete(s, i + w1 + 1, sp1, cn, sp2, w2, a, b);
  }

  /** The piecewise matcher agrees with the pattern at every position. */
  lemma IntervalAtIsMatch(s: string, i: nat, a: nat, b: nat)
    ensures IntervalAt(s, i) == Some((a, b)) <==> IntervalMatchAt(s, i, a, b)
  {
    if IntervalAt(s, i) == Some((a, b)) {
      IntervalAtSound(s, i);
    }
    if IntervalMatchAt(s, i, a, b) {
      var p :| IsIntervalParse(s, i, p, a, b);
      IntervalAtComplete(s, i, p, a, b);
    }
  }

  // ---------------------------------------------------------------------
  // Leftmost search

  /** `re.search` for the interval pattern from position `from` on: the
      leftmost position that matches, with the two hours. */
  function FindInterval(s: string, from: nat): (r: Option<(nat, nat, nat)>)
    requires from <= |s|
    ensures r.Some? ==> from <= r.value.0 < |s| && IntervalAt(s, r.value.0) == Some((r.value.1, r.value.2))
    ensures forall j: nat :: from <= j <= |s| && (r.None? || j < r.value.0) ==> IntervalAt(s, j).None?
    decreases |s| - from
  {
    if from == |s| then None
    else
      match IntervalAt(s, from)
      case Some((a, b)) => Some((from, a, b))
      case None => FindInterval(s, from + 1)
  }

  /** `re.search` for `(\d{1,2})h` from position `from` on: the leftmost
      position that matches, with the hour. */
  function FindHour(s: string, from: nat): (r: Option<(nat, nat)>)
    requires from <= |s|
    ensures r.Some? ==> from <= r.value.0 < |s| && MatchHour(s, r.value.0).Some?
                        && MatchHour(s, r.value.0).value.1 == r.value.1
    ensures r.Some? ==> HourAt(s, r.value.0, MatchHour(s, r.value.0).value.0, r.value.1)
    ensures forall j: nat :: from <= j <= |s| && (r.None? || j < r.value.0) ==> MatchHour(s, j).None?
    decreases |s| - from
  {
    if from == |s| then None
    else
      match MatchHour(s, from)
      case Some((_, h)) => Some((from, h))
      case None => FindHour(s, from + 1)
  }

  /** The hour window of a question: the leftmost interval, else the leftmost
      single hour for both ends, else 9h to 12h. */
  function ParseHours(s: string): (r: (nat, nat))
    ensures r.0 <= 99 && r.1 <= 99
  {
    match FindInterval(s, 0)
    case Some((_, a, b)) => (a, b)
    case None =>
      match FindHour(s, 0)
      case Some((_, h)) => (h, h)
      case None => DefaultWindow
  }

  /** The interval search comes back empty exactly when the interval pattern
      matches nowhere in the question. */
  lemma NoIntervalFound(s: string)
    ensures FindInterval(s, 0).None? <==> forall j, a, b :: !IntervalMatchAt(s, j, a, b)
  {
    if FindInterval(s, 0).Some? {
      var (k, a, b) := FindInterval(s, 0).value;
      IntervalAtIsMatch(s, k, a, b);
    } else {
      forall j, a, b ensures !IntervalMatchAt(s, j, a, b) {
        if IntervalMatchAt(s, j, a, b) {
          var p :| IsIntervalParse(s, j, p, a, b);
          IntervalAtComplete(s, j, p, a, b);
        }
      }
    }
  }

  /** When the interval pattern occurs, the window is its first and third
      groups at the leftmost occurrence. */
  lemma HoursFromLeftmostInterval(s: string, i: nat, a: nat, b: nat)
    requires IntervalMatchAt(s, i, a, b)
    requires forall j, a', b' :: 0 <= j < i ==> !IntervalMatchAt(s, j, a', b')
    ensures ParseHours(s) == (a, b)
  {
    IntervalAtIsMatch(s, i, a, b);
    var r := FindInterval(s, 0);
    assert r.Some? && r.value.0 <= i;
    var (k, a', b') := r.value;
    IntervalAtIsMatch(s, k, a', b');
    assert k == i;
  }

  /** With no interval, the first single hour gives both ends of the window. */
  lemma HoursFromLeftmostSingle(s: string, i: nat, w: nat, h: nat)
    requires forall j, a, b :: !IntervalMatchAt(s, j, a, b)
    requires HourAt(s, i, w, h)
    requires forall j, w', v :: 0 <= j < i ==> !HourAt(s, j, w', v)
    ensures ParseHours(s) == (h, h)
  {
    NoIntervalFound(s);
    assert MatchHour(s, i) == Some((w, h));
  }

  /** With no hour mentioned at all, the window is 9h to 12h. */
  lemma HoursDefault(s: string)
    requires forall j, a, b :: !IntervalMatchAt(s, j, a, b)
    requires forall j, w, v :: !HourAt(s, j, w, v)
    ensures ParseHours(s) == (9, 12)
  {
    NoIntervalFound(s);
  }
}
