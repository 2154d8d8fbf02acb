/**
 * GetMediaQueries: the breakpoints used by the stylesheets of the source folder.
 * Every `min-width:`/`max-width:` value in px or em is collected once, in the
 * order found, and the list is then ordered by the number in front of the unit.
 */
module MediaQueries {
  import opened Wrappers
  import opened Text
  import opened Collections
  import opened Sorting

  // ---------------------------------------------------------------------------
  // The breakpoint grammar: digits{1,5} ( '.' digits{1,20} )? ( "px" | "em" )

  /** A number: 1 to 5 digits, optionally followed by a point and 1 to 20 digits. */
  predicate IsNumber(t: string) {
    var d := IndexOf(t, '.');
    if d < 0 then 1 <= |t| <= 5 && AllDigits(t)
    else 1 <= d <= 5 && AllDigits(t[..d]) && 1 <= |t| - d - 1 <= 20 && AllDigits(t[d + 1..])
  }

  predicate IsUnit(u: string) {
    u == "px" || u == "em"
  }

  /** A breakpoint value: a number followed by its unit. */
  predicate IsBreakpoint(m: string) {
    |m| >= 3 && IsUnit(m[|m| - 2..]) && IsNumber(m[..|m| - 2])
  }

  // ---------------------------------------------------------------------------
  // The scanner for (min|max)-width:([ ]+)?(([0-9]{1,5})(\.[0-9]{1,20}|)(px|em))

  const MinWidth := "min-width:"
  const MaxWidth := "max-width:"

  /** "min-width:" or "max-width:" is written at i. */
  predicate WidthAt(s: string, i: nat) {
    OccursAt(s, MinWidth, i) || OccursAt(s, MaxWidth, i)
  }

  /** The characters of s from i up to j are all digits. */
  predicate DigitsBetween(s: string, i: int, j: int)
    requires 0 <= i <= j <= |s|
  {
    forall k :: i <= k < j ==> IsDigit(s[k])
  }

  lemma DigitsSlice(s: string, i: nat, j: nat)
    requires i <= j <= |s|
    ensures DigitsBetween(s, i, j) <==> AllDigits(s[i..j])
  {
    if DigitsBetween(s, i, j) {
      forall k | 0 <= k < j - i
        ensures IsDigit(s[i..j][k])
      {
        assert s[i..j][k] == s[i + k];
      }
    }
    if AllDigits(s[i..j]) {
      forall k | i <= k < j
        ensures IsDigit(s[k])
      {
        assert s[i..j][k - i] == s[k];
      }
    }
  }

  /** The end of the run of spaces starting at i. */
  function SkipSpaces(s: string, i: nat): (j: nat)
    requires i <= |s|
    ensures i <= j <= |s|
    ensures forall k :: i <= k < j ==> s[k] == ' '
    ensures j < |s| ==> s[j] != ' '
    decreases |s| - i
  {
    if i < |s| && s[i] == ' ' then SkipSpaces(s, i + 1) else i
  }

  /** The end of the run of digits starting at i. */
  function SkipDigits(s: string, i: nat): (j: nat)
    requires i <= |s|
    ensures i <= j <= |s|
    ensures DigitsBetween(s, i, j)
    ensures j < |s| ==> !IsDigit(s[j])
    decreases |s| - i
  {
    if i < |s| && IsDigit(s[i]) then SkipDigits(s, i + 1) else i
  }

  predicate UnitAt(s: string, i: nat) {
    i + 2 <= |s| && IsUnit(s[i..i + 2])
  }

  /** A match: where it ends in the text, and the captured breakpoint (group 3). */
  datatype Match = Match(end: nat, value: string)

  /** The position of the first '.' in a number text is the length of its integer part. */
  lemma PointIndex(t: string, d: nat)
    requires d < |t| && t[d] == '.' && DigitsBetween(t, 0, d)
    ensures IndexOf(t, '.') == d
  {
  }

  lemma DigitsHaveNoPoint(t: string)
    requires DigitsBetween(t, 0, |t|)
    ensures IndexOf(t, '.') == -1
  {
    forall k | 0 <= k < |t|
      ensures t[k] != '.'
    {
      assert IsDigit(t[k]);
    }
  }

  /** An integer part directly followed by a unit is a breakpoint. */
  lemma IntegerBreakpoint(s: string, start: nat, point: nat)
    requires start < point <= start + 5 && point <= |s|
    requires DigitsBetween(s, start, point) && UnitAt(s, point)
    ensures IsBreakpoint(s[start..point + 2])
  {
    var m := s[start..point + 2];
    assert m[..|m| - 2] == s[start..point];
    assert m[|m| - 2..] == s[point..point + 2];
    DigitsSlice(s, start, point);
    DigitsSlice(m[..|m| - 2], 0, |m| - 2);
    DigitsHaveNoPoint(m[..|m| - 2]);
  }

  /** An integer part, a point and a fraction followed by a unit is a breakpoint. */
  lemma FractionBreakpoint(s: string, start: nat, point: nat, fractionEnd: nat)
    requires start < point <= start + 5 && point < fractionEnd <= |s|
    requires DigitsBetween(s, start, point) && s[point] == '.'
    requires point + 1 < fractionEnd <= point + 21 && DigitsBetween(s, point + 1, fractionEnd)
    requires UnitAt(s, fractionEnd)
    ensures IsBreakpoint(s[start..fractionEnd + 2])
  {
    var m := s[start..fractionEnd + 2];
    var t := m[..|m| - 2];
    var d := point - start;
    assert t == s[start..fractionEnd];
    assert m[|m| - 2..] == s[fractionEnd..fractionEnd + 2];
    assert t[..d] == s[start..point];
    assert t[d + 1..] == s[point + 1..fractionEnd];
    DigitsSlice(s, start, point);
    DigitsSlice(s, point + 1, fractionEnd);
    DigitsSlice(t, 0, d);
    PointIndex(t, d);
  }

  /**
   * The match of the regular expression that starts at i, if any. The regular
   * expression backtracks, but a shorter run of spaces or digits is always followed
   * by a space or a digit, which no later part accepts: so the runs are maximal, and
   * the fraction alternative is tried before the empty one.
   */
  function MatchAt(s: string, i: nat): (r: Option<Match>)
    requires i <= |s|
    ensures r.Some? ==> i < r.value.end <= |s|
    ensures r.Some? ==> IsBreakpoint(r.value.value)
    ensures r.Some? ==> WidthAt(s, i)
  {
    if !WidthAt(s, i) then None
    else
      var start := SkipSpaces(s, i + |MinWidth|);
      MatchNumberBreakpoint(s, start);
      MatchNumber(s, start)
  }

  /** The number and unit part of the regular expression, matched at start. */
  function MatchNumber(s: string, start: nat): (r: Option<Match>)
    requires start <= |s|
    ensures r.Some? ==> start < r.value.end <= |s|
  {
    var point := SkipDigits(s, start);
    if !(1 <= point - start <= 5) then None
    else if point < |s| && s[point] == '.' && 1 <= SkipDigits(s, point + 1) - point - 1 <= 20
      && UnitAt(s, SkipDigits(s, point + 1)) then
      var fractionEnd := SkipDigits(s, point + 1);
      Some(Match(fractionEnd + 2, s[start..fractionEnd + 2]))
    else if UnitAt(s, point) then
      Some(Match(point + 2, s[start..point + 2]))
    else None
  }

  /** What MatchNumber captures is a breakpoint. */
  lemma MatchNumberBreakpoint(s: string, start: nat)
    requires start <= |s|
    ensures MatchNumber(s, start).Some? ==> IsBreakpoint(MatchNumber(s, start).value.value)
  {
    var point := SkipDigits(s, start);
    if 1 <= point - start <= 5 {
      if point < |s| && s[point] == '.' && 1 <= SkipDigits(s, point + 1) - point - 1 <= 20
        && UnitAt(s, SkipDigits(s, point + 1)) {
        var fractionEnd := SkipDigits(s, point + 1);
        assert MatchNumber(s, start) == Some(Match(fractionEnd + 2, s[start..fractionEnd + 2]));
        FractionBreakpoint(s, start, point, fractionEnd);
      } else if UnitAt(s, point) {
        assert MatchNumber(s, start) == Some(Match(point + 2, s[start..point + 2]));
        IntegerBreakpoint(s, start, point);
      }
    }
  }

  /** Regex.Matches from position i: the leftmost match, then the search goes on after it. */
  function Scan(s: string, i: nat): (r: seq<string>)
    requires i <= |s|
    ensures forall k :: 0 <= k < |r| ==> IsBreakpoint(r[k])
    decreases |s| - i
  {
    if i == |s| then []
    else
      match MatchAt(s, i)
      case Some(m) => [m.value] + Scan(s, m.end)
      case None => Scan(s, i + 1)
  }

  /** Where the integer part of a number text ends. */
  function IntegerEnd(t: string): int {
    var d := IndexOf(t, '.');
    if d < 0 then |t| else d
  }

  /** The parts of a number text, position by position. */
  lemma NumberParts(t: string)
    requires IsNumber(t)
    ensures 1 <= IntegerEnd(t) <= 5 && IntegerEnd(t) <= |t|
    ensures DigitsBetween(t, 0, IntegerEnd(t))
    ensures IntegerEnd(t) < |t| ==>
      t[IntegerEnd(t)] == '.' && IntegerEnd(t) + 1 < |t| <= IntegerEnd(t) + 21
      && DigitsBetween(t, IntegerEnd(t) + 1, |t|)
    ensures IntegerEnd(t) == |t| ==> IndexOf(t, '.') < 0
  {
    var d := IndexOf(t, '.');
    if d < 0 {
      DigitsSlice(t, 0, |t|);
      assert t[0..|t|] == t;
    } else {
      DigitsSlice(t, 0, d);
      DigitsSlice(t, d + 1, |t|);
      assert t[0..d] == t[..d];
    }
  }

  /** Digits of a text found at `start` of s are digits of s. */
  lemma ShiftDigits(s: string, start: nat, b: string, lo: nat, hi: nat)
    requires OccursAt(s, b, start) && lo <= hi <= |b|
    requires DigitsBetween(b, lo, hi)
    ensures DigitsBetween(s, start + lo, start + hi)
  {
    forall k | start + lo <= k < start + hi
      ensures IsDigit(s[k])
    {
      assert s[start..start + |b|][k - start] == s[k];
    }
  }

  /** The end of a run of digits, found from where the run stops. */
  lemma SkipDigitsAt(s: string, i: nat, j: nat)
    requires i <= j <= |s|
    requires DigitsBetween(s, i, j) && (j < |s| ==> !IsDigit(s[j]))
    ensures SkipDigits(s, i) == j
  {
  }

  /** What the scanner meets when a breakpoint b is written at `start`. */
  lemma BreakpointAt(s: string, start: nat, b: string) returns (e: nat, u: nat)
    requires OccursAt(s, b, start) && IsBreakpoint(b)
    ensures u + 2 == |b| && e == IntegerEnd(b[..u])
    ensures
      && IsDigit(s[start])
      && SkipDigits(s, start) == start + e
      && 1 <= e <= 5
      && (e < u ==> s[start + e] == '.' && 1 <= u - e - 1 <= 20 && SkipDigits(s, start + e + 1) == start + u)
      && (e == u ==> s[start + e] != '.')
      && UnitAt(s, start + u)
      && s[start..start + |b|] == b
  {
    var t := b[..|b| - 2];
    e := IntegerEnd(t);
    u := |t|;
    assert b[..u] == t;
    assert s[start..start + |b|] == b;
    IntegerAt(s, start, b);
    UnitAfterNumber(s, start, b);
    if e < u {
      FractionAt(s, start, b, e);
    }
  }

  /** The integer digits of a breakpoint written at start, as the scanner finds them. */
  lemma IntegerAt(s: string, start: nat, b: string)
    requires OccursAt(s, b, start) && IsBreakpoint(b)
    ensures var e := IntegerEnd(b[..|b| - 2]);
      && 1 <= e <= 5 && e <= |b| - 2
      && IsDigit(s[start])
      && SkipDigits(s, start) == start + e
      && (e == |b| - 2 ==> s[start + e] != '.')
  {
    var t := b[..|b| - 2];
    var e := IntegerEnd(t);
    var u := |t|;
    NumberParts(t);
    assert s[start..start + |b|] == b;
    UnitAfterNumber(s, start, b);
    assert DigitsBetween(b, 0, e) by {
      forall k | 0 <= k < e
        ensures IsDigit(b[k])
      {
        assert b[k] == t[k];
      }
    }
    ShiftDigits(s, start, b, 0, e);
    assert s[start + e] == b[e];
    assert b[e] == (if e < u then t[e] else b[u]);
    SkipDigitsAt(s, start, start + e);
  }

  /** After the number of a breakpoint written at start comes its unit. */
  lemma UnitAfterNumber(s: string, start: nat, b: string)
    requires OccursAt(s, b, start) && IsBreakpoint(b)
    ensures !IsDigit(s[start + |b| - 2]) && s[start + |b| - 2] != '.'
    ensures UnitAt(s, start + |b| - 2)
  {
    var u := |b| - 2;
    assert s[start..start + |b|] == b;
    assert s[start + u] == b[u] == b[u..][0];
    assert s[start + u..start + u + 2] == b[u..];
  }

  /** The fraction digits of a breakpoint written at start, as the scanner finds them. */
  lemma FractionAt(s: string, start: nat, b: string, e: nat)
    requires OccursAt(s, b, start) && IsBreakpoint(b)
    requires e == IntegerEnd(b[..|b| - 2]) < |b| - 2
    ensures s[start + e] == '.' && 1 <= |b| - 2 - e - 1 <= 20
    ensures SkipDigits(s, start + e + 1) == start + |b| - 2
  {
    var t := b[..|b| - 2];
    var u := |t|;
    NumberParts(t);
    assert s[start..start + |b|] == b;
    assert s[start + e] == b[e] == t[e];
    assert DigitsBetween(b, e + 1, u) by {
      forall k | e + 1 <= k < u
        ensures IsDigit(b[k])
      {
        assert b[k] == t[k];
      }
    }
    ShiftDigits(s, start, b, e + 1, u);
    UnitAfterNumber(s, start, b);
    SkipDigitsAt(s, start + e + 1, start + u);
  }

  /** MatchNumber on a number with a fraction part. */
  lemma MatchNumberFraction(s: string, start: nat, point: nat, fractionEnd: nat, b: string)
    requires start <= |s|
    requires SkipDigits(s, start) == point && 1 <= point - start <= 5
    requires point < |s| && s[point] == '.' && SkipDigits(s, point + 1) == fractionEnd
    requires 1 <= fractionEnd - point - 1 <= 20 && UnitAt(s, fractionEnd)
    requires fractionEnd + 2 == start + |b| && s[start..start + |b|] == b
    ensures MatchNumber(s, start) == Some(Match(start + |b|, b))
  {
  }

  /** MatchNumber on a number without a fraction part. */
  lemma MatchNumberInteger(s: string, start: nat, point: nat, b: string)
    requires start <= |s|
    requires SkipDigits(s, start) == point && 1 <= point - start <= 5
    requires point < |s| && s[point] != '.' && UnitAt(s, point)
    requires point + 2 == start + |b| && s[start..start + |b|] == b
    ensures MatchNumber(s, start) == Some(Match(start + |b|, b))
  {
  }

  /**
   * Completeness of the scanner: a breakpoint written after `min-width:` or
   * `max-width:` and any number of spaces is matched there, whatever follows it.
   */
  lemma MatchAtComplete(s: string, i: nat, start: nat, b: string)
    requires WidthAt(s, i)
    requires OccursAt(s, b, start) && IsBreakpoint(b)
    requires i + |MinWidth| <= start && forall k :: i + |MinWidth| <= k < start ==> s[k] == ' '
    ensures MatchAt(s, i) == Some(Match(start + |b|, b))
  {
    SkipSpacesAt(s, i + |MinWidth|, start);
    MatchAtNumber(s, i);
    MatchNumberComplete(s, start, b);
  }

  /** A breakpoint written at start is what MatchNumber captures there. */
  lemma MatchNumberComplete(s: string, start: nat, b: string)
    requires OccursAt(s, b, start) && IsBreakpoint(b)
    ensures MatchNumber(s, start) == Some(Match(start + |b|, b))
  {
    var e, u := BreakpointAt(s, start, b);
    if e < u {
      MatchNumberFraction(s, start, start + e, start + u, b);
    } else {
      MatchNumberInteger(s, start, start + e, b);
    }
  }

  /** After min-width: or max-width:, MatchAt is the number matched past the spaces. */
  lemma MatchAtNumber(s: string, i: nat)
    requires i <= |s| && WidthAt(s, i)
    ensures i + |MinWidth| <= |s|
    ensures MatchAt(s, i) == MatchNumber(s, SkipSpaces(s, i + |MinWidth|))
  {
  }

  /** The end of a run of spaces, found from where the run stops. */
  lemma SkipSpacesAt(s: string, i: nat, j: nat)
    requires i <= j < |s| && s[j] != ' '
    requires forall k :: i <= k < j ==> s[k] == ' '
    ensures SkipSpaces(s, i) == j
  {
  }

  // ---------------------------------------------------------------------------
  // The numeric sort key

  /** String.LastIndexOfAny of the digits: the position of the last digit, or -1. */
  function LastDigitIndex(m: string): (r: int)
    ensures -1 <= r < |m|
    ensures r >= 0 ==> IsDigit(m[r])
    ensures forall k :: r < k < |m| ==> !IsDigit(m[k])
  {
    if m == [] then -1
    else if IsDigit(m[|m| - 1]) then |m| - 1
    else LastDigitIndex(m[..|m| - 1])
  }

  /** The text before the unit: everything up to the last digit. */
  function NumberText(m: string): string {
    m[..LastDigitIndex(m) + 1]
  }

  function Pow10(n: nat): (r: nat)
    ensures r >= 1
  {
    if n == 0 then 1 else 10 * Pow10(n - 1)
  }

  /** The exact value of a number text, as double.Parse reads it (without rounding). */
  function Value(t: string): real
    requires IsNumber(t)
  {
    var d := IndexOf(t, '.');
    if d < 0 then DigitsValue(t) as real
    else DigitsValue(t[..d]) as real + DigitsValue(t[d + 1..]) as real / Pow10(|t| - d - 1) as real
  }

  /** The sort key of a collected value; every collected value is a breakpoint, so the
      fallback is never used. */
  function Magnitude(m: string): real {
    var t := NumberText(m);
    if IsNumber(t) then Value(t) else 0.0
  }

  /** The number text of a breakpoint is everything but its unit. */
  lemma BreakpointNumber(m: string)
    requires IsBreakpoint(m)
    ensures NumberText(m) == m[..|m| - 2]
    ensures Magnitude(m) == Value(m[..|m| - 2])
  {
    var t := m[..|m| - 2];
    NumberParts(t);
    assert IsDigit(t[|t| - 1]);
    assert m[|m| - 3] == t[|t| - 1];
    assert !IsDigit(m[|m| - 2]) && !IsDigit(m[|m| - 1]) by {
      assert m[|m| - 2..][0] == m[|m| - 2];
      assert m[|m| - 2..][1] == m[|m| - 1];
    }
    assert LastDigitIndex(m) == |m| - 3;
  }

  predicate ByMagnitude(a: string, b: string) {
    Magnitude(a) <= Magnitude(b)
  }

  lemma ByMagnitudeIsTotalPreorder()
    ensures TotalPreorder(ByMagnitude)
  {
  }

  // ---------------------------------------------------------------------------
  // Collecting over the stylesheets

  /** A stylesheet: the directory part of its path (empty when there is none) and its text. */
  datatype CssFile = CssFile(directory: string, text: string)

  /** The directory with every occurrence of the root path removed. */
  function RelativeDirectory(file: CssFile, root: string): string
    requires root != []
  {
    if file.directory == [] then [] else RemoveAll(file.directory, root)
  }

  /** A file is skipped when its relative directory starts with an ignored directory. */
  predicate Excluded(file: CssFile, root: string, ignored: seq<string>)
    requires root != []
  {
    exists j | 0 <= j < |ignored| :: StartsWith(RelativeDirectory(file, root), ignored[j])
  }

  /** The values collected from `files`, each added only if not already in the list. */
  function Collect(acc: seq<string>, files: seq<CssFile>, root: string, ignored: seq<string>): seq<string>
    requires root != []
  {
    if files == [] then acc
    else
      var before := Collect(acc, files[..|files| - 1], root, ignored);
      var file := files[|files| - 1];
      if Excluded(file, root, ignored) then before else AppendNew(before, Scan(file.text, 0))
  }

  /** The result of GetMediaQueries over the stylesheets found under root. */
  function MediaQueries(files: seq<CssFile>, root: string, ignored: seq<string>): seq<string>
    requires root != []
  {
    SortBy(Collect([], files, root, ignored), ByMagnitude)
  }

  /** GetMediaQueries: scans the files in order, adding each value not yet found,
      then orders the list by magnitude. */
  method GetMediaQueries(root: string, ignored: seq<string>, files: seq<CssFile>)
    returns (mediaQueries: seq<string>)
    requires root != []
    ensures mediaQueries == MediaQueries(files, root, ignored)
  {
    mediaQueries := [];
    for i := 0 to |files|
      invariant mediaQueries == Collect([], files[..i], root, ignored)
    {
      assert files[..i + 1][..i] == files[..i];
      var file := files[i];
      var directory := file.directory;
      if directory != [] {
        directory := RemoveAll(directory, root);
      }
      var skip := exists j | 0 <= j < |ignored| :: StartsWith(directory, ignored[j]);
      if !skip {
        var found := Scan(file.text, 0);
        mediaQueries := AddNew(mediaQueries, found);
      }
    }
    assert files[..|files|] == files;
    mediaQueries := SortBy(mediaQueries, ByMagnitude);
  }

  /** The loop over one file's matches: each value not yet in the list is appended. */
  method AddNew(list: seq<string>, found: seq<string>) returns (r: seq<string>)
    ensures r == AppendNew(list, found)
  {
    r := list;
    for k := 0 to |found|
      invariant r == AppendNew(list, found[..k])
    {
      assert found[..k + 1][..k] == found[..k];
      if found[k] !in r {
        r := r + [found[k]];
      }
    }
    assert found[..|found|] == found;
  }

  // ---------------------------------------------------------------------------
  // Properties

  lemma {:induction false} CollectConcat(acc: seq<string>, xs: seq<CssFile>, ys: seq<CssFile>, root: string, ignored: seq<string>)
    requires root != []
    ensures Collect(Collect(acc, xs, root, ignored), ys, root, ignored) == Collect(acc, xs + ys, root, ignored)
    decreases |ys|
  {
    if ys == [] {
      assert xs + ys == xs;
    } else {
      CollectConcat(acc, xs, ys[..|ys| - 1], root, ignored);
      assert (xs + ys)[..|xs + ys| - 1] == xs + ys[..|ys| - 1];
    }
  }

  /** The collected values never repeat. */
  lemma {:induction false} CollectNoDuplicates(acc: seq<string>, files: seq<CssFile>, root: string, ignored: seq<string>)
    requires root != []
    requires NoDuplicates(acc)
    ensures NoDuplicates(Collect(acc, files, root, ignored))
  {
    if files != [] {
      CollectNoDuplicates(acc, files[..|files| - 1], root, ignored);
    }
  }

  /** The file is not skipped and x is one of its breakpoints. */
  predicate Contributes(file: CssFile, root: string, ignored: seq<string>, x: string)
    requires root != []
  {
    !Excluded(file, root, ignored) && x in Scan(file.text, 0)
  }

  /** One more file adds its breakpoints, unless it is skipped. */
  lemma CollectStep(files: seq<CssFile>, root: string, ignored: seq<string>, x: string)
    requires root != [] && files != []
    ensures x in Collect([], files, root, ignored) <==>
      x in Collect([], files[..|files| - 1], root, ignored) || Contributes(files[|files| - 1], root, ignored, x)
  {
    var before := Collect([], files[..|files| - 1], root, ignored);
    var last := files[|files| - 1];
    if !Excluded(last, root, ignored) {
      var found := Scan(last.text, 0);
      var r := AppendNew(before, found);
      if x in r {
        var k :| 0 <= k < |r| && r[k] == x;
      }
      if x in before {
        var k :| 0 <= k < |before| && before[k] == x;
        assert r[k] == x;
      }
      if x in found {
        var k :| 0 <= k < |found| && found[k] == x;
      }
    }
  }

  /** The collected values are exactly the breakpoints of the files that are not skipped. */
  lemma {:induction false} CollectContents(files: seq<CssFile>, root: string, ignored: seq<string>, x: string)
    requires root != []
    ensures x in Collect([], files, root, ignored) <==> AnyContributes(files, root, ignored, x)
  {
    if files != [] {
      CollectStep(files, root, ignored, x);
      CollectContents(files[..|files| - 1], root, ignored, x);
      AnyContributesSnoc(files, root, ignored, x);
    }
  }

  /** Some file of the list contributes x. */
  predicate AnyContributes(files: seq<CssFile>, root: string, ignored: seq<string>, x: string)
    requires root != []
  {
    Any(files, (f: CssFile) => Contributes(f, root, ignored, x))
  }

  lemma AnyContributesSnoc(files: seq<CssFile>, root: string, ignored: seq<string>, x: string)
    requires root != [] && files != []
    ensures AnyContributes(files, root, ignored, x) <==>
      AnyContributes(files[..|files| - 1], root, ignored, x) || Contributes(files[|files| - 1], root, ignored, x)
  {
    AnySnoc(files, (f: CssFile) => Contributes(f, root, ignored, x));
  }

  /** The result holds each breakpoint once. */
  lemma MediaQueriesDistinct(files: seq<CssFile>, root: string, ignored: seq<string>)
    requires root != []
    ensures NoDuplicates(MediaQueries(files, root, ignored))
  {
    var c := Collect([], files, root, ignored);
    CollectNoDuplicates([], files, root, ignored);
    PermutationNoDuplicates(c, SortBy(c, ByMagnitude));
  }

  /** The result lists exactly the breakpoints of the files that are not skipped. */
  lemma MediaQueriesContents(files: seq<CssFile>, root: string, ignored: seq<string>, x: string)
    requires root != []
    ensures x in MediaQueries(files, root, ignored) <==>
      exists i :: 0 <= i < |files| && Contributes(files[i], root, ignored, x)
  {
    var c := Collect([], files, root, ignored);
    var r := MediaQueries(files, root, ignored);
    assert x in r <==> x in multiset(r);
    assert x in c <==> x in multiset(c);
    CollectContents(files, root, ignored, x);
  }

  /** Every value of the result is a breakpoint. */
  lemma MediaQueriesBreakpoints(files: seq<CssFile>, root: string, ignored: seq<string>)
    requires root != []
    ensures forall k :: 0 <= k < |MediaQueries(files, root, ignored)| ==> IsBreakpoint(MediaQueries(files, root, ignored)[k])
  {
    var r := MediaQueries(files, root, ignored);
    forall k | 0 <= k < |r|
      ensures IsBreakpoint(r[k])
    {
      MediaQueriesContents(files, root, ignored, r[k]);
      var i :| 0 <= i < |files| && Contributes(files[i], root, ignored, r[k]);
      var found := Scan(files[i].text, 0);
      var j :| 0 <= j < |found| && found[j] == r[k];
    }
  }

  /** The result is ordered by magnitude; values of equal magnitude keep the order
      in which they were found. */
  lemma MediaQueriesOrdered(files: seq<CssFile>, root: string, ignored: seq<string>)
    requires root != []
    ensures Sorted(MediaQueries(files, root, ignored), ByMagnitude)
    ensures forall e :: Equivalents(MediaQueries(files, root, ignored), e, ByMagnitude)
                     == Equivalents(Collect([], files, root, ignored), e, ByMagnitude)
  {
    var c := Collect([], files, root, ignored);
    ByMagnitudeIsTotalPreorder();
    SortBySorted(c, ByMagnitude);
    forall e {
      SortByStable(c, e, ByMagnitude);
    }
  }

  /** A skipped file contributes nothing, wherever it stands in the scan order. */
  lemma SkippedFileContributesNothing(xs: seq<CssFile>, f: CssFile, ys: seq<CssFile>, root: string, ignored: seq<string>)
    requires root != []
    requires Excluded(f, root, ignored)
    ensures MediaQueries(xs + [f] + ys, root, ignored) == MediaQueries(xs + ys, root, ignored)
  {
    CollectConcat([], xs + [f], ys, root, ignored);
    CollectConcat([], xs, [f], root, ignored);
    CollectConcat([], xs, ys, root, ignored);
    assert [f][..0] == [];
  }

  /** A file below the root is skipped exactly when its path relative to the root
      starts with an ignored directory (the root occurring only once in the path). */
  lemma ExcludedBelowRoot(root: string, rest: string, text: string, ignored: seq<string>)
    requires root != []
    requires !Occurs(rest, root)
    ensures Excluded(CssFile(root + rest, text), root, ignored) <==>
      exists j | 0 <= j < |ignored| :: StartsWith(rest, ignored[j])
  {
    RemoveAllLeading(root, rest);
  }
}
