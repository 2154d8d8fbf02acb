/**
 * String operations of the .NET base library that the provider relies on:
 * invariant-culture case-insensitive comparison (ASCII folding), String.Split
 * with RemoveEmptyEntries, String.Replace with an empty replacement,
 * String.Trim and the trim of Boolean.TryParse, ordinal string order and
 * integer formatting.
 */
module Text {
  import C = Collections

  /** Case folding of one character (ASCII letters only). */
  function Lower(c: char): (r: char)
    ensures 'A' <= c <= 'Z' ==> 'a' <= r <= 'z'
    ensures !('A' <= c <= 'Z') ==> r == c
  {
    if 'A' <= c <= 'Z' then (c as int + 32) as char else c
  }

  function FoldCase(s: string): (r: string)
    ensures |r| == |s|
    ensures forall i :: 0 <= i < |s| ==> r[i] == Lower(s[i])
  {
    seq(|s|, i requires 0 <= i < |s| => Lower(s[i]))
  }

  /** A text without capitals is its own folding. */
  lemma FoldCaseUncapitalised(s: string)
    requires forall i :: 0 <= i < |s| ==> !('A' <= s[i] <= 'Z')
    ensures FoldCase(s) == s
  {
  }

  /** String.Equals(a, b, StringComparison.InvariantCultureIgnoreCase) */
  predicate EqualsIgnoreCase(a: string, b: string) {
    FoldCase(a) == FoldCase(b)
  }

  /** a.StartsWith(prefix, StringComparison.InvariantCultureIgnoreCase) */
  predicate StartsWithIgnoreCase(s: string, prefix: string) {
    FoldCase(prefix) <= FoldCase(s)
  }

  /** s.StartsWith(prefix), compared ordinally */
  predicate StartsWith(s: string, prefix: string) {
    prefix <= s
  }

  predicate EndsWith(s: string, suffix: string) {
    |suffix| <= |s| && s[|s| - |suffix|..] == suffix
  }

  /** Case-insensitive equality is an equivalence that contains plain equality. */
  lemma EqualsIgnoreCaseIsEquivalence(a: string, b: string, c: string)
    ensures EqualsIgnoreCase(a, a)
    ensures EqualsIgnoreCase(a, b) ==> EqualsIgnoreCase(b, a)
    ensures EqualsIgnoreCase(a, b) && EqualsIgnoreCase(b, c) ==> EqualsIgnoreCase(a, c)
    ensures EqualsIgnoreCase(a, b) ==> |a| == |b|
  {
  }

  // ---------------------------------------------------------------------------
  // String.Split(new[] {sep}) and its RemoveEmptyEntries variant

  /** Every field between separators, empty ones included: s.Split(sep). */
  function Fields(s: string, sep: char): (r: seq<string>)
    ensures |r| >= 1
    ensures forall i :: 0 <= i < |r| ==> sep !in r[i]
    decreases |s|
  {
    if s == [] then [[]]
    else
      var rest := Fields(s[1..], sep);
      if s[0] == sep then [[]] + rest else [[s[0]] + rest[0]] + rest[1..]
  }

  function NonEmpty(xs: seq<string>): (r: seq<string>)
    ensures forall i :: 0 <= i < |r| ==> r[i] != [] && r[i] in xs
    ensures forall x :: x in xs && x != [] ==> x in r
  {
    C.Filter(xs, IsNonEmpty)
  }

  predicate IsNonEmpty(s: string) {
    s != []
  }

  /** A single entry is kept exactly when it is non-empty. */
  lemma NonEmptySingleton(x: string)
    ensures NonEmpty([x]) == if x == [] then [] else [x]
  {
    C.FilterSingleton(x, IsNonEmpty);
  }

  /** Dropping empty entries keeps the order and repeats of the others: it distributes over concatenation. */
  lemma NonEmptyConcat(xs: seq<string>, ys: seq<string>)
    ensures NonEmpty(xs + ys) == NonEmpty(xs) + NonEmpty(ys)
  {
    C.FilterConcat(xs, ys, IsNonEmpty);
  }

  /** s.Split(new[] {sep}, StringSplitOptions.RemoveEmptyEntries) */
  function Split(s: string, sep: char): (r: seq<string>)
    ensures forall i :: 0 <= i < |r| ==> r[i] != [] && sep !in r[i]
  {
    NonEmpty(Fields(s, sep))
  }

  /** string.Join(sep, xs) */
  function Join(xs: seq<string>, sep: char): string {
    if xs == [] then []
    else if |xs| == 1 then xs[0]
    else xs[0] + [sep] + Join(xs[1..], sep)
  }

  lemma {:induction false} FieldsOfFreeText(a: string, sep: char)
    requires sep !in a
    ensures Fields(a, sep) == [a]
    decreases |a|
  {
    if a != [] {
      FieldsOfFreeText(a[1..], sep);
      assert [a[0]] + a[1..] == a;
    }
  }

  lemma {:induction false} FieldsOfSeparated(a: string, sep: char, b: string)
    requires sep !in a
    ensures Fields(a + [sep] + b, sep) == [a] + Fields(b, sep)
    decreases |a|
  {
    if a == [] {
      assert a + [sep] + b == [sep] + b;
      assert ([sep] + b)[1..] == b;
    } else {
      FieldsOfSeparated(a[1..], sep, b);
      assert (a + [sep] + b)[1..] == a[1..] + [sep] + b;
      assert [a[0]] + a[1..] == a;
    }
  }

  /** Joining separator-free fields and splitting again gives the fields back. */
  lemma {:induction false} FieldsJoin(xs: seq<string>, sep: char)
    requires |xs| >= 1
    requires forall i :: 0 <= i < |xs| ==> sep !in xs[i]
    ensures Fields(Join(xs, sep), sep) == xs
  {
    if |xs| == 1 {
      FieldsOfFreeText(xs[0], sep);
    } else {
      FieldsJoin(xs[1..], sep);
      FieldsOfSeparated(xs[0], sep, Join(xs[1..], sep));
      assert [xs[0]] + xs[1..] == xs;
    }
  }

  /** Split with RemoveEmptyEntries undoes Join on non-empty, separator-free entries. */
  lemma SplitJoin(xs: seq<string>, sep: char)
    requires forall i :: 0 <= i < |xs| ==> xs[i] != [] && sep !in xs[i]
    ensures Split(Join(xs, sep), sep) == xs
  {
    if xs != [] {
      FieldsJoin(xs, sep);
      NonEmptyOfNonEmpty(xs);
    } else {
      assert Fields([], sep) == [[]];
      assert NonEmpty([[]]) == [];
    }
  }

  lemma {:induction false} NonEmptyOfNonEmpty(xs: seq<string>)
    requires forall i :: 0 <= i < |xs| ==> xs[i] != []
    ensures NonEmpty(xs) == xs
  {
    if xs != [] {
      var n := |xs| - 1;
      NonEmptyOfNonEmpty(xs[..n]);
      assert xs[..n] + [xs[n]] == xs;
    }
  }

  // ---------------------------------------------------------------------------
  // String.Replace(pattern, string.Empty)

  /** Occurs(s, pat): pat is a substring of s. */
  predicate Occurs(s: string, pat: string) {
    exists i | 0 <= i <= |s| - |pat| :: OccursAt(s, pat, i)
  }

  predicate OccursAt(s: string, pat: string, i: int) {
    0 <= i <= |s| - |pat| && s[i..i + |pat|] == pat
  }

  /** s.Replace(pat, string.Empty): occurrences found left to right, without overlap. */
  function RemoveAll(s: string, pat: string): (r: string)
    requires pat != []
    ensures |r| <= |s|
    decreases |s|
  {
    if |s| < |pat| then s
    else if s[..|pat|] == pat then RemoveAll(s[|pat|..], pat)
    else [s[0]] + RemoveAll(s[1..], pat)
  }

  /** Removing a one-character pattern leaves none of that character, and keeps the others in order. */
  lemma {:induction false} RemoveAllChar(s: string, c: char)
    ensures c !in RemoveAll(s, [c])
    ensures c !in s ==> RemoveAll(s, [c]) == s
    ensures forall d :: d != c ==> multiset(RemoveAll(s, [c]))[d] == multiset(s)[d]
    decreases |s|
  {
    if |s| >= 1 {
      RemoveAllChar(s[1..], c);
      assert s == [s[0]] + s[1..];
      assert s[..1] == [s[0]];
    }
  }

  /** A text that does not contain the pattern is left as it is. */
  lemma {:induction false} RemoveAllAbsent(s: string, pat: string)
    requires pat != []
    requires !Occurs(s, pat)
    ensures RemoveAll(s, pat) == s
    decreases |s|
  {
    if |s| >= |pat| {
      assert !OccursAt(s, pat, 0);
      assert s[0..|pat|] == s[..|pat|];
      assert !Occurs(s[1..], pat) by {
        forall i | 0 <= i <= |s[1..]| - |pat|
          ensures !OccursAt(s[1..], pat, i)
        {
          assert s[1..][i..i + |pat|] == s[i + 1..i + 1 + |pat|];
          assert !OccursAt(s, pat, i + 1);
        }
      }
      RemoveAllAbsent(s[1..], pat);
      assert [s[0]] + s[1..] == s;
    }
  }

  /** A leading occurrence is removed, the rest is processed on its own. */
  lemma RemoveAllLeading(pat: string, rest: string)
    requires pat != []
    requires !Occurs(rest, pat)
    ensures RemoveAll(pat + rest, pat) == rest
  {
    assert (pat + rest)[..|pat|] == pat;
    assert (pat + rest)[|pat|..] == rest;
    RemoveAllAbsent(rest, pat);
  }

  // ---------------------------------------------------------------------------
  // String.Trim() and the trim inside Boolean.TryParse

  /** Char.IsWhiteSpace, over the ASCII white-space characters. */
  predicate IsWhiteSpace(c: char) {
    c == ' ' || c == '\t' || c == '\n' || c == '\r' || c == '\U{000B}' || c == '\U{000C}'
  }

  /** The characters Boolean.TryParse trims: white space and the NUL character. */
  predicate IsWhiteSpaceOrNull(c: char) {
    c == '\0' || IsWhiteSpace(c)
  }

  /** The longest suffix that does not start with a character of drop. */
  function TrimStart(s: string, drop: char -> bool): (r: string)
    ensures |r| <= |s| && r == s[|s| - |r|..]
    ensures r != [] ==> !drop(r[0])
    ensures forall i :: 0 <= i < |s| - |r| ==> drop(s[i])
  {
    if s != [] && drop(s[0]) then TrimStart(s[1..], drop) else s
  }

  /** The longest prefix that does not end with a character of drop. */
  function TrimEnd(s: string, drop: char -> bool): (r: string)
    ensures |r| <= |s| && r == s[..|r|]
    ensures r != [] ==> !drop(r[|r| - 1])
    ensures forall i :: |r| <= i < |s| ==> drop(s[i])
  {
    if s != [] && drop(s[|s| - 1]) then TrimEnd(s[..|s| - 1], drop) else s
  }

  /** The infix left once the characters of drop are removed from both ends. */
  function TrimChars(s: string, drop: char -> bool): (r: string)
    ensures |r| <= |s|
    ensures r != [] ==> !drop(r[0]) && !drop(r[|r| - 1])
    ensures exists i :: TrimmedAt(s, r, i, drop)
  {
    var t := TrimStart(s, drop);
    var r := TrimEnd(t, drop);
    TrimmedAtParts(s, t, r, drop);
    r
  }

  /** s.Trim(): the infix that neither starts nor ends with white space, with
      only white space around it. */
  function Trim(s: string): (r: string)
    ensures |r| <= |s|
    ensures r != [] ==> !IsWhiteSpace(r[0]) && !IsWhiteSpace(r[|r| - 1])
    ensures exists i :: TrimmedAt(s, r, i, IsWhiteSpace)
  {
    TrimChars(s, IsWhiteSpace)
  }

  /** The trim of Boolean.TryParse: the infix that neither starts nor ends with
      white space or NUL, with only white space and NUL around it. */
  function TrimWhiteSpaceAndNull(s: string): (r: string)
    ensures |r| <= |s|
    ensures r != [] ==> !IsWhiteSpaceOrNull(r[0]) && !IsWhiteSpaceOrNull(r[|r| - 1])
    ensures exists i :: TrimmedAt(s, r, i, IsWhiteSpaceOrNull)
  {
    TrimChars(s, IsWhiteSpaceOrNull)
  }

  /** r sits in s at position i, and everything before and after it is in drop. */
  predicate TrimmedAt(s: string, r: string, i: int, drop: char -> bool) {
    && OccursAt(s, r, i)
    && (forall k :: 0 <= k < i ==> drop(s[k]))
    && (forall k :: i + |r| <= k < |s| ==> drop(s[k]))
  }

  /** Characters of drop removed from the front, then from the back, leave an infix with such characters around it. */
  lemma TrimmedAtParts(s: string, t: string, r: string, drop: char -> bool)
    requires |t| <= |s| && t == s[|s| - |t|..]
    requires forall k :: 0 <= k < |s| - |t| ==> drop(s[k])
    requires |r| <= |t| && r == t[..|r|]
    requires forall k :: |r| <= k < |t| ==> drop(t[k])
    ensures TrimmedAt(s, r, |s| - |t|, drop)
  {
    var i := |s| - |t|;
    assert s[i..i + |r|] == r;
    forall k | i + |r| <= k < |s|
      ensures drop(s[k])
    {
      assert s[k] == t[k - i];
    }
  }

  /** Dropping from the front stops at the first character outside drop. */
  lemma {:induction false} TrimStartPadded(pre: string, rest: string, drop: char -> bool)
    requires forall k :: 0 <= k < |pre| ==> drop(pre[k])
    requires rest != [] && !drop(rest[0])
    ensures TrimStart(pre + rest, drop) == rest
    decreases |pre|
  {
    if pre == [] {
      assert pre + rest == rest;
    } else {
      assert (pre + rest)[1..] == pre[1..] + rest;
      TrimStartPadded(pre[1..], rest, drop);
    }
  }

  /** Dropping from the back stops at the last character outside drop. */
  lemma {:induction false} TrimEndPadded(rest: string, post: string, drop: char -> bool)
    requires rest != [] && !drop(rest[|rest| - 1])
    requires forall k :: 0 <= k < |post| ==> drop(post[k])
    ensures TrimEnd(rest + post, drop) == rest
    decreases |post|
  {
    if post == [] {
      assert rest + post == rest;
    } else {
      assert (rest + post)[..|rest + post| - 1] == rest + post[..|post| - 1];
      TrimEndPadded(rest, post[..|post| - 1], drop);
    }
  }

  /** Trimming removes exactly the padding around a text that is not padded itself. */
  lemma TrimPadded(pre: string, x: string, post: string, drop: char -> bool)
    requires forall k :: 0 <= k < |pre| ==> drop(pre[k])
    requires forall k :: 0 <= k < |post| ==> drop(post[k])
    requires x != [] && !drop(x[0]) && !drop(x[|x| - 1])
    ensures TrimChars(pre + x + post, drop) == x
  {
    assert pre + x + post == pre + (x + post);
    TrimStartPadded(pre, x + post, drop);
    TrimEndPadded(x, post, drop);
  }

  // ---------------------------------------------------------------------------
  // Ordinal string order

  /** Lexicographic order on character codes (String.CompareOrdinal(a, b) <= 0). */
  predicate OrdinalLeq(a: string, b: string)
    decreases |a|
  {
    if a == [] then true
    else if b == [] then false
    else if a[0] != b[0] then a[0] < b[0]
    else OrdinalLeq(a[1..], b[1..])
  }

  lemma {:induction false} OrdinalLeqTotal(a: string, b: string)
    ensures OrdinalLeq(a, b) || OrdinalLeq(b, a)
    decreases |a|
  {
    if a != [] && b != [] && a[0] == b[0] {
      OrdinalLeqTotal(a[1..], b[1..]);
    }
  }

  lemma {:induction false} OrdinalLeqTransitive(a: string, b: string, c: string)
    requires OrdinalLeq(a, b) && OrdinalLeq(b, c)
    ensures OrdinalLeq(a, c)
    decreases |a|
  {
    if a != [] && b != [] && c != [] && a[0] == b[0] && b[0] == c[0] {
      OrdinalLeqTransitive(a[1..], b[1..], c[1..]);
    }
  }

  lemma {:induction false} OrdinalLeqAntisymmetric(a: string, b: string)
    requires OrdinalLeq(a, b) && OrdinalLeq(b, a)
    ensures a == b
    decreases |a|
  {
    if a != [] && b != [] {
      OrdinalLeqAntisymmetric(a[1..], b[1..]);
      assert a == [a[0]] + a[1..] && b == [b[0]] + b[1..];
    }
  }

  // ---------------------------------------------------------------------------
  // Decimal digits

  predicate IsDigit(c: char) {
    '0' <= c <= '9'
  }

  predicate AllDigits(s: string) {
    forall i :: 0 <= i < |s| ==> IsDigit(s[i])
  }

  function DigitChar(d: nat): (c: char)
    requires d < 10
    ensures IsDigit(c)
  {
    ('0' as int + d) as char
  }

  function DigitValue(c: char): (d: nat)
    requires IsDigit(c)
    ensures d < 10
  {
    c as int - '0' as int
  }

  /** The value of a string of decimal digits, most significant first. */
  function DigitsValue(s: string): nat
    requires AllDigits(s)
  {
    if s == [] then 0 else 10 * DigitsValue(s[..|s| - 1]) + DigitValue(s[|s| - 1])
  }

  /** n.ToString(CultureInfo.InvariantCulture) for a non-negative integer. */
  function NatToString(n: nat): (s: string)
    ensures s != [] && AllDigits(s)
  {
    if n < 10 then [DigitChar(n)] else NatToString(n / 10) + [DigitChar(n % 10)]
  }

  /** Formatting then reading the digits back gives the same number. */
  lemma {:induction false} NatToStringRoundTrip(n: nat)
    ensures DigitsValue(NatToString(n)) == n
  {
    var s := NatToString(n);
    if n >= 10 {
      NatToStringRoundTrip(n / 10);
      assert s[..|s| - 1] == NatToString(n / 10);
    }
  }

  /** A whole number formatted as text, with a leading '-' when negative. */
  function IntToString(n: int): (s: string)
    ensures s != []
    ensures n >= 0 <==> s[0] != '-'
    ensures n >= 0 ==> AllDigits(s) && DigitsValue(s) == n
    ensures n < 0 ==> AllDigits(s[1..]) && DigitsValue(s[1..]) == -n
  {
    if n >= 0 then
      NatToStringRoundTrip(n);
      NatToString(n)
    else
      NatToStringRoundTrip(-n);
      assert ("-" + NatToString(-n))[1..] == NatToString(-n);
      "-" + NatToString(-n)
  }
}
