/**
 * The pattern registry (Patterns) and pattern lookup (FindPattern).
 * The Pattern class itself is not part of this model: its constructors are
 * supplied as functions, and a pattern is the record of the properties the
 * provider reads.
 */
module Patterns {
  import opened Wrappers
  import opened Text
  import opened Collections
  import opened Sorting

  datatype Pattern = Pattern(
    patternType: string,
    subType: string,          // "" when the pattern sits directly under its type
    name: string,
    partial: string,
    pathDash: string,
    pathSlash: string,
    viewUrl: string,
    htmlUrl: string,
    state: string,            // "" when the pattern declares no state
    hidden: bool,
    lineages: seq<string>,    // partials of the patterns it includes
    pseudoPatterns: seq<string>,
    filePath: string)

  /** A template file found by a directory scan: its full name and the full name of its directory. */
  datatype ViewFile = ViewFile(fullName: string, directory: string)

  /**
   * The two Pattern constructors for the active engine: from a template file,
   * and from a template file plus the name of one of its pseudo-patterns.
   */
  datatype Factory = Factory(fromFile: string -> Pattern, fromPseudo: (string, string) -> Pattern)

  /** The template files below the pattern folder that do not sit directly in it. */
  function NestedViews(views: seq<ViewFile>, folder: string): (r: seq<string>)
    ensures |r| <= |views|
    ensures forall i :: 0 <= i < |views| && views[i].directory != folder ==> views[i].fullName in r
    ensures forall x :: x in r ==> exists i :: 0 <= i < |views| && views[i].directory != folder && views[i].fullName == x
  {
    if views == [] then []
    else
      var rest := NestedViews(views[1..], folder);
      assert forall x :: x in rest ==> exists i :: 0 <= i < |views| && views[i].directory != folder && views[i].fullName == x by {
        forall x | x in rest
          ensures exists i :: 0 <= i < |views| && views[i].directory != folder && views[i].fullName == x
        {
          var i :| 0 <= i < |views[1..]| && views[1..][i].directory != folder && views[1..][i].fullName == x;
          assert views[i + 1] == views[1..][i];
        }
      }
      if views[0].directory != folder then [views[0].fullName] + rest else rest
  }

  /** The nested files keep the scan's order and repeats: the selection distributes over concatenation. */
  lemma {:induction false} NestedViewsConcat(xs: seq<ViewFile>, ys: seq<ViewFile>, folder: string)
    ensures NestedViews(xs + ys, folder) == NestedViews(xs, folder) + NestedViews(ys, folder)
  {
    if xs == [] {
      assert xs + ys == ys;
    } else {
      var zs := xs + ys;
      assert zs[1..] == xs[1..] + ys;
      assert zs[0] == xs[0];
      var head := if xs[0].directory != folder then [xs[0].fullName] else [];
      assert NestedViews(zs, folder) == head + NestedViews(xs[1..] + ys, folder);
      NestedViewsConcat(xs[1..], ys, folder);
      assert NestedViews(xs, folder) == head + NestedViews(xs[1..], folder);
    }
  }

  /** A single file is kept exactly when it does not sit in the folder itself. */
  lemma NestedViewsSingleton(v: ViewFile, folder: string)
    ensures NestedViews([v], folder) == if v.directory != folder then [v.fullName] else []
  {
    assert [v][1..] == [];
  }

  function Build(paths: seq<string>, fromFile: string -> Pattern): (r: seq<Pattern>)
    ensures |r| == |paths| && forall i :: 0 <= i < |paths| ==> r[i] == fromFile(paths[i])
  {
    seq(|paths|, i requires 0 <= i < |paths| => fromFile(paths[i]))
  }

  /** One pseudo-pattern per name the parent declares, in declaration order. */
  function PseudoOf(parent: Pattern, fromPseudo: (string, string) -> Pattern): (r: seq<Pattern>)
    ensures |r| == |parent.pseudoPatterns|
    ensures forall i :: 0 <= i < |r| ==> r[i] == fromPseudo(parent.filePath, parent.pseudoPatterns[i])
  {
    seq(|parent.pseudoPatterns|, i requires 0 <= i < |parent.pseudoPatterns| =>
      fromPseudo(parent.filePath, parent.pseudoPatterns[i]))
  }

  /** The patterns that declare at least one pseudo-pattern, in order. */
  function Parents(ps: seq<Pattern>): (r: seq<Pattern>)
    ensures forall p :: p in r ==> p in ps && p.pseudoPatterns != []
    ensures forall p :: p in ps && p.pseudoPatterns != [] ==> p in r
  {
    Filter(ps, IsParent)
  }

  predicate IsParent(p: Pattern) {
    p.pseudoPatterns != []
  }

  /** The parents keep the registry's order and repeats: the selection distributes over concatenation. */
  lemma ParentsConcat(xs: seq<Pattern>, ys: seq<Pattern>)
    ensures Parents(xs + ys) == Parents(xs) + Parents(ys)
  {
    FilterConcat(xs, ys, IsParent);
  }

  /** A single pattern is a parent exactly when it declares a pseudo-pattern. */
  lemma ParentsSingleton(p: Pattern)
    ensures Parents([p]) == if p.pseudoPatterns != [] then [p] else []
  {
    FilterSingleton(p, IsParent);
  }

  /** The pseudo-patterns of every parent, parent by parent. */
  function Expand(parents: seq<Pattern>, fromPseudo: (string, string) -> Pattern): seq<Pattern> {
    if parents == [] then []
    else Expand(parents[..|parents| - 1], fromPseudo) + PseudoOf(parents[|parents| - 1], fromPseudo)
  }

  /** Meta patterns, then nested pattern files; both before pseudo-pattern expansion. */
  function BasePatterns(metaViews: seq<string>, views: seq<ViewFile>, folder: string, f: Factory): seq<Pattern> {
    Build(metaViews, f.fromFile) + Build(NestedViews(views, folder), f.fromFile)
  }

  /** The registry before sorting: the base patterns and one level of pseudo-patterns. */
  function Unsorted(metaViews: seq<string>, views: seq<ViewFile>, folder: string, f: Factory): seq<Pattern> {
    var base := BasePatterns(metaViews, views, folder, f);
    base + Expand(Parents(base), f.fromPseudo)
  }

  /** Ordering by PathDash, ordinally. */
  predicate ByPathDash(a: Pattern, b: Pattern) {
    OrdinalLeq(a.pathDash, b.pathDash)
  }

  lemma ByPathDashIsTotalPreorder()
    ensures TotalPreorder(ByPathDash)
  {
    forall a: Pattern, b: Pattern
      ensures ByPathDash(a, b) || ByPathDash(b, a)
    {
      OrdinalLeqTotal(a.pathDash, b.pathDash);
    }
    forall a: Pattern, b: Pattern, c: Pattern | ByPathDash(a, b) && ByPathDash(b, c)
      ensures ByPathDash(a, c)
    {
      OrdinalLeqTransitive(a.pathDash, b.pathDash, c.pathDash);
    }
  }

  /** The value of Patterns() for a given snapshot of the source folders. */
  function Registry(metaViews: seq<string>, views: seq<ViewFile>, folder: string, f: Factory): seq<Pattern> {
    SortBy(Unsorted(metaViews, views, folder, f), ByPathDash)
  }

  /**
   * Patterns() without its cache: meta views and nested pattern views become
   * patterns, each parent's pseudo-patterns are appended (parents chosen before
   * any are appended), and the list is ordered by PathDash.
   */
  method BuildPatterns(metaViews: seq<string>, views: seq<ViewFile>, folder: string, f: Factory)
    returns (patterns: seq<Pattern>)
    ensures patterns == Registry(metaViews, views, folder, f)
  {
    patterns := Build(metaViews, f.fromFile);
    var nested := NestedViews(views, folder);
    patterns := patterns + Build(nested, f.fromFile);
    var parentPatterns := Parents(patterns);
    patterns := AppendPseudo(patterns, parentPatterns, f.fromPseudo);
    patterns := SortBy(patterns, ByPathDash);
  }

  /** The loop over the parents: each parent's pseudo-patterns appended in turn. */
  method AppendPseudo(patterns: seq<Pattern>, parents: seq<Pattern>, fromPseudo: (string, string) -> Pattern)
    returns (r: seq<Pattern>)
    ensures r == patterns + Expand(parents, fromPseudo)
  {
    r := patterns;
    var i := 0;
    while i < |parents|
      invariant 0 <= i <= |parents|
      invariant r == patterns + Expand(parents[..i], fromPseudo)
    {
      r := r + PseudoOf(parents[i], fromPseudo);
      ExpandStep(parents, i, fromPseudo);
      i := i + 1;
    }
    assert parents[..i] == parents;
  }

  lemma ExpandStep(parents: seq<Pattern>, i: nat, fromPseudo: (string, string) -> Pattern)
    requires i < |parents|
    ensures Expand(parents[..i + 1], fromPseudo) == Expand(parents[..i], fromPseudo) + PseudoOf(parents[i], fromPseudo)
  {
    assert parents[..i + 1][..i] == parents[..i];
  }

  /** The registry is ordered by PathDash, and patterns with the same PathDash keep their discovery order. */
  lemma RegistryOrdered(metaViews: seq<string>, views: seq<ViewFile>, folder: string, f: Factory, e: Pattern)
    ensures Sorted(Registry(metaViews, views, folder, f), ByPathDash)
    ensures Equivalents(Registry(metaViews, views, folder, f), e, ByPathDash)
         == Equivalents(Unsorted(metaViews, views, folder, f), e, ByPathDash)
  {
    ByPathDashIsTotalPreorder();
    SortBySorted(Unsorted(metaViews, views, folder, f), ByPathDash);
    SortByStable(Unsorted(metaViews, views, folder, f), e, ByPathDash);
  }

  /** The sum of the pseudo-pattern counts of the parents. */
  function PseudoCount(parents: seq<Pattern>): nat {
    if parents == [] then 0
    else PseudoCount(parents[..|parents| - 1]) + |parents[|parents| - 1].pseudoPatterns|
  }

  lemma {:induction false} ExpandShape(parents: seq<Pattern>, fromPseudo: (string, string) -> Pattern)
    ensures |Expand(parents, fromPseudo)| == PseudoCount(parents)
    ensures forall q :: q in Expand(parents, fromPseudo) ==>
      exists p, k :: p in parents && 0 <= k < |p.pseudoPatterns| && q == fromPseudo(p.filePath, p.pseudoPatterns[k])
    decreases |parents|
  {
    if parents != [] {
      var init, last := parents[..|parents| - 1], parents[|parents| - 1];
      ExpandShape(init, fromPseudo);
      forall q | q in Expand(parents, fromPseudo)
        ensures exists p, k :: p in parents && 0 <= k < |p.pseudoPatterns| && q == fromPseudo(p.filePath, p.pseudoPatterns[k])
      {
        if q in Expand(init, fromPseudo) {
          var p, k :| p in init && 0 <= k < |p.pseudoPatterns| && q == fromPseudo(p.filePath, p.pseudoPatterns[k]);
          assert p in parents;
        } else {
          assert q in PseudoOf(last, fromPseudo);
          var k :| 0 <= k < |last.pseudoPatterns| && q == PseudoOf(last, fromPseudo)[k];
        }
      }
    }
  }

  lemma {:induction false} ParentsCount(ps: seq<Pattern>)
    ensures PseudoCount(Parents(ps)) == PseudoCount(ps)
    decreases |ps|
  {
    if ps != [] {
      var init, last := ps[..|ps| - 1], ps[|ps| - 1];
      ParentsCount(init);
      if last.pseudoPatterns != [] {
        var r := Parents(init) + [last];
        assert Parents(ps) == r;
        assert r[..|r| - 1] == Parents(init);
        assert PseudoCount(r) == PseudoCount(Parents(init)) + |last.pseudoPatterns|;
      } else {
        assert Parents(ps) == Parents(init);
      }
    }
  }

  /**
   * The registry is a permutation of the meta patterns, the nested pattern
   * files and one pseudo-pattern per name declared by one of those: pseudo-patterns
   * are not expanded again.
   */
  lemma RegistryContents(metaViews: seq<string>, views: seq<ViewFile>, folder: string, f: Factory)
    ensures var base := BasePatterns(metaViews, views, folder, f);
      && multiset(Registry(metaViews, views, folder, f)) == multiset(base + Expand(Parents(base), f.fromPseudo))
      && |Registry(metaViews, views, folder, f)| == |metaViews| + |NestedViews(views, folder)| + PseudoCount(base)
      && forall q :: q in Registry(metaViews, views, folder, f) ==>
           q in base ||
           exists p, k :: p in base && 0 <= k < |p.pseudoPatterns| && q == f.fromPseudo(p.filePath, p.pseudoPatterns[k])
  {
    var base := BasePatterns(metaViews, views, folder, f);
    var all := base + Expand(Parents(base), f.fromPseudo);
    ExpandShape(Parents(base), f.fromPseudo);
    ParentsCount(base);
    forall q | q in Registry(metaViews, views, folder, f)
      ensures q in base ||
        exists p, k :: p in base && 0 <= k < |p.pseudoPatterns| && q == f.fromPseudo(p.filePath, p.pseudoPatterns[k])
    {
      assert q in multiset(all);
      if q !in base {
        assert q in Expand(Parents(base), f.fromPseudo);
      }
    }
  }

  // ---------------------------------------------------------------------------
  // FindPattern

  /** A match on the view URL, the slash-delimited path or the partial, ignoring case. */
  predicate ExactMatch(p: Pattern, term: string) {
    EqualsIgnoreCase(p.viewUrl, term) || EqualsIgnoreCase(p.pathSlash, term) || EqualsIgnoreCase(p.partial, term)
  }

  /** The partial begins with the search term, ignoring case. */
  predicate PrefixMatch(p: Pattern, term: string) {
    StartsWithIgnoreCase(p.partial, term)
  }

  /**
   * FindPattern: after removing pattern parameters from the search term, the
   * first pattern matching it exactly; only when there is none, the first
   * pattern whose partial starts with it; None when neither exists.
   */
  function FindPattern(patterns: seq<Pattern>, searchTerm: string, stripPatternParameters: string -> string)
    : (r: Option<Pattern>)
    ensures var term := stripPatternParameters(searchTerm);
      && (r.None? <==> forall j :: 0 <= j < |patterns| ==> !ExactMatch(patterns[j], term) && !PrefixMatch(patterns[j], term))
      && ((exists j :: 0 <= j < |patterns| && ExactMatch(patterns[j], term)) ==>
           exists k :: 0 <= k < |patterns| && r == Some(patterns[k]) && ExactMatch(patterns[k], term) &&
             forall j :: 0 <= j < k ==> !ExactMatch(patterns[j], term))
      && ((forall j :: 0 <= j < |patterns| ==> !ExactMatch(patterns[j], term)) && r.Some? ==>
           exists k :: 0 <= k < |patterns| && r == Some(patterns[k]) && PrefixMatch(patterns[k], term) &&
             forall j :: 0 <= j < k ==> !PrefixMatch(patterns[j], term))
  {
    var term := stripPatternParameters(searchTerm);
    var exact := FirstWhere(patterns, p => ExactMatch(p, term));
    if exact >= 0 then Some(patterns[exact])
    else
      var prefix := FirstWhere(patterns, p => PrefixMatch(p, term));
      if prefix >= 0 then Some(patterns[prefix]) else None
  }

  /** An exact match is preferred even when an earlier pattern's partial merely starts with the term. */
  lemma FindPatternPrefersExact(patterns: seq<Pattern>, searchTerm: string, strip: string -> string, k: nat)
    requires k < |patterns| && ExactMatch(patterns[k], strip(searchTerm))
    requires forall j :: 0 <= j < k ==> !ExactMatch(patterns[j], strip(searchTerm))
    ensures FindPattern(patterns, searchTerm, strip) == Some(patterns[k])
  {
  }
}
