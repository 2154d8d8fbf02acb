/**
 * GetState: the lifecycle state of a pattern, folded over the patterns it
 * includes (its lineage), using the priority order of the patternStates setting.
 *
 * The source keeps no visited set, so a cycle in the lineage reachable from the
 * pattern makes it recurse without end. This model requires the lineage
 * reachable from the pattern to be acyclic, witnessed by a rank that every
 * resolved lineage reference met on the way decreases.
 */
module States {
  import opened Wrappers
  import opened Text
  import opened Collections
  import opened Settings
  import opened Patterns

  /** The first pattern whose partial equals the given one, ignoring case. */
  function Resolve(patterns: seq<Pattern>, partial: string): (r: Option<Pattern>)
    ensures r.Some? ==> r.value in patterns && EqualsIgnoreCase(r.value.partial, partial)
    ensures r.None? <==> forall j :: 0 <= j < |patterns| ==> !EqualsIgnoreCase(patterns[j].partial, partial)
    ensures r.Some? ==> exists k :: FirstMatchAt(patterns, partial, k) && patterns[k] == r.value
  {
    var k := FirstWhere(patterns, (p: Pattern) => EqualsIgnoreCase(p.partial, partial));
    if k >= 0 then
      assert FirstMatchAt(patterns, partial, k);
      Some(patterns[k])
    else None
  }

  /** Position k holds the first pattern whose partial equals the given one, ignoring case. */
  predicate FirstMatchAt(patterns: seq<Pattern>, partial: string, k: int) {
    && 0 <= k < |patterns| && EqualsIgnoreCase(patterns[k].partial, partial)
    && forall j :: 0 <= j < k ==> !EqualsIgnoreCase(patterns[j].partial, partial)
  }

  /** Every lineage reference of p that resolves leads to a pattern of smaller rank. */
  ghost predicate ChildrenRanked(patterns: seq<Pattern>, rank: Pattern -> nat, p: Pattern) {
    forall i :: 0 <= i < |p.lineages| && Resolve(patterns, p.lineages[i]).Some? ==>
      rank(Resolve(patterns, p.lineages[i]).value) < rank(p)
  }

  /** The lineage reachable from p is acyclic, as witnessed by rank: rank decreases
      along every resolved lineage reference met from p on. Patterns p does not
      reach are not constrained. */
  ghost predicate RankedFrom(patterns: seq<Pattern>, rank: Pattern -> nat, p: Pattern)
    decreases rank(p)
  {
    && ChildrenRanked(patterns, rank, p)
    && forall i :: 0 <= i < |p.lineages| && Resolve(patterns, p.lineages[i]).Some? ==>
         RankedFrom(patterns, rank, Resolve(patterns, p.lineages[i]).value)
  }

  /** The lineage graph of the whole registry is acyclic, as witnessed by rank. */
  ghost predicate LineageRanked(patterns: seq<Pattern>, rank: Pattern -> nat) {
    forall q :: q in patterns ==> ChildrenRanked(patterns, rank, q)
  }

  /** An acyclic registry is acyclic from each of its patterns. */
  lemma LineageRankedFrom(patterns: seq<Pattern>, rank: Pattern -> nat, p: Pattern)
    requires LineageRanked(patterns, rank) && p in patterns
    ensures RankedFrom(patterns, rank, p)
    decreases rank(p)
  {
    forall i | 0 <= i < |p.lineages| && Resolve(patterns, p.lineages[i]).Some?
      ensures RankedFrom(patterns, rank, Resolve(patterns, p.lineages[i]).value)
    {
      LineageRankedFrom(patterns, rank, Resolve(patterns, p.lineages[i]).value);
    }
  }

  /**
   * One comparison of GetState: on meeting a pattern whose state is s, the
   * candidate cand is replaced by s exactly when s is not empty, s comes before
   * cand in the priority list or cand is not in it, and s is not the last entry
   * of the list. A state that is not in the list counts as position -1.
   */
  function Adopt(states: seq<string>, cand: string, s: string): (r: string)
    ensures r == cand || r == s
    ensures r == s <==>
      s == cand ||
      (s != "" && (IndexOf(states, s) < IndexOf(states, cand) || IndexOf(states, cand) < 0) &&
       IndexOf(states, s) < |states| - 1)
  {
    if s != "" then
      var currentIndex := IndexOf(states, cand);
      var newIndex := IndexOf(states, s);
      if (newIndex < currentIndex || currentIndex < 0) && newIndex < |states| - 1 then s else cand
    else cand
  }

  /** Visiting p with candidate cand: compare with p's own state, then fold over its lineage. */
  function Visit(patterns: seq<Pattern>, states: seq<string>, p: Pattern, cand: string, ghost rank: Pattern -> nat)
    : string
    requires RankedFrom(patterns, rank, p)
    decreases rank(p), 1
  {
    FoldLineage(patterns, states, p, 0, Adopt(states, cand, p.state), rank)
  }

  /** The lineage of p from position i on: unresolved partials are skipped, resolved ones visited in order. */
  function FoldLineage(patterns: seq<Pattern>, states: seq<string>, p: Pattern, i: nat, cand: string,
                       ghost rank: Pattern -> nat): string
    requires RankedFrom(patterns, rank, p)
    requires i <= |p.lineages|
    decreases rank(p), 0, |p.lineages| - i
  {
    if i == |p.lineages| then cand
    else
      match Resolve(patterns, p.lineages[i])
      case None => FoldLineage(patterns, states, p, i + 1, cand, rank)
      case Some(child) => FoldLineage(patterns, states, p, i + 1, Visit(patterns, states, child, cand, rank), rank)
  }

  lemma FoldLineageStep(patterns: seq<Pattern>, states: seq<string>, p: Pattern, i: nat, cand: string,
                        rank: Pattern -> nat)
    requires RankedFrom(patterns, rank, p)
    requires i < |p.lineages|
    ensures FoldLineage(patterns, states, p, i, cand, rank) ==
      match Resolve(patterns, p.lineages[i])
      case None => FoldLineage(patterns, states, p, i + 1, cand, rank)
      case Some(child) => FoldLineage(patterns, states, p, i + 1, Visit(patterns, states, child, cand, rank), rank)
  {
  }

  function NullIfEmpty(s: string): (r: Option<string>)
    ensures r.None? <==> s == ""
    ensures r.GetOr("") == s
  {
    if s == "" then None else Some(s)
  }

  /**
   * GetState(pattern, state): reads the priority list from the patternStates
   * setting, starts from `state` (the pattern's own state on the outermost
   * call), compares with the pattern's state, then folds over the resolved
   * lineage, and gives null for an empty result. A missing setting fails.
   */
  method GetState(config: Config, patterns: seq<Pattern>, pattern: Pattern, state: Option<string>,
                  ghost rank: Pattern -> nat)
    returns (r: Result<Option<string>, Error>)
    requires RankedFrom(patterns, rank, pattern)
    ensures r.Failure? <==> "patternStates" !in config
    ensures r.Success? ==>
      r.value == NullIfEmpty(Visit(patterns, SplitSetting(config, "patternStates").value, pattern,
                                   state.GetOr(pattern.state), rank))
    decreases rank(pattern), 1
  {
    var configured := SplitSetting(config, "patternStates");
    if configured.Failure? {
      return Failure(configured.error);
    }
    var states := configured.value;
    var current := if state.None? then pattern.state else state.value;
    ghost var start := current;
    if pattern.state != "" {
      var currentIndex := IndexOf(states, current);
      var newIndex := IndexOf(states, pattern.state);
      if (newIndex < currentIndex || currentIndex < 0) && newIndex < |states| - 1 {
        current := pattern.state;
      }
    }
    assert current == Adopt(states, start, pattern.state);
    var found := VisitLineage(config, patterns, states, pattern, current, rank);
    if found.None? || found.value == "" {
      found := None;
    }
    r := Success(found);
  }

  /** The loop of GetState over the resolved lineage of a pattern: each child is
      visited with the state found so far, "" standing for none. */
  method VisitLineage(config: Config, patterns: seq<Pattern>, states: seq<string>, pattern: Pattern,
                      current: string, ghost rank: Pattern -> nat)
    returns (found: Option<string>)
    requires "patternStates" in config && states == SplitSetting(config, "patternStates").value
    requires RankedFrom(patterns, rank, pattern)
    ensures found.GetOr("") == FoldLineage(patterns, states, pattern, 0, current, rank)
    decreases rank(pattern), 0
  {
    found := Some(current);
    for i := 0 to |pattern.lineages|
      invariant FoldLineage(patterns, states, pattern, i, found.GetOr(""), rank)
             == FoldLineage(patterns, states, pattern, 0, current, rank)
    {
      var childPattern := Resolve(patterns, pattern.lineages[i]);
      ghost var before := found.GetOr("");
      FoldLineageStep(patterns, states, pattern, i, before, rank);
      if childPattern.Some? {
        if found.None? {
          found := Some("");
        }
        ResolvedRanked(patterns, rank, pattern, i);
        var nested := GetState(config, patterns, childPattern.value, found, rank);
        found := nested.value;
      }
    }
  }

  /** A resolved child of a ranked pattern is ranked, and lower. */
  lemma ResolvedRanked(patterns: seq<Pattern>, rank: Pattern -> nat, p: Pattern, i: nat)
    requires RankedFrom(patterns, rank, p)
    requires i < |p.lineages| && Resolve(patterns, p.lineages[i]).Some?
    ensures RankedFrom(patterns, rank, Resolve(patterns, p.lineages[i]).value)
    ensures rank(Resolve(patterns, p.lineages[i]).value) < rank(p)
  {
  }

  // ---------------------------------------------------------------------------
  // A reference definition: the fold over the states met in visiting order

  /** The states GetState meets below p, in visiting order: p's own, then each resolved child's, depth first. */
  function Trail(patterns: seq<Pattern>, p: Pattern, ghost rank: Pattern -> nat): seq<string>
    requires RankedFrom(patterns, rank, p)
    decreases rank(p), 1
  {
    [p.state] + TrailFrom(patterns, p, 0, rank)
  }

  function TrailFrom(patterns: seq<Pattern>, p: Pattern, i: nat, ghost rank: Pattern -> nat): seq<string>
    requires RankedFrom(patterns, rank, p)
    requires i <= |p.lineages|
    decreases rank(p), 0, |p.lineages| - i
  {
    if i == |p.lineages| then []
    else
      match Resolve(patterns, p.lineages[i])
      case None => TrailFrom(patterns, p, i + 1, rank)
      case Some(child) => Trail(patterns, child, rank) + TrailFrom(patterns, p, i + 1, rank)
  }

  /** Adopt applied to each state of xs in turn. */
  function AdoptAll(states: seq<string>, cand: string, xs: seq<string>): string
    decreases |xs|
  {
    if xs == [] then cand else AdoptAll(states, Adopt(states, cand, xs[0]), xs[1..])
  }

  lemma {:induction false} AdoptAllConcat(states: seq<string>, cand: string, xs: seq<string>, ys: seq<string>)
    ensures AdoptAll(states, cand, xs + ys) == AdoptAll(states, AdoptAll(states, cand, xs), ys)
    decreases |xs|
  {
    if xs != [] {
      AdoptAllConcat(states, Adopt(states, cand, xs[0]), xs[1..], ys);
      assert (xs + ys)[1..] == xs[1..] + ys;
    } else {
      assert xs + ys == ys;
    }
  }

  /** GetState's recursion is the fold of Adopt over the states it meets, in visiting order. */
  lemma {:induction false} VisitIsFold(patterns: seq<Pattern>, states: seq<string>, p: Pattern, cand: string,
                                       rank: Pattern -> nat)
    requires RankedFrom(patterns, rank, p)
    ensures Visit(patterns, states, p, cand, rank) == AdoptAll(states, cand, Trail(patterns, p, rank))
    decreases rank(p), 1
  {
    FoldLineageIsFold(patterns, states, p, 0, Adopt(states, cand, p.state), rank);
    var t := Trail(patterns, p, rank);
    assert t[0] == p.state && t[1..] == TrailFrom(patterns, p, 0, rank);
  }

  lemma {:induction false} FoldLineageIsFold(patterns: seq<Pattern>, states: seq<string>, p: Pattern, i: nat,
                                             cand: string, rank: Pattern -> nat)
    requires RankedFrom(patterns, rank, p)
    requires i <= |p.lineages|
    ensures FoldLineage(patterns, states, p, i, cand, rank) == AdoptAll(states, cand, TrailFrom(patterns, p, i, rank))
    decreases rank(p), 0, |p.lineages| - i
  {
    if i < |p.lineages| {
      match Resolve(patterns, p.lineages[i])
      case None =>
        FoldLineageIsFold(patterns, states, p, i + 1, cand, rank);
      case Some(child) =>
        VisitIsFold(patterns, states, child, cand, rank);
        var after := Visit(patterns, states, child, cand, rank);
        FoldLineageIsFold(patterns, states, p, i + 1, after, rank);
        AdoptAllConcat(states, cand, Trail(patterns, child, rank), TrailFrom(patterns, p, i + 1, rank));
    }
  }

  predicate ListedOrEmpty(states: seq<string>, s: string) {
    s == "" || s in states
  }

  /**
   * The fold keeps the most urgent state: when every state met is listed or
   * empty, the result is the start candidate or a state met, and it is at least
   * as urgent as the start candidate and as every state met that may be adopted
   * (listed, and not the last entry). The last entry is never adopted.
   */
  lemma {:induction false} AdoptAllMostUrgent(states: seq<string>, cand: string, xs: seq<string>)
    requires ListedOrEmpty(states, cand)
    requires forall i :: 0 <= i < |xs| ==> ListedOrEmpty(states, xs[i])
    ensures var r := AdoptAll(states, cand, xs);
      && (r == cand || r in xs)
      && ListedOrEmpty(states, r)
      && (r != cand ==> 0 <= IndexOf(states, r) < |states| - 1)
      && (0 <= IndexOf(states, cand) ==> 0 <= IndexOf(states, r) <= IndexOf(states, cand))
      && (forall i :: 0 <= i < |xs| && xs[i] != "" && IndexOf(states, xs[i]) < |states| - 1 ==>
            0 <= IndexOf(states, r) <= IndexOf(states, xs[i]))
    decreases |xs|
  {
    if xs != [] {
      var next := Adopt(states, cand, xs[0]);
      AdoptAllMostUrgent(states, next, xs[1..]);
      var r := AdoptAll(states, cand, xs);
      assert r == AdoptAll(states, next, xs[1..]);
      forall i | 0 <= i < |xs| && xs[i] != "" && IndexOf(states, xs[i]) < |states| - 1
        ensures 0 <= IndexOf(states, r) <= IndexOf(states, xs[i])
      {
        if i > 0 {
          assert xs[i] == xs[1..][i - 1];
        } else {
          assert 0 <= IndexOf(states, next) <= IndexOf(states, xs[0]);
        }
      }
    }
  }

  /**
   * GetState's result on an acyclic lineage where every declared state is
   * listed or empty: the most urgent adoptable state met below the pattern, or
   * its own state, and empty only when no adoptable state is met.
   */
  lemma GetStateMostUrgent(patterns: seq<Pattern>, states: seq<string>, p: Pattern, rank: Pattern -> nat)
    requires RankedFrom(patterns, rank, p)
    requires forall i :: 0 <= i < |Trail(patterns, p, rank)| ==> ListedOrEmpty(states, Trail(patterns, p, rank)[i])
    ensures var r := Visit(patterns, states, p, p.state, rank);
      && (r == p.state || r in Trail(patterns, p, rank))
      && (r != p.state ==> 0 <= IndexOf(states, r) < |states| - 1)
      && (p.state != "" ==> 0 <= IndexOf(states, r) <= IndexOf(states, p.state))
      && (forall s :: s in Trail(patterns, p, rank) && s != "" && IndexOf(states, s) < |states| - 1 ==>
            0 <= IndexOf(states, r) <= IndexOf(states, s))
  {
    VisitIsFold(patterns, states, p, p.state, rank);
    var t := Trail(patterns, p, rank);
    assert t[0] == p.state;
    AdoptAllMostUrgent(states, p.state, t);
  }

  // The worked example: with priorities complete, inreview, inprogress, a parent
  // with no state of its own that includes an in-progress and a complete pattern.

  function ExampleA(): Pattern {
    Pattern("atoms", "", "a", "atoms-a", "", "", "", "", "inprogress", false, [], [], "a")
  }

  function ExampleB(): Pattern {
    Pattern("atoms", "", "b", "atoms-b", "", "", "", "", "complete", false, [], [], "b")
  }

  function ExampleParent(): Pattern {
    Pattern("molecules", "", "m", "molecules-m", "", "", "", "", "", false, ["atoms-a", "atoms-b"], [], "m")
  }

  function ExampleRegistry(): seq<Pattern> {
    [ExampleA(), ExampleB(), ExampleParent()]
  }

  function ExampleRank(q: Pattern): nat {
    |q.lineages|
  }

  /** The example's partial names are already in lower case. */
  lemma ExampleFolds()
    ensures FoldCase("atoms-a") == "atoms-a"
    ensures FoldCase("atoms-b") == "atoms-b"
    ensures FoldCase("molecules-m") == "molecules-m"
  {
    FoldCaseUncapitalised("atoms-a");
    FoldCaseUncapitalised("atoms-b");
    FoldCaseUncapitalised("molecules-m");
  }

  /** Both lineage entries of the example parent resolve to its two children. */
  lemma ExampleResolves()
    ensures Resolve(ExampleRegistry(), "atoms-a") == Some(ExampleA())
    ensures Resolve(ExampleRegistry(), "atoms-b") == Some(ExampleB())
  {
    ExampleFolds();
    assert "atoms-a"[6] != "atoms-b"[6];
    assert EqualsIgnoreCase(ExampleRegistry()[0].partial, "atoms-a");
    assert !EqualsIgnoreCase(ExampleRegistry()[0].partial, "atoms-b");
    assert EqualsIgnoreCase(ExampleRegistry()[1].partial, "atoms-b");
  }

  /** The example registry is acyclic under ExampleRank, so it is from each of its patterns. */
  lemma ExampleRanked()
    ensures LineageRanked(ExampleRegistry(), ExampleRank)
    ensures RankedFrom(ExampleRegistry(), ExampleRank, ExampleParent())
    ensures RankedFrom(ExampleRegistry(), ExampleRank, ExampleA())
    ensures RankedFrom(ExampleRegistry(), ExampleRank, ExampleB())
  {
    var patterns := ExampleRegistry();
    ExampleParentRanked();
    assert ExampleA().lineages == [] && ExampleB().lineages == [];
    assert ChildrenRanked(patterns, ExampleRank, ExampleA());
    assert ChildrenRanked(patterns, ExampleRank, ExampleB());
    LineageRankedFrom(patterns, ExampleRank, ExampleParent());
    LineageRankedFrom(patterns, ExampleRank, ExampleA());
    LineageRankedFrom(patterns, ExampleRank, ExampleB());
  }

  lemma ExampleParentRanked()
    ensures ChildrenRanked(ExampleRegistry(), ExampleRank, ExampleParent())
  {
    ExampleResolves();
    var p := ExampleParent();
    forall i | 0 <= i < |p.lineages| && Resolve(ExampleRegistry(), p.lineages[i]).Some?
      ensures ExampleRank(Resolve(ExampleRegistry(), p.lineages[i]).value) < ExampleRank(p)
    {
      var child := if i == 0 then ExampleA() else ExampleB();
      assert Resolve(ExampleRegistry(), p.lineages[i]) == Some(child);
    }
  }

  /** The stateless example parent takes the most urgent state of its children: complete. */
  lemma StatePriorityExample()
    ensures RankedFrom(ExampleRegistry(), ExampleRank, ExampleParent())
    ensures NullIfEmpty(Visit(ExampleRegistry(), ["complete", "inreview", "inprogress"], ExampleParent(), "", ExampleRank))
         == Some("complete")
  {
    ExampleResolves();
    ExampleRanked();
    var patterns, parent := ExampleRegistry(), ExampleParent();
    var states := ["complete", "inreview", "inprogress"];
    assert IndexOf(states, "inprogress") == 2;
    assert IndexOf(states, "complete") == 0;
    ExampleChildVisits(states);
    FoldLineageStep(patterns, states, parent, 0, "", ExampleRank);
    FoldLineageStep(patterns, states, parent, 1, "", ExampleRank);
    assert FoldLineage(patterns, states, parent, 2, "complete", ExampleRank) == "complete";
  }

  /** Visiting each example child from an empty candidate. */
  lemma ExampleChildVisits(states: seq<string>)
    requires states == ["complete", "inreview", "inprogress"]
    ensures RankedFrom(ExampleRegistry(), ExampleRank, ExampleA())
    ensures RankedFrom(ExampleRegistry(), ExampleRank, ExampleB())
    ensures Visit(ExampleRegistry(), states, ExampleA(), "", ExampleRank) == ""
    ensures Visit(ExampleRegistry(), states, ExampleB(), "", ExampleRank) == "complete"
  {
    ExampleRanked();
    assert IndexOf(states, "inprogress") == 2;
    assert IndexOf(states, "complete") == 0;
    assert IndexOf(states, "") == -1;
  }
}
