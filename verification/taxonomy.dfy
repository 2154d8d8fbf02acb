/**
 * The navigation taxonomy built by Data(): the visible patterns grouped by type
 * and subtype, each group ending with a "View All" entry, together with the link
 * table (partial to pattern page) and the pattern-path and view-all-path tables
 * used by the footer.
 */
module Taxonomy {
  import opened Wrappers
  import opened Text
  import opened Collections
  import opened Settings
  import opened Patterns
  import opened States

  const FileNameViewer := "index.html"
  const KeywordViewAll := "View All"
  const KeywordPartialAll := "all"
  /** The name of the view-all page, lower-cased. */
  const ViewAllPrefix := "viewall"
  /** The pattern folder name without its leading '_', two levels up. */
  const LinkPrefix := "../../patterns/"

  /** The display helpers: ordinals stripped from a name, and a name put in display case. */
  datatype Naming = Naming(stripOrdinals: string -> string, toDisplayCase: string -> string)

  /** What the taxonomy is built from: the settings, the whole registry and the display helpers. */
  datatype Context = Context(config: Config, registry: seq<Pattern>, naming: Naming)

  datatype NavItem =
    | PatternItem(path: string, state: Option<string>, partial: string, name: string)
    | ViewAllItem(path: string, partial: string, name: string)

  datatype SubTypeNav = SubTypeNav(nameLC: string, nameUC: string, items: seq<NavItem>)

  datatype TypeNav = TypeNav(nameLC: string, nameUC: string, subTypes: seq<SubTypeNav>, items: seq<NavItem>)

  type Paths = map<string, string>

  datatype Taxonomy = Taxonomy(
    types: seq<TypeNav>,
    links: Paths,                        // partial -> link to the pattern page
    patternPaths: map<string, Paths>,    // type name -> pattern name -> path
    viewAllPaths: map<string, Paths>)    // type name -> subtype name -> path

  const Empty := Taxonomy([], map[], map[], map[])

  // ---------------------------------------------------------------------------
  // Selections

  function Visible(registry: seq<Pattern>): (r: seq<Pattern>)
    ensures forall i :: 0 <= i < |r| ==> r[i] in registry && !r[i].hidden
    ensures forall i :: 0 <= i < |registry| && !registry[i].hidden ==> registry[i] in r
  {
    Filter(registry, (p: Pattern) => !p.hidden)
  }

  /** The distinct types, in the order first seen. */
  function Types(visible: seq<Pattern>): (r: seq<string>)
    ensures NoDuplicates(r)
    ensures forall t :: t in r ==> exists k :: 0 <= k < |visible| && visible[k].patternType == t
    ensures forall k :: 0 <= k < |visible| ==> visible[k].patternType in r
  {
    var names := seq(|visible|, i requires 0 <= i < |visible| => visible[i].patternType);
    var r := Distinct(names);
    TypeNamesFrom(visible, names, r);
    r
  }

  /** Every name taken from the list of patterns is the type of one of them. */
  lemma TypeNamesFrom(visible: seq<Pattern>, names: seq<string>, r: seq<string>)
    requires |names| == |visible| && forall k :: 0 <= k < |visible| ==> names[k] == visible[k].patternType
    requires forall i :: 0 <= i < |r| ==> r[i] in names
    ensures forall t :: t in r ==> exists k :: 0 <= k < |visible| && visible[k].patternType == t
  {
    forall t | t in r
      ensures exists k :: 0 <= k < |visible| && visible[k].patternType == t
    {
      var i :| 0 <= i < |r| && r[i] == t;
      var k :| 0 <= k < |names| && names[k] == r[i];
      assert visible[k].patternType == t;
    }
  }

  /** The patterns whose type equals the given one, ignoring case. */
  function OfType(visible: seq<Pattern>, patternType: string): (r: seq<Pattern>)
    ensures forall i :: 0 <= i < |r| ==> r[i] in visible && EqualsIgnoreCase(r[i].patternType, patternType)
    ensures forall i :: 0 <= i < |visible| && EqualsIgnoreCase(visible[i].patternType, patternType) ==> visible[i] in r
  {
    Filter(visible, (p: Pattern) => EqualsIgnoreCase(p.patternType, patternType))
  }

  /** The distinct non-empty subtypes of the typed patterns, in the order first seen. */
  function SubTypes(typed: seq<Pattern>): (r: seq<string>)
    ensures NoDuplicates(r)
    ensures "" !in r
    ensures forall t :: t in r ==> exists k :: 0 <= k < |typed| && typed[k].subType == t
    ensures forall k :: 0 <= k < |typed| && typed[k].subType != "" ==> typed[k].subType in r
  {
    var names := seq(|typed|, i requires 0 <= i < |typed| => typed[i].subType);
    var r := Distinct(Filter(names, (s: string) => s != ""));
    SubTypeNamesFrom(typed, names, r);
    r
  }

  /** Every name taken from the list of patterns is the subtype of one of them. */
  lemma SubTypeNamesFrom(typed: seq<Pattern>, names: seq<string>, r: seq<string>)
    requires |names| == |typed| && forall k :: 0 <= k < |typed| ==> names[k] == typed[k].subType
    requires forall i :: 0 <= i < |r| ==> r[i] in names
    ensures forall t :: t in r ==> exists k :: 0 <= k < |typed| && typed[k].subType == t
  {
    forall t | t in r
      ensures exists k :: 0 <= k < |typed| && typed[k].subType == t
    {
      var i :| 0 <= i < |r| && r[i] == t;
      var k :| 0 <= k < |names| && names[k] == r[i];
      assert typed[k].subType == t;
    }
  }

  /** The patterns of the given type and subtype, ignoring case. */
  function OfSubType(visible: seq<Pattern>, patternType: string, subType: string): (r: seq<Pattern>)
    ensures forall i :: 0 <= i < |r| ==>
      r[i] in visible && EqualsIgnoreCase(r[i].patternType, patternType) && EqualsIgnoreCase(r[i].subType, subType)
    ensures forall i :: 0 <= i < |visible| ==>
      (EqualsIgnoreCase(visible[i].patternType, patternType) && EqualsIgnoreCase(visible[i].subType, subType) ==>
       visible[i] in r)
  {
    Filter(visible, (p: Pattern) => EqualsIgnoreCase(p.patternType, patternType) && EqualsIgnoreCase(p.subType, subType))
  }

  /**
   * The three selections keep the registry's order and repeats: each distributes
   * over concatenation, and keeps a single pattern exactly when it qualifies.
   */
  lemma VisibleConcat(xs: seq<Pattern>, ys: seq<Pattern>, p: Pattern)
    ensures Visible(xs + ys) == Visible(xs) + Visible(ys)
    ensures Visible([p]) == if p.hidden then [] else [p]
  {
    FilterConcat(xs, ys, (p: Pattern) => !p.hidden);
    FilterSingleton(p, (p: Pattern) => !p.hidden);
  }

  lemma OfTypeConcat(xs: seq<Pattern>, ys: seq<Pattern>, p: Pattern, patternType: string)
    ensures OfType(xs + ys, patternType) == OfType(xs, patternType) + OfType(ys, patternType)
    ensures OfType([p], patternType) == if EqualsIgnoreCase(p.patternType, patternType) then [p] else []
  {
    var keep := (p: Pattern) => EqualsIgnoreCase(p.patternType, patternType);
    FilterConcat(xs, ys, keep);
    FilterSingleton(p, keep);
  }

  lemma OfSubTypeConcat(xs: seq<Pattern>, ys: seq<Pattern>, p: Pattern, patternType: string, subType: string)
    ensures OfSubType(xs + ys, patternType, subType) == OfSubType(xs, patternType, subType) + OfSubType(ys, patternType, subType)
    ensures OfSubType([p], patternType, subType) ==
      if EqualsIgnoreCase(p.patternType, patternType) && EqualsIgnoreCase(p.subType, subType) then [p] else []
  {
    var keep := (p: Pattern) => EqualsIgnoreCase(p.patternType, patternType) && EqualsIgnoreCase(p.subType, subType);
    FilterConcat(xs, ys, keep);
    FilterSingleton(p, keep);
  }

  // ---------------------------------------------------------------------------
  // Navigation entries

  /** GetState terminates from every visible pattern of the registry: the lineage
      reachable from a visible pattern is acyclic, as witnessed by rank. Hidden
      patterns that no visible pattern reaches are not constrained. */
  ghost predicate VisibleRanked(patterns: seq<Pattern>, rank: Pattern -> nat) {
    forall q :: q in patterns && !q.hidden ==> RankedFrom(patterns, rank, q)
  }

  /** Every pattern of ps is a visible pattern of the registry. */
  predicate InRegistry(ctx: Context, ps: seq<Pattern>) {
    forall i :: 0 <= i < |ps| ==> ps[i] in ctx.registry && !ps[i].hidden
  }

  /** The entry of one pattern: its page, its state, its partial and its display name. */
  function Entry(ctx: Context, p: Pattern, ghost rank: Pattern -> nat): (r: Result<NavItem, Error>)
    requires VisibleRanked(ctx.registry, rank) && p in ctx.registry && !p.hidden
    ensures r.Failure? <==> "patternStates" !in ctx.config
    ensures r.Failure? ==> r.error == MissingSetting("patternStates")
    ensures r.Success? ==> r.value == PatternItem(p.htmlUrl,
      NullIfEmpty(Visit(ctx.registry, SplitSetting(ctx.config, "patternStates").value, p, p.state, rank)),
      p.partial, ctx.naming.toDisplayCase(ctx.naming.stripOrdinals(p.name)))
  {
    var states :- SplitSetting(ctx.config, "patternStates");
    var state := NullIfEmpty(Visit(ctx.registry, states, p, p.state, rank));
    Success(PatternItem(p.htmlUrl, state, p.partial, ctx.naming.toDisplayCase(ctx.naming.stripOrdinals(p.name))))
  }

  /** The entries of the patterns, in order; the first failure stops the list. */
  function Entries(ctx: Context, ps: seq<Pattern>, ghost rank: Pattern -> nat): (r: Result<seq<NavItem>, Error>)
    requires VisibleRanked(ctx.registry, rank) && InRegistry(ctx, ps)
    ensures r.Failure? <==> ps != [] && "patternStates" !in ctx.config
    ensures r.Failure? ==> r.error == MissingSetting("patternStates")
    ensures r.Success? ==> |r.value| == |ps|
    ensures r.Success? ==> forall i :: 0 <= i < |ps| ==> Entry(ctx, ps[i], rank) == Success(r.value[i])
  {
    if ps == [] then Success([])
    else
      var n := |ps| - 1;
      var front :- Entries(ctx, ps[..n], rank);
      var last :- Entry(ctx, ps[n], rank);
      Success(front + [last])
  }

  /** The view-all entry that closes a subtype's list. */
  function SubTypeViewAll(ctx: Context, patternType: string, subType: string): NavItem {
    ViewAllItem(patternType + "-" + subType + "/" + FileNameViewer,
      ViewAllPrefix + "-" + ctx.naming.stripOrdinals(patternType) + "-" + ctx.naming.stripOrdinals(subType),
      KeywordViewAll)
  }

  /** The view-all entry of a type that has subtypes. */
  function TypeViewAll(ctx: Context, patternType: string): NavItem {
    ViewAllItem(patternType + "/" + FileNameViewer,
      ViewAllPrefix + "-" + ctx.naming.stripOrdinals(patternType) + "-" + KeywordPartialAll,
      KeywordViewAll)
  }

  /** The navigation of one subtype: the entries of its patterns, then its view-all entry. */
  function SubTypeNavOf(ctx: Context, visible: seq<Pattern>, patternType: string, subType: string,
                        ghost rank: Pattern -> nat): (r: Result<SubTypeNav, Error>)
    requires VisibleRanked(ctx.registry, rank) && InRegistry(ctx, visible)
    ensures r.Success? ==>
      var items := Entries(ctx, OfSubType(visible, patternType, subType), rank);
      && items.Success?
      && r.value.items == items.value + [SubTypeViewAll(ctx, patternType, subType)]
      && r.value.nameLC == ctx.naming.stripOrdinals(subType)
  {
    var subTypeName := ctx.naming.stripOrdinals(subType);
    var items :- Entries(ctx, OfSubType(visible, patternType, subType), rank);
    Success(SubTypeNav(subTypeName, ctx.naming.toDisplayCase(subTypeName),
                       items + [SubTypeViewAll(ctx, patternType, subType)]))
  }

  /** The navigation of each subtype, in order; the first failure stops the list. */
  function SubTypeNavs(ctx: Context, visible: seq<Pattern>, patternType: string, subTypes: seq<string>,
                       ghost rank: Pattern -> nat): (r: Result<seq<SubTypeNav>, Error>)
    requires VisibleRanked(ctx.registry, rank) && InRegistry(ctx, visible)
    ensures r.Success? ==> |r.value| == |subTypes|
    ensures r.Failure? ==> r.error == MissingSetting("patternStates") && "patternStates" !in ctx.config
    ensures "patternStates" in ctx.config ==> r.Success?
  {
    if subTypes == [] then Success([])
    else
      var n := |subTypes| - 1;
      var front :- SubTypeNavs(ctx, visible, patternType, subTypes[..n], rank);
      var last :- SubTypeNavOf(ctx, visible, patternType, subTypes[n], rank);
      Success(front + [last])
  }

  // ---------------------------------------------------------------------------
  // Path tables (Dictionary.Add guarded by ContainsKey: the first entry wins)

  /** Subtype name to "type-subType", for each subtype. */
  function SubTypePaths(ctx: Context, patternType: string, subTypes: seq<string>): Paths {
    if subTypes == [] then map[]
    else
      var n := |subTypes| - 1;
      var paths := SubTypePaths(ctx, patternType, subTypes[..n]);
      var name := ctx.naming.stripOrdinals(subTypes[n]);
      if name in paths then paths else paths[name := patternType + "-" + subTypes[n]]
  }

  /** Pattern name (ordinals stripped) to dash path, for each typed pattern. */
  function TypedPaths(ctx: Context, typed: seq<Pattern>): Paths {
    if typed == [] then map[]
    else
      var n := |typed| - 1;
      var paths := TypedPaths(ctx, typed[..n]);
      var name := ctx.naming.stripOrdinals(typed[n].name);
      if name in paths then paths else paths[name := typed[n].pathDash]
  }

  /** The link table extended with the typed patterns not yet in it. */
  function AddLinks(links: Paths, typed: seq<Pattern>): Paths {
    if typed == [] then links
    else
      var n := |typed| - 1;
      var front := AddLinks(links, typed[..n]);
      var p := typed[n];
      if p.partial in front then front else front[p.partial := LinkPrefix + p.htmlUrl]
  }

  /** The navigation of each subtype, in order. */
  lemma {:induction false} SubTypeNavsContents(ctx: Context, visible: seq<Pattern>, patternType: string,
                                               subTypes: seq<string>, rank: Pattern -> nat)
    requires VisibleRanked(ctx.registry, rank) && InRegistry(ctx, visible)
    ensures var r := SubTypeNavs(ctx, visible, patternType, subTypes, rank);
      r.Success? ==>
        forall j :: 0 <= j < |subTypes| ==> SubTypeNavOf(ctx, visible, patternType, subTypes[j], rank) == Success(r.value[j])
  {
    if subTypes != [] {
      var n := |subTypes| - 1;
      SubTypeNavsContents(ctx, visible, patternType, subTypes[..n], rank);
      var r := SubTypeNavs(ctx, visible, patternType, subTypes, rank);
      if r.Success? {
        var front := SubTypeNavs(ctx, visible, patternType, subTypes[..n], rank).value;
        var last := SubTypeNavOf(ctx, visible, patternType, subTypes[n], rank);
        assert r.value == front + [last.value];
        forall j | 0 <= j < |subTypes|
          ensures SubTypeNavOf(ctx, visible, patternType, subTypes[j], rank) == Success(r.value[j])
        {
          if j < n {
            assert subTypes[..n][j] == subTypes[j] && r.value[j] == front[j];
          }
        }
      }
    }
  }

  /** The subtype paths hold the stripped name of every subtype and nothing else. */
  lemma {:induction false} SubTypePathsKeys(ctx: Context, patternType: string, subTypes: seq<string>)
    ensures forall j :: 0 <= j < |subTypes| ==> ctx.naming.stripOrdinals(subTypes[j]) in SubTypePaths(ctx, patternType, subTypes)
    ensures forall name :: name in SubTypePaths(ctx, patternType, subTypes) ==>
      exists j :: 0 <= j < |subTypes| && ctx.naming.stripOrdinals(subTypes[j]) == name
  {
    if subTypes != [] {
      var n := |subTypes| - 1;
      SubTypePathsKeys(ctx, patternType, subTypes[..n]);
      forall name | name in SubTypePaths(ctx, patternType, subTypes)
        ensures exists j :: 0 <= j < |subTypes| && ctx.naming.stripOrdinals(subTypes[j]) == name
      {
        if name in SubTypePaths(ctx, patternType, subTypes[..n]) {
          var j :| 0 <= j < n && ctx.naming.stripOrdinals(subTypes[..n][j]) == name;
          assert subTypes[j] == subTypes[..n][j];
        } else {
          assert ctx.naming.stripOrdinals(subTypes[n]) == name;
        }
      }
      forall j | 0 <= j < |subTypes|
        ensures ctx.naming.stripOrdinals(subTypes[j]) in SubTypePaths(ctx, patternType, subTypes)
      {
        if j < n {
          assert subTypes[j] == subTypes[..n][j];
        }
      }
    }
  }

  /** url is the link to the page of a pattern of ps whose partial is k. */
  predicate LinkOf(ps: seq<Pattern>, k: string, url: string) {
    exists m :: 0 <= m < |ps| && ps[m].partial == k && url == LinkPrefix + ps[m].htmlUrl
  }

  /** A link to a pattern of a prefix is a link to a pattern of the whole list. */
  lemma LinkOfPrefix(ps: seq<Pattern>, n: nat, k: string, url: string)
    requires n <= |ps|
    ensures LinkOf(ps[..n], k, url) ==> LinkOf(ps, k, url)
  {
    if LinkOf(ps[..n], k, url) {
      var m :| 0 <= m < n && ps[..n][m].partial == k && url == LinkPrefix + ps[..n][m].htmlUrl;
      assert ps[m] == ps[..n][m];
    }
  }

  /** The link table grows by the partial of every typed pattern not yet in it, linked
      to that pattern's page; the links already there are kept. */
  lemma AddLinksContents(links: Paths, typed: seq<Pattern>)
    ensures links.Keys <= AddLinks(links, typed).Keys
    ensures forall k :: k in links ==> AddLinks(links, typed)[k] == links[k]
    ensures forall i :: 0 <= i < |typed| ==> typed[i].partial in AddLinks(links, typed)
    ensures forall k :: k in AddLinks(links, typed) && k !in links ==> LinkOf(typed, k, AddLinks(links, typed)[k])
  {
    AddLinksKeeps(links, typed);
    AddLinksCovers(links, typed);
    AddLinksFrom(links, typed);
  }

  /** The links already in the table are kept. */
  lemma {:induction false} AddLinksKeeps(links: Paths, typed: seq<Pattern>)
    ensures forall k :: k in links ==> k in AddLinks(links, typed) && AddLinks(links, typed)[k] == links[k]
  {
    if typed != [] {
      AddLinksKeeps(links, typed[..|typed| - 1]);
    }
  }

  /** Every typed pattern has its partial in the table. */
  lemma {:induction false} AddLinksCovers(links: Paths, typed: seq<Pattern>)
    ensures forall i :: 0 <= i < |typed| ==> typed[i].partial in AddLinks(links, typed)
  {
    if typed != [] {
      var n := |typed| - 1;
      var front := typed[..n];
      AddLinksCovers(links, front);
      var fr := AddLinks(links, front);
      var r := AddLinks(links, typed);
      assert forall k :: k in fr ==> k in r;
      forall i | 0 <= i < |typed|
        ensures typed[i].partial in r
      {
        if i < n {
          assert typed[i] == front[i] && front[i].partial in fr;
        }
      }
    }
  }

  /** A partial added to the table links to the page of a typed pattern with that partial. */
  lemma {:induction false} AddLinksFrom(links: Paths, typed: seq<Pattern>)
    ensures forall k :: k in AddLinks(links, typed) && k !in links ==> LinkOf(typed, k, AddLinks(links, typed)[k])
  {
    if typed != [] {
      var n := |typed| - 1;
      var front := typed[..n];
      AddLinksFrom(links, front);
      var fr := AddLinks(links, front);
      var r := AddLinks(links, typed);
      assert forall k :: k in fr ==> k in r && r[k] == fr[k];
      forall k | k in r && k !in links
        ensures LinkOf(typed, k, r[k])
      {
        if k in fr {
          LinkOfPrefix(typed, n, k, r[k]);
        } else {
          assert typed[n].partial == k && r[k] == LinkPrefix + typed[n].htmlUrl;
        }
      }
    }
  }

  // ---------------------------------------------------------------------------
  // The taxonomy, type by type

  /** The entries listed directly under a type: those of its patterns when it has
      no subtypes, otherwise only its view-all entry. */
  function TypeItems(ctx: Context, patternType: string, typed: seq<Pattern>, subTypes: seq<string>,
                     ghost rank: Pattern -> nat): (r: Result<seq<NavItem>, Error>)
    requires VisibleRanked(ctx.registry, rank) && InRegistry(ctx, typed)
  {
    if subTypes == [] then Entries(ctx, typed, rank) else Success([TypeViewAll(ctx, patternType)])
  }

  /** The tables extended with the navigation of one type and its path tables;
      a type name or subtype name given twice fails as Dictionary.Add does. */
  function Extend(acc: Taxonomy, nav: TypeNav, links: Paths, typedPaths: Paths, subPaths: Paths,
                  patternType: string): Result<Taxonomy, Error>
  {
    if nav.nameLC in acc.patternPaths then Failure(DuplicateKey(nav.nameLC))
    else if subPaths != map[] && KeywordPartialAll in subPaths then Failure(DuplicateKey(KeywordPartialAll))
    else if subPaths != map[] && nav.nameLC in acc.viewAllPaths then Failure(DuplicateKey(nav.nameLC))
    else
      Success(Taxonomy(
        acc.types + [nav],
        links,
        acc.patternPaths[nav.nameLC := typedPaths],
        if subPaths != map[] then acc.viewAllPaths[nav.nameLC := subPaths[KeywordPartialAll := patternType]]
        else acc.viewAllPaths))
  }

  /** The navigation of one type: its subtypes' navigation and its own entries. */
  function TypeNavOf(ctx: Context, visible: seq<Pattern>, patternType: string, ghost rank: Pattern -> nat)
    : Result<TypeNav, Error>
    requires VisibleRanked(ctx.registry, rank) && InRegistry(ctx, visible)
  {
    var typeName := ctx.naming.stripOrdinals(patternType);
    var typed := OfType(visible, patternType);
    var subTypes := SubTypes(typed);
    var subNavs :- SubTypeNavs(ctx, visible, patternType, subTypes, rank);
    var items :- TypeItems(ctx, patternType, typed, subTypes, rank);
    Success(TypeNav(typeName, ctx.naming.toDisplayCase(typeName), subNavs, items))
  }

  /** The taxonomy extended with one type, or the first failure on the way. */
  function TypeStep(ctx: Context, visible: seq<Pattern>, acc: Taxonomy, patternType: string,
                    ghost rank: Pattern -> nat): Result<Taxonomy, Error>
    requires VisibleRanked(ctx.registry, rank) && InRegistry(ctx, visible)
  {
    var typed := OfType(visible, patternType);
    var nav :- TypeNavOf(ctx, visible, patternType, rank);
    Extend(acc, nav, AddLinks(acc.links, typed), TypedPaths(ctx, typed),
           SubTypePaths(ctx, patternType, SubTypes(typed)), patternType)
  }

  /** The taxonomy of the given types, in order. */
  function BuildFrom(ctx: Context, visible: seq<Pattern>, types: seq<string>, ghost rank: Pattern -> nat)
    : Result<Taxonomy, Error>
    requires VisibleRanked(ctx.registry, rank) && InRegistry(ctx, visible)
  {
    if types == [] then Success(Empty)
    else
      var acc :- BuildFrom(ctx, visible, types[..|types| - 1], rank);
      TypeStep(ctx, visible, acc, types[|types| - 1], rank)
  }

  /** The taxonomy of the visible patterns of the registry. */
  function Build(ctx: Context, ghost rank: Pattern -> nat): Result<Taxonomy, Error>
    requires VisibleRanked(ctx.registry, rank)
  {
    var visible := Visible(ctx.registry);
    BuildFrom(ctx, visible, Types(visible), rank)
  }

  // ---------------------------------------------------------------------------
  // One more element: how each list and table grows

  lemma SubTypeNavsStep(ctx: Context, visible: seq<Pattern>, patternType: string, subTypes: seq<string>, j: nat,
                        rank: Pattern -> nat)
    requires VisibleRanked(ctx.registry, rank) && InRegistry(ctx, visible)
    requires j < |subTypes| && SubTypeNavs(ctx, visible, patternType, subTypes[..j], rank).Success?
    ensures var last := SubTypeNavOf(ctx, visible, patternType, subTypes[j], rank);
      SubTypeNavs(ctx, visible, patternType, subTypes[..j + 1], rank) ==
        if last.Failure? then Failure(last.error)
        else Success(SubTypeNavs(ctx, visible, patternType, subTypes[..j], rank).value + [last.value])
    ensures SubTypePaths(ctx, patternType, subTypes[..j + 1]) ==
      var paths := SubTypePaths(ctx, patternType, subTypes[..j]);
      var name := ctx.naming.stripOrdinals(subTypes[j]);
      if name in paths then paths else paths[name := patternType + "-" + subTypes[j]]
  {
    assert subTypes[..j + 1][..j] == subTypes[..j];
  }

  /** A failure part-way through the subtypes is the failure of the whole list. */
  lemma {:induction false} SubTypeNavsFailure(ctx: Context, visible: seq<Pattern>, patternType: string,
                                              subTypes: seq<string>, k: nat, rank: Pattern -> nat)
    requires VisibleRanked(ctx.registry, rank) && InRegistry(ctx, visible)
    requires k <= |subTypes| && SubTypeNavs(ctx, visible, patternType, subTypes[..k], rank).Failure?
    ensures SubTypeNavs(ctx, visible, patternType, subTypes, rank).Failure?
    decreases |subTypes| - k
  {
    if k < |subTypes| {
      assert subTypes[..k + 1][..k] == subTypes[..k];
      SubTypeNavsFailure(ctx, visible, patternType, subTypes, k + 1, rank);
    } else {
      assert subTypes[..k] == subTypes;
    }
  }

  lemma TypedStep(ctx: Context, links: Paths, typed: seq<Pattern>, i: nat)
    requires i < |typed|
    ensures AddLinks(links, typed[..i + 1]) ==
      var front := AddLinks(links, typed[..i]);
      if typed[i].partial in front then front else front[typed[i].partial := LinkPrefix + typed[i].htmlUrl]
    ensures TypedPaths(ctx, typed[..i + 1]) ==
      var paths := TypedPaths(ctx, typed[..i]);
      var name := ctx.naming.stripOrdinals(typed[i].name);
      if name in paths then paths else paths[name := typed[i].pathDash]
  {
    assert typed[..i + 1][..i] == typed[..i];
  }

  // ---------------------------------------------------------------------------
  // The loops of Data()

  /** The pattern entries of a list, each with the state GetState gives it. */
  method PatternEntries(ctx: Context, ps: seq<Pattern>, ghost rank: Pattern -> nat)
    returns (r: Result<seq<NavItem>, Error>)
    requires VisibleRanked(ctx.registry, rank) && InRegistry(ctx, ps)
    ensures r == Entries(ctx, ps, rank)
  {
    var items: seq<NavItem> := [];
    for i := 0 to |ps|
      invariant Entries(ctx, ps[..i], rank) == Success(items)
    {
      var next := AppendEntry(ctx, ps, i, items, rank);
      if next.Failure? {
        return next;
      }
      items := next.value;
    }
    assert ps[..|ps|] == ps;
    r := Success(items);
  }

  /** One pass of a loop over patterns: the entry of ps[i] appended to those of the patterns before it. */
  method AppendEntry(ctx: Context, ps: seq<Pattern>, i: nat, items: seq<NavItem>, ghost rank: Pattern -> nat)
    returns (r: Result<seq<NavItem>, Error>)
    requires VisibleRanked(ctx.registry, rank) && InRegistry(ctx, ps)
    requires i < |ps| && Entries(ctx, ps[..i], rank) == Success(items)
    ensures r == Entries(ctx, ps[..i + 1], rank)
  {
    assert ps[..i + 1][..i] == ps[..i];
    var entry := PatternEntry(ctx, ps[i], rank);
    if entry.Failure? {
      return Failure(entry.error);
    }
    r := Success(items + [entry.value]);
  }

  /** The entry of one pattern, with the state GetState gives it. */
  method PatternEntry(ctx: Context, pattern: Pattern, ghost rank: Pattern -> nat)
    returns (r: Result<NavItem, Error>)
    requires VisibleRanked(ctx.registry, rank) && pattern in ctx.registry && !pattern.hidden
    ensures r == Entry(ctx, pattern, rank)
  {
    var state := GetState(ctx.config, ctx.registry, pattern, None, rank);
    if state.Failure? {
      return Failure(MissingSetting("patternStates"));
    }
    var name := ctx.naming.toDisplayCase(ctx.naming.stripOrdinals(pattern.name));
    r := Success(PatternItem(pattern.htmlUrl, state.value, pattern.partial, name));
  }

  /** One pass of the loop over the subtypes: the entries of the subtype's
      patterns, then its view-all entry. */
  method SubTypeDetail(ctx: Context, visible: seq<Pattern>, patternType: string, subType: string,
                       ghost rank: Pattern -> nat)
    returns (nav: Result<SubTypeNav, Error>)
    requires VisibleRanked(ctx.registry, rank) && InRegistry(ctx, visible)
    ensures nav == SubTypeNavOf(ctx, visible, patternType, subType, rank)
  {
    var subTypeName := ctx.naming.stripOrdinals(subType);
    var items := PatternEntries(ctx, OfSubType(visible, patternType, subType), rank);
    if items.Failure? {
      return Failure(items.error);
    }
    var viewAll := ViewAllItem(patternType + "-" + subType + "/" + FileNameViewer,
      ViewAllPrefix + "-" + ctx.naming.stripOrdinals(patternType) + "-" + subTypeName, KeywordViewAll);
    nav := Success(SubTypeNav(subTypeName, ctx.naming.toDisplayCase(subTypeName), items.value + [viewAll]));
  }

  /** The loop over the subtypes of a type: their navigation, and the subtype paths. */
  method SubTypeDetails(ctx: Context, visible: seq<Pattern>, patternType: string, subTypes: seq<string>,
                        ghost rank: Pattern -> nat)
    returns (navs: Result<seq<SubTypeNav>, Error>, subTypePaths: Paths)
    requires VisibleRanked(ctx.registry, rank) && InRegistry(ctx, visible)
    ensures navs == SubTypeNavs(ctx, visible, patternType, subTypes, rank)
    ensures navs.Success? ==> subTypePaths == SubTypePaths(ctx, patternType, subTypes)
  {
    var details: seq<SubTypeNav> := [];
    subTypePaths := map[];
    for j := 0 to |subTypes|
      invariant SubTypeNavs(ctx, visible, patternType, subTypes[..j], rank) == Success(details)
      invariant subTypePaths == SubTypePaths(ctx, patternType, subTypes[..j])
    {
      SubTypeNavsStep(ctx, visible, patternType, subTypes, j, rank);
      var subType := subTypes[j];
      var subTypeName := ctx.naming.stripOrdinals(subType);
      var nav := SubTypeDetail(ctx, visible, patternType, subType, rank);
      if nav.Failure? {
        SubTypeNavsFailure(ctx, visible, patternType, subTypes, j + 1, rank);
        navs := Failure(nav.error);
        return;
      }
      details := details + [nav.value];
      if subTypeName !in subTypePaths {
        subTypePaths := subTypePaths[subTypeName := patternType + "-" + subType];
      }
    }
    assert subTypes[..|subTypes|] == subTypes;
    navs := Success(details);
  }

  /** The loop over the patterns of a type: the link table, the pattern paths and,
      when the type has no subtypes, its pattern entries. */
  method TypedDetails(ctx: Context, typed: seq<Pattern>, hasSubTypes: bool, links: Paths,
                      ghost rank: Pattern -> nat)
    returns (items: Result<seq<NavItem>, Error>, newLinks: Paths, typedPaths: Paths)
    requires VisibleRanked(ctx.registry, rank) && InRegistry(ctx, typed)
    ensures !hasSubTypes ==> items == Entries(ctx, typed, rank)
    ensures hasSubTypes ==> items == Success([])
    ensures items.Success? ==> newLinks == AddLinks(links, typed) && typedPaths == TypedPaths(ctx, typed)
  {
    var entries: seq<NavItem> := [];
    newLinks := links;
    typedPaths := map[];
    for i := 0 to |typed|
      invariant newLinks == AddLinks(links, typed[..i])
      invariant typedPaths == TypedPaths(ctx, typed[..i])
      invariant !hasSubTypes ==> Entries(ctx, typed[..i], rank) == Success(entries)
      invariant hasSubTypes ==> entries == []
    {
      TypedStep(ctx, links, typed, i);
      var pattern := typed[i];
      var patternName := ctx.naming.stripOrdinals(pattern.name);
      if pattern.partial !in newLinks {
        newLinks := newLinks[pattern.partial := LinkPrefix + pattern.htmlUrl];
      }
      if patternName !in typedPaths {
        typedPaths := typedPaths[patternName := pattern.pathDash];
      }
      if !hasSubTypes {
        var next := AppendEntry(ctx, typed, i, entries, rank);
        if next.Failure? {
          items := next;
          return;
        }
        entries := next.value;
      }
    }
    assert typed[..|typed|] == typed;
    items := Success(entries);
  }

  /** One type added: the failure of its navigation, or the extension of the tables with it. */
  lemma TypeStepExtends(ctx: Context, visible: seq<Pattern>, acc: Taxonomy, patternType: string, rank: Pattern -> nat)
    requires VisibleRanked(ctx.registry, rank) && InRegistry(ctx, visible)
    ensures var typed := OfType(visible, patternType);
      var nav := TypeNavOf(ctx, visible, patternType, rank);
      TypeStep(ctx, visible, acc, patternType, rank) ==
        if nav.Failure? then Failure(nav.error)
        else Extend(acc, nav.value, AddLinks(acc.links, typed), TypedPaths(ctx, typed),
                    SubTypePaths(ctx, patternType, SubTypes(typed)), patternType)
  {
  }

  /** A failure part-way through the types is the failure of the whole taxonomy. */
  lemma {:induction false} BuildFromFailure(ctx: Context, visible: seq<Pattern>, types: seq<string>, k: nat,
                                            rank: Pattern -> nat)
    requires VisibleRanked(ctx.registry, rank) && InRegistry(ctx, visible)
    requires k <= |types| && BuildFrom(ctx, visible, types[..k], rank).Failure?
    ensures BuildFrom(ctx, visible, types, rank) == BuildFrom(ctx, visible, types[..k], rank)
    decreases |types| - k
  {
    if k < |types| {
      assert types[..k + 1][..k] == types[..k];
      BuildFromFailure(ctx, visible, types, k + 1, rank);
    } else {
      assert types[..k] == types;
    }
  }

  /** The end of one pass of the loop over the types: the type's navigation and
      path tables added to those built so far. */
  method ExtendTables(acc: Taxonomy, nav: TypeNav, links: Paths, typedPaths: Paths, subTypePaths: Paths,
                      patternType: string)
    returns (r: Result<Taxonomy, Error>)
    ensures r == Extend(acc, nav, links, typedPaths, subTypePaths, patternType)
  {
    if nav.nameLC in acc.patternPaths {
      return Failure(DuplicateKey(nav.nameLC));
    }
    var patternPaths := acc.patternPaths[nav.nameLC := typedPaths];
    var viewAllPaths := acc.viewAllPaths;
    if subTypePaths != map[] {
      if KeywordPartialAll in subTypePaths {
        return Failure(DuplicateKey(KeywordPartialAll));
      }
      var paths := subTypePaths[KeywordPartialAll := patternType];
      if nav.nameLC in viewAllPaths {
        return Failure(DuplicateKey(nav.nameLC));
      }
      viewAllPaths := viewAllPaths[nav.nameLC := paths];
    }
    r := Success(Taxonomy(acc.types + [nav], links, patternPaths, viewAllPaths));
  }

  /** One pass of the loop over the types: the subtypes, the patterns and the
      view-all entry of one type, added to the tables built so far. */
  method AddType(ctx: Context, patterns: seq<Pattern>, acc: Taxonomy, patternType: string,
                 ghost rank: Pattern -> nat)
    returns (r: Result<Taxonomy, Error>)
    requires VisibleRanked(ctx.registry, rank) && InRegistry(ctx, patterns)
    ensures r == TypeStep(ctx, patterns, acc, patternType, rank)
  {
    var typeName := ctx.naming.stripOrdinals(patternType);
    var typedPatterns := OfType(patterns, patternType);
    var subTypes := SubTypes(typedPatterns);
    assert InRegistry(ctx, typedPatterns);
    var subTypeItems, subTypePaths := SubTypeDetails(ctx, patterns, patternType, subTypes, rank);
    if subTypeItems.Failure? {
      return Failure(subTypeItems.error);
    }
    var items, patternLinks, typedPatternPaths := TypedDetails(ctx, typedPatterns, subTypes != [], acc.links, rank);
    if items.Failure? {
      return Failure(items.error);
    }
    var patternItems := items.value;
    if subTypes != [] {
      patternItems := patternItems + [TypeViewAll(ctx, patternType)];
      assert patternItems == [TypeViewAll(ctx, patternType)];
    }
    assert TypeItems(ctx, patternType, typedPatterns, subTypes, rank) == Success(patternItems);
    var nav := TypeNav(typeName, ctx.naming.toDisplayCase(typeName), subTypeItems.value, patternItems);
    assert TypeNavOf(ctx, patterns, patternType, rank) == Success(nav);
    TypeStepExtends(ctx, patterns, acc, patternType, rank);
    r := ExtendTables(acc, nav, patternLinks, typedPatternPaths, subTypePaths, patternType);
  }

  /**
   * The taxonomy loop of Data(): for each distinct type of the visible patterns,
   * its subtypes, its patterns and its view-all entry, and the three tables.
   */
  method BuildTaxonomy(ctx: Context, ghost rank: Pattern -> nat) returns (r: Result<Taxonomy, Error>)
    requires VisibleRanked(ctx.registry, rank)
    ensures r == Build(ctx, rank)
  {
    var patterns := Visible(ctx.registry);
    var taxonomy := Empty;
    var types := Types(patterns);
    for t := 0 to |types|
      invariant BuildFrom(ctx, patterns, types[..t], rank) == Success(taxonomy)
    {
      r := ExtendBuild(ctx, patterns, types, t, taxonomy, rank);
      if r.Failure? {
        BuildFromFailure(ctx, patterns, types, t + 1, rank);
        return;
      }
      taxonomy := r.value;
    }
    assert types[..|types|] == types;
    r := Success(taxonomy);
  }

  /** The taxonomy after one more type, from the taxonomy of the types before it. */
  method ExtendBuild(ctx: Context, patterns: seq<Pattern>, types: seq<string>, t: nat, taxonomy: Taxonomy,
                     ghost rank: Pattern -> nat)
    returns (r: Result<Taxonomy, Error>)
    requires VisibleRanked(ctx.registry, rank) && InRegistry(ctx, patterns) && t < |types|
    requires BuildFrom(ctx, patterns, types[..t], rank) == Success(taxonomy)
    ensures r == BuildFrom(ctx, patterns, types[..t + 1], rank)
  {
    assert types[..t + 1][..t] == types[..t];
    BuildFromStep(ctx, patterns, types[..t + 1], rank);
    r := AddType(ctx, patterns, taxonomy, types[t], rank);
  }

  // ---------------------------------------------------------------------------
  // What the taxonomy holds

  /** The stripped names of the types, in order: the keys patternPaths.Add is given. */
  function TypeNames(ctx: Context, types: seq<string>): (r: seq<string>)
    ensures |r| == |types|
    ensures forall i :: 0 <= i < |types| ==> r[i] == ctx.naming.stripOrdinals(types[i])
  {
    seq(|types|, i requires 0 <= i < |types| => ctx.naming.stripOrdinals(types[i]))
  }

  /** Some subtype of the list strips to "all", the key the view-all path of the type takes. */
  predicate NamesAll(ctx: Context, subTypes: seq<string>) {
    exists j :: 0 <= j < |subTypes| && ctx.naming.stripOrdinals(subTypes[j]) == KeywordPartialAll
  }

  /**
   * The navigation of one type: its stripped and display names, the navigation
   * of each of its subtypes in order (each ending with that subtype's view-all
   * entry), and then either the entries of its patterns, for a type without
   * subtypes, or its single view-all entry.
   */
  lemma TypeNavShape(ctx: Context, visible: seq<Pattern>, patternType: string, rank: Pattern -> nat)
    requires VisibleRanked(ctx.registry, rank) && InRegistry(ctx, visible)
    ensures InRegistry(ctx, OfType(visible, patternType))
    ensures var nav := TypeNavOf(ctx, visible, patternType, rank);
      var typed := OfType(visible, patternType);
      var subTypes := SubTypes(typed);
      nav.Success? ==>
        && nav.value.nameLC == ctx.naming.stripOrdinals(patternType)
        && nav.value.nameUC == ctx.naming.toDisplayCase(nav.value.nameLC)
        && |nav.value.subTypes| == |subTypes|
        && (forall j :: 0 <= j < |subTypes| ==>
              SubTypeNavOf(ctx, visible, patternType, subTypes[j], rank) == Success(nav.value.subTypes[j]))
        && (subTypes == [] ==> Entries(ctx, typed, rank) == Success(nav.value.items))
        && (subTypes != [] ==> nav.value.items == [TypeViewAll(ctx, patternType)])
  {
    assert InRegistry(ctx, OfType(visible, patternType));
    SubTypeNavsContents(ctx, visible, patternType, SubTypes(OfType(visible, patternType)), rank);
  }

  lemma SubTypePathsEmpty(ctx: Context, patternType: string, subTypes: seq<string>)
    ensures SubTypePaths(ctx, patternType, subTypes) == map[] <==> subTypes == []
    ensures KeywordPartialAll in SubTypePaths(ctx, patternType, subTypes) <==> NamesAll(ctx, subTypes)
  {
    SubTypePathsKeys(ctx, patternType, subTypes);
    if subTypes != [] {
      assert ctx.naming.stripOrdinals(subTypes[0]) in SubTypePaths(ctx, patternType, subTypes);
    }
  }

  /** One type added: it fails only on a duplicate key or, for a type with
      patterns to list, a missing patternStates setting; with the setting present
      it fails exactly when a key is already taken. */
  lemma TypeStepOutcome(ctx: Context, visible: seq<Pattern>, acc: Taxonomy, patternType: string,
                        rank: Pattern -> nat)
    requires VisibleRanked(ctx.registry, rank) && InRegistry(ctx, visible)
    ensures var r := TypeStep(ctx, visible, acc, patternType, rank);
      var subTypes := SubTypes(OfType(visible, patternType));
      "patternStates" in ctx.config ==>
        (r.Success? <==>
          && ctx.naming.stripOrdinals(patternType) !in acc.patternPaths
          && !NamesAll(ctx, subTypes)
          && (subTypes != [] ==> ctx.naming.stripOrdinals(patternType) !in acc.viewAllPaths))
    ensures var r := TypeStep(ctx, visible, acc, patternType, rank);
      r.Failure? ==> r.error.DuplicateKey? || r.error == MissingSetting("patternStates")
    ensures var r := TypeStep(ctx, visible, acc, patternType, rank);
      "patternStates" in ctx.config && r.Failure? ==> r.error.DuplicateKey?
  {
    var typed := OfType(visible, patternType);
    var subTypes := SubTypes(typed);
    SubTypePathsEmpty(ctx, patternType, subTypes);
    TypeStepExtends(ctx, visible, acc, patternType, rank);
    assert InRegistry(ctx, typed);
  }

  /** One type added: its keys were free, and the tables grow by its entries. */
  lemma TypeStepTables(ctx: Context, visible: seq<Pattern>, acc: Taxonomy, patternType: string,
                       rank: Pattern -> nat)
    requires VisibleRanked(ctx.registry, rank) && InRegistry(ctx, visible)
    ensures var r := TypeStep(ctx, visible, acc, patternType, rank);
      var subTypes := SubTypes(OfType(visible, patternType));
      r.Success? ==>
        && ctx.naming.stripOrdinals(patternType) !in acc.patternPaths
        && !NamesAll(ctx, subTypes)
        && (subTypes != [] ==> ctx.naming.stripOrdinals(patternType) !in acc.viewAllPaths)
    ensures var r := TypeStep(ctx, visible, acc, patternType, rank);
      var name := ctx.naming.stripOrdinals(patternType);
      var typed := OfType(visible, patternType);
      var subTypes := SubTypes(typed);
      r.Success? ==>
        && r.value.links == AddLinks(acc.links, typed)
        && r.value.patternPaths == acc.patternPaths[name := TypedPaths(ctx, typed)]
        && r.value.viewAllPaths ==
             if subTypes == [] then acc.viewAllPaths
             else acc.viewAllPaths[name := SubTypePaths(ctx, patternType, subTypes)[KeywordPartialAll := patternType]]
  {
    var typed := OfType(visible, patternType);
    var subTypes := SubTypes(typed);
    SubTypePathsEmpty(ctx, patternType, subTypes);
    TypeStepExtends(ctx, visible, acc, patternType, rank);
    TypeNavName(ctx, visible, patternType, rank);
    var nav := TypeNavOf(ctx, visible, patternType, rank);
    if nav.Success? {
      ExtendResult(acc, nav.value, AddLinks(acc.links, typed), TypedPaths(ctx, typed),
                   SubTypePaths(ctx, patternType, subTypes), patternType);
    }
  }

  /** The name under which a type's navigation is filed is its stripped name. */
  lemma TypeNavName(ctx: Context, visible: seq<Pattern>, patternType: string, rank: Pattern -> nat)
    requires VisibleRanked(ctx.registry, rank) && InRegistry(ctx, visible)
    ensures var nav := TypeNavOf(ctx, visible, patternType, rank);
      nav.Success? ==> nav.value.nameLC == ctx.naming.stripOrdinals(patternType)
  {
  }

  /** What Extend adds when it succeeds, and the keys it needs free. */
  lemma ExtendResult(acc: Taxonomy, nav: TypeNav, links: Paths, typedPaths: Paths, subPaths: Paths,
                     patternType: string)
    ensures var r := Extend(acc, nav, links, typedPaths, subPaths, patternType);
      r.Success? ==>
        && nav.nameLC !in acc.patternPaths
        && KeywordPartialAll !in subPaths
        && (subPaths != map[] ==> nav.nameLC !in acc.viewAllPaths)
        && r.value.links == links
        && r.value.patternPaths == acc.patternPaths[nav.nameLC := typedPaths]
        && r.value.viewAllPaths ==
             if subPaths == map[] then acc.viewAllPaths
             else acc.viewAllPaths[nav.nameLC := subPaths[KeywordPartialAll := patternType]]
  {
  }

  /** One type added: its navigation is appended. */
  lemma TypeStepShape(ctx: Context, visible: seq<Pattern>, acc: Taxonomy, patternType: string,
                      rank: Pattern -> nat)
    requires VisibleRanked(ctx.registry, rank) && InRegistry(ctx, visible)
    ensures var r := TypeStep(ctx, visible, acc, patternType, rank);
      r.Success? ==>
        && |r.value.types| == |acc.types| + 1
        && r.value.types[..|acc.types|] == acc.types
        && TypeNavOf(ctx, visible, patternType, rank) == Success(r.value.types[|acc.types|])
  {
    TypeStepExtends(ctx, visible, acc, patternType, rank);
  }

  /** The taxonomy of a non-empty list of types: that of all but the last, extended by the last. */
  lemma BuildFromStep(ctx: Context, visible: seq<Pattern>, types: seq<string>, rank: Pattern -> nat)
    requires VisibleRanked(ctx.registry, rank) && InRegistry(ctx, visible)
    requires types != []
    ensures var acc := BuildFrom(ctx, visible, types[..|types| - 1], rank);
      BuildFrom(ctx, visible, types, rank) ==
        if acc.Failure? then Failure(acc.error) else TypeStep(ctx, visible, acc.value, types[|types| - 1], rank)
  {
  }

  /** The navigation after the given types: one entry per type, in order. */
  lemma {:induction false} BuildFromShape(ctx: Context, visible: seq<Pattern>, types: seq<string>,
                                          rank: Pattern -> nat)
    requires VisibleRanked(ctx.registry, rank) && InRegistry(ctx, visible)
    ensures var r := BuildFrom(ctx, visible, types, rank);
      r.Success? ==> NavsOf(ctx, visible, types, r.value.types, rank)
  {
    if types != [] {
      var n := |types| - 1;
      var front := types[..n];
      BuildFromStep(ctx, visible, types, rank);
      BuildFromShape(ctx, visible, front, rank);
      var acc := BuildFrom(ctx, visible, front, rank);
      var r := BuildFrom(ctx, visible, types, rank);
      if acc.Success? && r.Success? {
        TypeStepShape(ctx, visible, acc.value, types[n], rank);
        NavsOfSnoc(ctx, visible, types, r.value.types, rank);
      }
    }
  }

  /** nav is the navigation of the type t. */
  ghost function HasNav(ctx: Context, visible: seq<Pattern>, rank: Pattern -> nat): (string, TypeNav) -> bool
    requires VisibleRanked(ctx.registry, rank) && InRegistry(ctx, visible)
  {
    (t: string, nav: TypeNav) => TypeNavOf(ctx, visible, t, rank) == Success(nav)
  }

  /** navs holds the navigation of each of the types, in order. */
  ghost predicate NavsOf(ctx: Context, visible: seq<Pattern>, types: seq<string>, navs: seq<TypeNav>, rank: Pattern -> nat)
    requires VisibleRanked(ctx.registry, rank) && InRegistry(ctx, visible)
  {
    Pointwise(types, navs, HasNav(ctx, visible, rank))
  }

  lemma NavsOfSnoc(ctx: Context, visible: seq<Pattern>, types: seq<string>, navs: seq<TypeNav>, rank: Pattern -> nat)
    requires VisibleRanked(ctx.registry, rank) && InRegistry(ctx, visible)
    requires types != [] && |navs| == |types|
    ensures NavsOf(ctx, visible, types, navs, rank) <==>
      NavsOf(ctx, visible, types[..|types| - 1], navs[..|navs| - 1], rank)
      && TypeNavOf(ctx, visible, types[|types| - 1], rank) == Success(navs[|navs| - 1])
  {
    PointwiseSnoc(types, navs, HasNav(ctx, visible, rank));
  }

  /** The keys of patternPaths after the given types: every type name, each once. */
  lemma {:induction false} BuildFromNames(ctx: Context, visible: seq<Pattern>, types: seq<string>,
                                          rank: Pattern -> nat)
    requires VisibleRanked(ctx.registry, rank) && InRegistry(ctx, visible)
    ensures var r := BuildFrom(ctx, visible, types, rank);
      r.Success? ==>
        && NoDuplicates(TypeNames(ctx, types))
        && forall name :: name in r.value.patternPaths <==> name in TypeNames(ctx, types)
  {
    if types != [] {
      var n := |types| - 1;
      var front := types[..n];
      BuildFromStep(ctx, visible, types, rank);
      BuildFromNames(ctx, visible, front, rank);
      var acc := BuildFrom(ctx, visible, front, rank);
      if acc.Success? {
        TypeStepKeys(ctx, visible, acc.value, types[n], rank);
        var r := BuildFrom(ctx, visible, types, rank);
        if r.Success? {
          TypeNamesAppend(ctx, types);
          KeysSnoc(TypeNames(ctx, front), ctx.naming.stripOrdinals(types[n]),
                   acc.value.patternPaths.Keys, r.value.patternPaths.Keys);
        }
      }
    }
  }

  /** One type step adds exactly the type's stripped name to the keys of patternPaths. */
  lemma TypeStepKeys(ctx: Context, visible: seq<Pattern>, acc: Taxonomy, patternType: string, rank: Pattern -> nat)
    requires VisibleRanked(ctx.registry, rank) && InRegistry(ctx, visible)
    ensures var r := TypeStep(ctx, visible, acc, patternType, rank);
      var name := ctx.naming.stripOrdinals(patternType);
      r.Success? ==> name !in acc.patternPaths && r.value.patternPaths.Keys == acc.patternPaths.Keys + {name}
  {
    TypeStepTables(ctx, visible, acc, patternType, rank);
  }

  /** A new name added to a set of keys that lists a duplicate-free list keeps both in step. */
  lemma KeysSnoc(names: seq<string>, name: string, before: set<string>, after: set<string>)
    requires NoDuplicates(names) && forall x :: x in before <==> x in names
    requires name !in before && after == before + {name}
    ensures NoDuplicates(names + [name]) && forall x :: x in after <==> x in names + [name]
  {
    NoDuplicatesSnoc(names, name);
  }

  /** Every key of viewAllPaths after the given types is a key of patternPaths too. */
  lemma {:induction false} BuildFromViewAllNamed(ctx: Context, visible: seq<Pattern>, types: seq<string>,
                                                 rank: Pattern -> nat)
    requires VisibleRanked(ctx.registry, rank) && InRegistry(ctx, visible)
    ensures var r := BuildFrom(ctx, visible, types, rank);
      r.Success? ==> forall name :: name in r.value.viewAllPaths ==> name in r.value.patternPaths
  {
    if types != [] {
      var n := |types| - 1;
      BuildFromStep(ctx, visible, types, rank);
      BuildFromViewAllNamed(ctx, visible, types[..n], rank);
      var acc := BuildFrom(ctx, visible, types[..n], rank);
      if acc.Success? {
        TypeStepTables(ctx, visible, acc.value, types[n], rank);
      }
    }
  }

  /** The name of a type is a key of viewAllPaths after the given types exactly when the type has subtypes. */
  lemma {:induction false} BuildFromViewAllKey(ctx: Context, visible: seq<Pattern>, types: seq<string>, i: nat,
                                               rank: Pattern -> nat)
    requires VisibleRanked(ctx.registry, rank) && InRegistry(ctx, visible)
    requires i < |types|
    ensures var r := BuildFrom(ctx, visible, types, rank);
      r.Success? ==>
        (ctx.naming.stripOrdinals(types[i]) in r.value.viewAllPaths <==> SubTypes(OfType(visible, types[i])) != [])
  {
    var n := |types| - 1;
    var front := types[..n];
    BuildFromStep(ctx, visible, types, rank);
    var acc := BuildFrom(ctx, visible, front, rank);
    var r := BuildFrom(ctx, visible, types, rank);
    if acc.Success? && r.Success? {
      var last := types[n];
      TypeStepTables(ctx, visible, acc.value, last, rank);
      BuildFromViewAllNamed(ctx, visible, front, rank);
      var key := ctx.naming.stripOrdinals(types[i]);
      if i == n {
      } else {
        assert types[i] == front[i];
        BuildFromViewAllKey(ctx, visible, front, i, rank);
        BuildFromNames(ctx, visible, types, rank);
        assert TypeNames(ctx, types)[i] != TypeNames(ctx, types)[n];
      }
    }
  }

  /** The path tables after the given types: each type name leads to the paths of
      its patterns and, for a type with subtypes, to its subtype paths plus "all". */
  lemma {:induction false} BuildFromPaths(ctx: Context, visible: seq<Pattern>, types: seq<string>, i: nat,
                                          rank: Pattern -> nat)
    requires VisibleRanked(ctx.registry, rank) && InRegistry(ctx, visible)
    requires i < |types|
    ensures var r := BuildFrom(ctx, visible, types, rank);
      var key := ctx.naming.stripOrdinals(types[i]);
      var typed := OfType(visible, types[i]);
      r.Success? ==>
        && key in r.value.patternPaths
        && r.value.patternPaths[key] == TypedPaths(ctx, typed)
    ensures var r := BuildFrom(ctx, visible, types, rank);
      var key := ctx.naming.stripOrdinals(types[i]);
      var subTypes := SubTypes(OfType(visible, types[i]));
      r.Success? && subTypes != [] ==>
        && key in r.value.viewAllPaths
        && r.value.viewAllPaths[key] == SubTypePaths(ctx, types[i], subTypes)[KeywordPartialAll := types[i]]
  {
    var n := |types| - 1;
    var front := types[..n];
    BuildFromStep(ctx, visible, types, rank);
    var acc := BuildFrom(ctx, visible, front, rank);
    var r := BuildFrom(ctx, visible, types, rank);
    if acc.Success? && r.Success? {
      TypeStepTables(ctx, visible, acc.value, types[n], rank);
      if i == n {
      } else {
        assert types[i] == front[i];
        BuildFromPaths(ctx, visible, front, i, rank);
        BuildFromNames(ctx, visible, types, rank);
        assert TypeNames(ctx, types)[i] != TypeNames(ctx, types)[n];
      }
    }
  }

  /** No subtype of the type strips to "all". */
  predicate FreeOfAll(ctx: Context, visible: seq<Pattern>, t: string) {
    !NamesAll(ctx, SubTypes(OfType(visible, t)))
  }

  /** No subtype of any of the given types strips to "all". */
  predicate AllFree(ctx: Context, visible: seq<Pattern>, types: seq<string>) {
    forall i :: 0 <= i < |types| ==> FreeOfAll(ctx, visible, types[i])
  }

  lemma AllFreeSnoc(ctx: Context, visible: seq<Pattern>, types: seq<string>)
    requires types != []
    ensures AllFree(ctx, visible, types) <==>
      AllFree(ctx, visible, types[..|types| - 1]) && FreeOfAll(ctx, visible, types[|types| - 1])
  {
    var named := (t: string) => !FreeOfAll(ctx, visible, t);
    AnySnoc(types, named);
    assert AllFree(ctx, visible, types) <==> !Any(types, named);
    assert AllFree(ctx, visible, types[..|types| - 1]) <==> !Any(types[..|types| - 1], named);
  }

  /** The names of a longer list of types: the front's names and the last type's. */
  lemma TypeNamesAppend(ctx: Context, types: seq<string>)
    requires types != []
    ensures TypeNames(ctx, types) ==
      TypeNames(ctx, types[..|types| - 1]) + [ctx.naming.stripOrdinals(types[|types| - 1])]
  {
  }

  /** The names of a longer list of types are distinct exactly when the front's are and the last name is new. */
  lemma TypeNamesSnoc(ctx: Context, types: seq<string>)
    requires types != []
    ensures var n := |types| - 1;
      NoDuplicates(TypeNames(ctx, types)) <==>
        NoDuplicates(TypeNames(ctx, types[..n])) && ctx.naming.stripOrdinals(types[n]) !in TypeNames(ctx, types[..n])
  {
    var n := |types| - 1;
    var names := TypeNames(ctx, types);
    assert names == TypeNames(ctx, types[..n]) + [names[n]];
    NoDuplicatesSnoc(TypeNames(ctx, types[..n]), names[n]);
  }

  /**
   * With the patternStates setting present, the taxonomy of the given types is
   * built exactly when no two types strip to the same name and no subtype strips
   * to "all"; otherwise Dictionary.Add fails on the repeated key.
   */
  lemma {:induction false} BuildFromOutcome(ctx: Context, visible: seq<Pattern>, types: seq<string>,
                                            rank: Pattern -> nat)
    requires VisibleRanked(ctx.registry, rank) && InRegistry(ctx, visible)
    requires "patternStates" in ctx.config
    ensures var r := BuildFrom(ctx, visible, types, rank);
      r.Success? <==> NoDuplicates(TypeNames(ctx, types)) && AllFree(ctx, visible, types)
    ensures BuildFrom(ctx, visible, types, rank).Failure? ==> BuildFrom(ctx, visible, types, rank).error.DuplicateKey?
  {
    if types != [] {
      var n := |types| - 1;
      var front := types[..n];
      BuildFromStep(ctx, visible, types, rank);
      BuildFromOutcome(ctx, visible, front, rank);
      TypeNamesSnoc(ctx, types);
      AllFreeSnoc(ctx, visible, types);
      var acc := BuildFrom(ctx, visible, front, rank);
      if acc.Success? {
        TypeStepOutcome(ctx, visible, acc.value, types[n], rank);
        BuildFromNames(ctx, visible, front, rank);
        BuildFromViewAllNamed(ctx, visible, front, rank);
      }
    }
  }

  /** Without the patternStates setting, the navigation of a type that has a
      visible pattern cannot be built: some entry needs the setting. */
  lemma TypeNavNeedsStates(ctx: Context, visible: seq<Pattern>, k: nat, rank: Pattern -> nat)
    requires VisibleRanked(ctx.registry, rank) && InRegistry(ctx, visible)
    requires "patternStates" !in ctx.config && k < |visible|
    ensures TypeNavOf(ctx, visible, visible[k].patternType, rank) == Failure(MissingSetting("patternStates"))
  {
    var t := visible[k].patternType;
    var typed := OfType(visible, t);
    var subTypes := SubTypes(typed);
    assert EqualsIgnoreCase(t, t);
    assert visible[k] in typed;
    assert InRegistry(ctx, typed);
    if subTypes != [] {
      SubTypesNeedStates(ctx, visible, t, rank);
    }
  }

  /** Without the patternStates setting, the navigation of the subtypes of a type cannot
      be built: the first subtype has a visible pattern, whose entry needs the setting. */
  lemma SubTypesNeedStates(ctx: Context, visible: seq<Pattern>, t: string, rank: Pattern -> nat)
    requires VisibleRanked(ctx.registry, rank) && InRegistry(ctx, visible)
    requires "patternStates" !in ctx.config && SubTypes(OfType(visible, t)) != []
    ensures SubTypeNavs(ctx, visible, t, SubTypes(OfType(visible, t)), rank).Failure?
  {
    var subTypes := SubTypes(OfType(visible, t));
    var s := subTypes[0];
    SubTypeHasPattern(visible, t, s);
    assert subTypes[..1] == [s] && [s][..0] == [];
    assert SubTypeNavOf(ctx, visible, t, s, rank).Failure?;
    SubTypeNavsFailure(ctx, visible, t, subTypes, 1, rank);
  }

  /** Every subtype of a type names some visible pattern of that type. */
  lemma SubTypeHasPattern(visible: seq<Pattern>, t: string, s: string)
    requires s in SubTypes(OfType(visible, t))
    ensures OfSubType(visible, t, s) != []
  {
    var typed := OfType(visible, t);
    var names := seq(|typed|, i requires 0 <= i < |typed| => typed[i].subType);
    assert s in Filter(names, (x: string) => x != "");
    assert s in names;
    var m :| 0 <= m < |typed| && typed[m].subType == s;
    var k :| 0 <= k < |visible| && visible[k] == typed[m];
    assert EqualsIgnoreCase(s, s);
    assert visible[k] in OfSubType(visible, t, s);
  }

  /** Without the patternStates setting, a registry with a visible pattern has no taxonomy. */
  lemma BuildNeedsStates(ctx: Context, rank: Pattern -> nat)
    requires VisibleRanked(ctx.registry, rank)
    requires "patternStates" !in ctx.config && Visible(ctx.registry) != []
    ensures Build(ctx, rank) == Failure(MissingSetting("patternStates"))
  {
    var visible := Visible(ctx.registry);
    assert InRegistry(ctx, visible);
    var kinds := seq(|visible|, i requires 0 <= i < |visible| => visible[i].patternType);
    var types := Types(visible);
    assert kinds[0] in types;
    var t := types[0];
    assert t in kinds;
    var k :| 0 <= k < |visible| && visible[k].patternType == t;
    TypeNavNeedsStates(ctx, visible, k, rank);
    TypeStepExtends(ctx, visible, Empty, t, rank);
    assert types[..1][..0] == [] && types[..1][0] == t;
    BuildFromStep(ctx, visible, types[..1], rank);
    BuildFromFailure(ctx, visible, types, 1, rank);
  }

  /**
   * How Data() fares on the taxonomy: with no visible pattern it is empty;
   * without the patternStates setting it fails for lack of it; with the setting
   * it is built exactly when no two types strip to the same name and no subtype
   * strips to "all", and otherwise fails on the repeated key.
   */
  lemma BuildOutcome(ctx: Context, rank: Pattern -> nat)
    requires VisibleRanked(ctx.registry, rank)
    ensures Visible(ctx.registry) == [] ==> Build(ctx, rank) == Success(Empty)
    ensures "patternStates" !in ctx.config && Visible(ctx.registry) != [] ==>
      Build(ctx, rank) == Failure(MissingSetting("patternStates"))
    ensures var visible := Visible(ctx.registry);
      "patternStates" in ctx.config ==>
        (Build(ctx, rank).Success? <==>
          NoDuplicates(TypeNames(ctx, Types(visible))) && AllFree(ctx, visible, Types(visible)))
    ensures "patternStates" in ctx.config && Build(ctx, rank).Failure? ==> Build(ctx, rank).error.DuplicateKey?
  {
    var visible := Visible(ctx.registry);
    assert InRegistry(ctx, visible);
    if "patternStates" in ctx.config {
      BuildFromOutcome(ctx, visible, Types(visible), rank);
    } else if visible != [] {
      BuildNeedsStates(ctx, rank);
    }
  }

  /** Every link leads to the page of a visible pattern with that partial. */
  predicate LinkedFrom(visible: seq<Pattern>, links: Paths) {
    forall k :: k in links ==> LinkOf(visible, k, links[k])
  }

  /** The links of the taxonomy lead to pages of visible patterns. */
  lemma {:induction false} BuildFromLinks(ctx: Context, visible: seq<Pattern>, types: seq<string>,
                                          rank: Pattern -> nat)
    requires VisibleRanked(ctx.registry, rank) && InRegistry(ctx, visible)
    ensures var r := BuildFrom(ctx, visible, types, rank);
      r.Success? ==> LinkedFrom(visible, r.value.links)
  {
    if types != [] {
      var n := |types| - 1;
      var front := types[..n];
      BuildFromStep(ctx, visible, types, rank);
      var acc := BuildFrom(ctx, visible, front, rank);
      var r := BuildFrom(ctx, visible, types, rank);
      if acc.Success? && r.Success? {
        BuildFromLinks(ctx, visible, front, rank);
        TypeStepTables(ctx, visible, acc.value, types[n], rank);
        AddLinksLinked(visible, acc.value.links, OfType(visible, types[n]));
      }
    }
  }

  /** Links added for patterns of the visible list keep the links leading to visible patterns. */
  lemma AddLinksLinked(visible: seq<Pattern>, links: Paths, typed: seq<Pattern>)
    requires LinkedFrom(visible, links)
    requires forall i :: 0 <= i < |typed| ==> typed[i] in visible
    ensures LinkedFrom(visible, AddLinks(links, typed))
  {
    var r := AddLinks(links, typed);
    AddLinksContents(links, typed);
    forall k | k in r
      ensures LinkOf(visible, k, r[k])
    {
      if k !in links {
        var i :| 0 <= i < |typed| && typed[i].partial == k && r[k] == LinkPrefix + typed[i].htmlUrl;
        var m :| 0 <= m < |visible| && visible[m] == typed[i];
      }
    }
  }

  /** Every pattern of every type built has its partial in the links. */
  lemma {:induction false} BuildFromLinked(ctx: Context, visible: seq<Pattern>, types: seq<string>, i: nat, j: nat,
                                           rank: Pattern -> nat)
    requires VisibleRanked(ctx.registry, rank) && InRegistry(ctx, visible)
    requires i < |types| && j < |OfType(visible, types[i])|
    ensures var r := BuildFrom(ctx, visible, types, rank);
      r.Success? ==> OfType(visible, types[i])[j].partial in r.value.links
  {
    var n := |types| - 1;
    var front := types[..n];
    BuildFromStep(ctx, visible, types, rank);
    var acc := BuildFrom(ctx, visible, front, rank);
    var r := BuildFrom(ctx, visible, types, rank);
    if acc.Success? && r.Success? {
      TypeStepTables(ctx, visible, acc.value, types[n], rank);
      AddLinksContents(acc.value.links, OfType(visible, types[n]));
      if i != n {
        assert types[i] == front[i];
        BuildFromLinked(ctx, visible, front, i, j, rank);
      }
    }
  }

  /** The links of the taxonomy are exactly the partials of the visible patterns,
      each leading to the page of a visible pattern with that partial. */
  lemma BuildLinks(ctx: Context, rank: Pattern -> nat)
    requires VisibleRanked(ctx.registry, rank)
    ensures var visible := Visible(ctx.registry);
      var r := Build(ctx, rank);
      r.Success? ==>
        && LinkedFrom(visible, r.value.links)
        && forall m :: 0 <= m < |visible| ==> visible[m].partial in r.value.links
  {
    var visible := Visible(ctx.registry);
    assert InRegistry(ctx, visible);
    var types := Types(visible);
    var r := Build(ctx, rank);
    BuildFromLinks(ctx, visible, types, rank);
    if r.Success? {
      forall m | 0 <= m < |visible|
        ensures visible[m].partial in r.value.links
      {
        VisibleLinked(ctx, visible, m, rank);
      }
    }
  }

  /** A visible pattern has its partial in the links of a taxonomy built from all visible types. */
  lemma VisibleLinked(ctx: Context, visible: seq<Pattern>, m: nat, rank: Pattern -> nat)
    requires VisibleRanked(ctx.registry, rank) && InRegistry(ctx, visible) && m < |visible|
    ensures var r := BuildFrom(ctx, visible, Types(visible), rank);
      r.Success? ==> visible[m].partial in r.value.links
  {
    var types := Types(visible);
    var kinds := seq(|visible|, i requires 0 <= i < |visible| => visible[i].patternType);
    assert kinds[m] in types;
    var i :| 0 <= i < |types| && types[i] == visible[m].patternType;
    var typed := OfType(visible, types[i]);
    assert EqualsIgnoreCase(types[i], types[i]);
    assert visible[m] in typed;
    var j :| 0 <= j < |typed| && typed[j] == visible[m];
    BuildFromLinked(ctx, visible, types, i, j, rank);
  }

  // A registry whose two hidden patterns include each other, beside a visible
  // pattern with no lineage: Data() never calls GetState on the hidden pair.

  function CycleVisible(): Pattern {
    Pattern("atoms", "", "v", "v", "atoms-v", "", "", "", "", false, [], [], "v")
  }

  function CycleFirst(): Pattern {
    Pattern("atoms", "", "h1", "h1", "atoms-h1", "", "", "", "", true, ["h2"], [], "h1")
  }

  function CycleSecond(): Pattern {
    Pattern("atoms", "", "h2", "h2", "atoms-h2", "", "", "", "", true, ["h1"], [], "h2")
  }

  function CycleRegistry(): seq<Pattern> {
    [CycleVisible(), CycleFirst(), CycleSecond()]
  }

  /** The hidden pair resolves to each other. */
  lemma CycleResolves()
    ensures Resolve(CycleRegistry(), "h1") == Some(CycleFirst())
    ensures Resolve(CycleRegistry(), "h2") == Some(CycleSecond())
  {
    FoldCaseUncapitalised("v");
    FoldCaseUncapitalised("h1");
    FoldCaseUncapitalised("h2");
    assert !EqualsIgnoreCase("v", "h1") && !EqualsIgnoreCase("v", "h2");
    assert "h1"[1] != "h2"[1];
    assert EqualsIgnoreCase(CycleRegistry()[1].partial, "h1");
    assert !EqualsIgnoreCase(CycleRegistry()[1].partial, "h2");
    assert EqualsIgnoreCase(CycleRegistry()[2].partial, "h2");
  }

  /** Each of the hidden pair ranks below the other when its references are ranked. */
  lemma CycleRanks(rank: Pattern -> nat)
    ensures ChildrenRanked(CycleRegistry(), rank, CycleFirst()) ==> rank(CycleSecond()) < rank(CycleFirst())
    ensures ChildrenRanked(CycleRegistry(), rank, CycleSecond()) ==> rank(CycleFirst()) < rank(CycleSecond())
  {
    CycleResolves();
    assert CycleFirst().lineages[0] == "h2" && CycleSecond().lineages[0] == "h1";
  }

  /** A cycle among hidden patterns that no visible pattern reaches does not stop
      the taxonomy: every rank makes the registry ranked from its visible
      patterns, while no rank makes the whole registry acyclic. */
  lemma HiddenCycleExample(rank: Pattern -> nat)
    ensures VisibleRanked(CycleRegistry(), rank)
    ensures !LineageRanked(CycleRegistry(), rank)
  {
    var patterns := CycleRegistry();
    forall q | q in patterns && !q.hidden
      ensures RankedFrom(patterns, rank, q)
    {
      assert q == CycleVisible();
    }
    CycleRanks(rank);
    assert CycleFirst() in patterns && CycleSecond() in patterns;
  }
}
