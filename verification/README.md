# PatternProvider, modelled in Dafny

This project models `PatternProvider`, the per-session engine of Pattern Lab for
.NET. The provider does the following:

- reads its settings;
- builds the pattern registry from the template files;
- looks patterns up by URL, path or partial;
- resolves the lifecycle state of a pattern over the patterns it includes;
- merges the JSON and YAML data files;
- collects the CSS breakpoints used by the stylesheets;
- builds the navigation taxonomy and its link and path tables that the viewer
  receives from `Data()`.

It remembers each computed value in one of seven cache fields until `Clear()`.

The model has one module per concern, each in its own file:

| module | file | what it holds |
|---|---|---|
| `Wrappers` | `wrappers.dfy` | `Option` and `Result`. A null becomes `None`; a thrown exception becomes `Failure`. |
| `Text` | `text.dfy` | The string operations of the base library the provider relies on: case-insensitive equality, `Split` with `RemoveEmptyEntries`, `Replace` with an empty string, `Trim`, ordinal order and number formatting. |
| `Collections` | `collections.dfy` | `IndexOf`, `Distinct`, `Where`, `FirstOrDefault`, and the add-if-absent accumulation of `GetMediaQueries`. |
| `Sorting` | `sorting.dfy` | `OrderBy` as a stable sort by a key order. |
| `Settings` | `settings.dfy` | The configuration as a map; `Setting`, the folder paths, the cache-buster value, the ignored directories and extensions, and the engine selection. |
| `Patterns` | `patterns.dfy` | The registry that `Patterns()` builds, and `FindPattern`. |
| `States` | `states.dfy` | `GetState`. |
| `DataMerge` | `datamerge.dfy` | `GetData` and `MergeData`. |
| `MediaQueries` | `mediaqueries.dfy` | A scanner for the breakpoint regular expression, and `GetMediaQueries`. |
| `IshControls` | `ishcontrols.dfy` | The hidden ish controls of `Data()`. |
| `Taxonomy` | `taxonomy.dfy` | The type and subtype loop of `Data()`. |
| `Provider` | `provider.dfy` | The `PatternProvider` class with its cache fields and accessors. |

Where the source changes state step by step, the model has methods with loops
or class fields:

- the cache fields and their accessors;
- the `AddRange` loop of `Patterns()`;
- the dictionary-filling loops of `GetData` and `MergeData`;
- the accumulation across files in `GetMediaQueries`;
- the nested loops of the taxonomy;
- the state-reassigning loop of `GetState`.

Each such method is proved equal to a function, and the promised properties are
proved about that function.

The outside world is fixed in `Provider.Environment`:

- the parsed `config.ini`;
- the application root;
- the registered engines, with null where one is missing;
- the directory listings and file contents;
- the JSON and YAML deserialisers, as functions returning `None` on error or null;
- the host address;
- whether a snapshots folder exists;
- the helpers `StripOrdinals`, `ToDisplayCase` and `StripPatternParameters`,
  which are not part of this model and appear as uninterpreted functions.

The clock is an integer argument of `CacheBuster`.

The source recurses without end in `GetState` when the lineage reachable from
the pattern is cyclic. `GetState` therefore requires the lineage reachable from
its pattern to be acyclic, witnessed by a ghost rank function that every
resolved lineage reference decreases (`States.RankedFrom`). The taxonomy and
`Data()` call `GetState` on visible patterns only, so they require this of the
visible patterns only (`Taxonomy.VisibleRanked`): a cycle among hidden patterns
that no visible pattern reaches is accepted (`Taxonomy.HiddenCycleExample`).
The provider itself, `Patterns()`, `FindPattern`, `CacheBuster`, the ignored
lists and `PatternEngine` ask for no rank and work on any registry.

Three behaviours of the code are easy to misread:

- The pattern-path table is keyed by the type name with ordinals stripped, not
  display-cased. A second type with the same stripped name makes
  `Dictionary.Add` throw (lines 602 and 607); it does not keep the first
  occurrence. The tables filled under a `ContainsKey` guard do keep the first
  occurrence: the subtype-path table (548-552), the link table (560-566) and
  each type's own pattern-path table (568-572).
- `Patterns()` fails when no engine is registered, because `Last` throws (line 708).
  It is not failure-free. The field initialiser (251-258) always puts a
  `MustachePatternEngine` first in `SupportedPatternEngines`, so this failure
  needs a caller that empties the public list or nulls its entries.
- `FolderPathPublic` uses `public` exactly when `publicDir` is set, and an empty
  folder name otherwise (inverted test at line 125).

## Model

| member | source | states |
|---|---|---|
| Text.FoldCase | PatternLab.Core/Providers/PatternProvider.cs:488 | Folding keeps the length and folds each character on its own: ASCII capitals become lower case, every other character is kept. |
| Text.EqualsIgnoreCaseIsEquivalence | PatternLab.Core/Providers/PatternProvider.cs:488 | Case-insensitive equality is reflexive, symmetric and transitive, and equal strings have equal length. |
| Text.EqualsIgnoreCase | PatternLab.Core/Providers/PatternProvider.cs:799-801 | Equals with InvariantCultureIgnoreCase: the two texts fold to the same text. EqualsIgnoreCaseIsEquivalence states its laws. |
| Text.StartsWithIgnoreCase | PatternLab.Core/Providers/PatternProvider.cs:805 | StartsWith with InvariantCultureIgnoreCase: the folded prefix begins the folded text. FindPattern states its use. |
| Text.Fields | PatternLab.Core/Providers/PatternProvider.cs:422-423 | Splitting gives at least one field, and no field holds the separator. |
| Text.NonEmpty | PatternLab.Core/Providers/PatternProvider.cs:423 | Dropping empty entries keeps exactly the non-empty entries. Their order and repeats are stated by NonEmptyConcat and NonEmptySingleton. |
| Text.Split | PatternLab.Core/Providers/PatternProvider.cs:422-423 | Split with RemoveEmptyEntries gives non-empty entries without the separator. |
| Text.FieldsOfFreeText | PatternLab.Core/Providers/PatternProvider.cs:423 | A text without the separator is a single field. |
| Text.FieldsOfSeparated | PatternLab.Core/Providers/PatternProvider.cs:423 | A separator-free text, a separator and a rest split into that text followed by the fields of the rest. |
| Text.FieldsJoin | PatternLab.Core/Providers/PatternProvider.cs:423 | Splitting a join of separator-free fields gives the fields back. |
| Text.SplitJoin | PatternLab.Core/Providers/PatternProvider.cs:670 | Split with RemoveEmptyEntries undoes Join on non-empty, separator-free entries. |
| Text.NonEmptyOfNonEmpty | PatternLab.Core/Providers/PatternProvider.cs:423 | Dropping empty entries from a list that has none changes nothing. |
| Text.NonEmptyConcat | PatternLab.Core/Providers/PatternProvider.cs:423 | Dropping empty entries from two runs of entries drops them from each run in turn, so the kept entries keep their order and their repeats. |
| Text.NonEmptySingleton | PatternLab.Core/Providers/PatternProvider.cs:423 | A single entry is kept exactly when it is non-empty. |
| Text.RemoveAll | PatternLab.Core/Providers/PatternProvider.cs:778 | Replace with the empty string never lengthens the text. |
| Text.RemoveAllChar | PatternLab.Core/Providers/PatternProvider.cs:778 | Removing a character leaves none of it, keeps a text without it unchanged, and keeps the count of every other character. |
| Text.RemoveAllAbsent | PatternLab.Core/Providers/PatternProvider.cs:875 | A text without the pattern is left as it is. |
| Text.RemoveAllLeading | PatternLab.Core/Providers/PatternProvider.cs:875 | A leading occurrence of the root is removed and the rest is kept. |
| Text.TrimStart | PatternLab.Core/Providers/PatternProvider.cs:424 | The result is a suffix that does not start with a dropped character, and only dropped characters were removed. |
| Text.TrimEnd | PatternLab.Core/Providers/PatternProvider.cs:424 | The result is a prefix that does not end with a dropped character, and only dropped characters were removed. |
| Text.Trim | PatternLab.Core/Providers/PatternProvider.cs:424 | Trim gives an infix of the text that neither starts nor ends with white space, and everything before and after that infix is white space. |
| Text.TrimChars | PatternLab.Core/Providers/PatternProvider.cs:424 | The infix left once a class of characters is removed from both ends: it neither starts nor ends with one, and only such characters surround it. |
| Text.TrimWhiteSpaceAndNull | PatternLab.Core/Providers/PatternProvider.cs:332 | The trim Boolean.TryParse applies: the infix that neither starts nor ends with white space or NUL, with only white space and NUL around it. |
| Text.TrimStartPadded | PatternLab.Core/Providers/PatternProvider.cs:424 | Removing from the front stops exactly at the first character that is not dropped. |
| Text.TrimEndPadded | PatternLab.Core/Providers/PatternProvider.cs:424 | Removing from the back stops exactly at the last character that is not dropped. |
| Text.TrimPadded | PatternLab.Core/Providers/PatternProvider.cs:332 | Trimming a padded text gives back exactly the unpadded text inside. |
| Text.OrdinalLeqTotal | PatternLab.Core/Providers/PatternProvider.cs:761 | Ordinal order relates any two strings. |
| Text.OrdinalLeqTransitive | PatternLab.Core/Providers/PatternProvider.cs:761 | Ordinal order is transitive. |
| Text.OrdinalLeqAntisymmetric | PatternLab.Core/Providers/PatternProvider.cs:761 | Ordinal order is antisymmetric. |
| Text.DigitChar | PatternLab.Core/Providers/PatternProvider.cs:347 | A digit value below ten is written as a decimal digit. |
| Text.DigitValue | PatternLab.Core/Providers/PatternProvider.cs:897 | A decimal digit has a value below ten. |
| Text.NatToString | PatternLab.Core/Providers/PatternProvider.cs:347 | A whole number is formatted as a non-empty string of digits. |
| Text.NatToStringRoundTrip | PatternLab.Core/Providers/PatternProvider.cs:347 | Reading the formatted digits back gives the number. |
| Text.IntToString | PatternLab.Core/Providers/PatternProvider.cs:347 | The formatted number is non-empty and starts with '-' exactly when it is negative. Its digits, after the sign, read back to the number's absolute value. |
| Collections.IndexOf | PatternLab.Core/Providers/PatternProvider.cs:926-927 | IndexOf gives the first position of the element, or -1 exactly when it is absent. |
| Collections.IndexOfPrefix | PatternLab.Core/Providers/PatternProvider.cs:926-927 | The first position of an element of a prefix does not move when the list grows. |
| Collections.AppendNew | PatternLab.Core/Providers/PatternProvider.cs:885-889 | Adding only absent values extends the list, adds every value, adds nothing else, and keeps it free of duplicates. |
| Collections.AppendNewOrder | PatternLab.Core/Providers/PatternProvider.cs:885-889 | Each added value is absent from the list and present in the input, and the added values follow the order of their first occurrence in the input. |
| Collections.AppendNewConcat | PatternLab.Core/Providers/PatternProvider.cs:885-889 | Adding two lists in turn is the same as adding their concatenation. |
| Collections.Distinct | PatternLab.Core/Providers/PatternProvider.cs:469 | Distinct has no duplicates and the same elements as its input. |
| Collections.DistinctOrder | PatternLab.Core/Providers/PatternProvider.cs:469 | Distinct keeps the order of first occurrence. |
| Collections.DistinctSnoc | PatternLab.Core/Providers/PatternProvider.cs:469 | One more element keeps the first-seen order of the distinct elements. |
| Collections.DistinctAppendOne | PatternLab.Core/Providers/PatternProvider.cs:469 | One more element is appended to the distinct elements exactly when it was not among them. |
| Collections.FirstWhere | PatternLab.Core/Providers/PatternProvider.cs:704-708 | FirstOrDefault gives the first position that satisfies the predicate, or -1 when none does. |
| Collections.Filter | PatternLab.Core/Providers/PatternProvider.cs:463 | Where keeps exactly the elements that satisfy the predicate. Their order and repeats are stated by FilterConcat and FilterSingleton. |
| Collections.FilterConcat | PatternLab.Core/Providers/PatternProvider.cs:463 | Filtering a concatenation is filtering each part in turn, so kept elements keep their order and their repeats. |
| Collections.FilterSingleton | PatternLab.Core/Providers/PatternProvider.cs:463 | A single element is kept exactly when it satisfies the predicate. |
| Collections.NoDuplicatesCount | PatternLab.Core/Providers/PatternProvider.cs:469 | In a list without duplicates each element occurs at most once. |
| Collections.PermutationNoDuplicates | PatternLab.Core/Providers/PatternProvider.cs:894-899 | A reordering of a duplicate-free list is duplicate-free. |
| Sorting.Insert | PatternLab.Core/Providers/PatternProvider.cs:761 | Insertion adds exactly the one element. |
| Sorting.SortBy | PatternLab.Core/Providers/PatternProvider.cs:761 | OrderBy gives a permutation of its input. |
| Sorting.InsertSorted | PatternLab.Core/Providers/PatternProvider.cs:761 | Inserting into a sorted list keeps it sorted. |
| Sorting.SortBySorted | PatternLab.Core/Providers/PatternProvider.cs:761 | OrderBy gives a list sorted by the key order. |
| Sorting.InsertStable | PatternLab.Core/Providers/PatternProvider.cs:761 | Insertion places the new element after the existing elements with the same key. |
| Sorting.SortByStable | PatternLab.Core/Providers/PatternProvider.cs:761 | OrderBy is stable: elements with the same key keep their input order. |
| Settings.Setting | PatternLab.Core/Providers/PatternProvider.cs:771-782 | A setting is missing exactly when its key is absent. A present value has no quotation mark, is unchanged when it had none, and keeps the count of every other character. |
| Settings.SettingIdempotent | PatternLab.Core/Providers/PatternProvider.cs:775-779 | Reading a setting whose value was already read changes nothing. |
| Settings.FolderPathPublic | PatternLab.Core/Providers/PatternProvider.cs:120-134 | The public path starts with the application root and ends with a separator. |
| Settings.FolderPathPublicIgnoresValue | PatternLab.Core/Providers/PatternProvider.cs:124-132 | Only whether publicDir is set matters: set gives root + "public" + separator, unset gives root + separator. |
| Settings.FolderPathSource | PatternLab.Core/Providers/PatternProvider.cs:139-152 | The source path is the root, followed by sourceDir and a separator exactly when sourceDir is set. |
| Settings.ParseBool | PatternLab.Core/Providers/PatternProvider.cs:332 | A missing setting does not parse. The value is true exactly when the text, with white space and NUL characters trimmed from both ends, is "true" ignoring case, and false exactly when it is "false" ignoring case; anything else does not parse. |
| Settings.ParseBoolRoundTrip | PatternLab.Core/Providers/PatternProvider.cs:332 | "True" and "False" parse to their booleans. |
| Settings.ParseBoolPadded | PatternLab.Core/Providers/PatternProvider.cs:332 | "True" and "False" surrounded by any white space and NUL characters still parse to their booleans. |
| Settings.ParseBoolTrailingNull | PatternLab.Core/Providers/PatternProvider.cs:332 | "true" followed by a NUL character parses to true. |
| Settings.CacheBusterValue | PatternLab.Core/Providers/PatternProvider.cs:330-347 | The token is "0" unless cacheBusterOn parses as true and noCache is not true; then it is the timestamp's digits. |
| Settings.SplitSetting | PatternLab.Core/Providers/PatternProvider.cs:422-423 | Splitting a setting fails exactly when it is missing, with that setting named. Otherwise the entries are non-empty and free of commas and quotation marks. |
| Settings.FieldsChars | PatternLab.Core/Providers/PatternProvider.cs:423 | Split fields only hold characters of the split text. |
| Settings.SplitSubstrings | PatternLab.Core/Providers/PatternProvider.cs:423 | Split entries only hold characters of the split text. |
| Settings.SplitSettingRoundTrip | PatternLab.Core/Providers/PatternProvider.cs:670 | A list written comma-separated in the settings is read back unchanged. |
| Settings.JoinChars | PatternLab.Core/Providers/PatternProvider.cs:670 | Joining adds no character other than the separator. |
| Settings.IgnoredDirectories | PatternLab.Core/Providers/PatternProvider.cs:664-676 | Fails exactly when "id" is missing; otherwise the "id" entries followed by "_meta" and the public path. |
| Settings.IgnoredExtensions | PatternLab.Core/Providers/PatternProvider.cs:682-694 | Fails exactly when "ie" is missing; otherwise the "ie" entries followed by the empty extension. |
| Settings.LastRegistered | PatternLab.Core/Providers/PatternProvider.cs:708 | The position of the last non-null engine, or -1 when all are null. |
| Settings.SelectEngine | PatternLab.Core/Providers/PatternProvider.cs:700-711 | Fails exactly when no engine is registered. Gives the first registered engine whose name matches the setting ignoring case. When none matches, whether the setting is missing or names no engine, gives the last registered one. |
| Settings.NameMatches | PatternLab.Core/Providers/PatternProvider.cs:704-707 | An engine is registered and its name equals the configured setting ignoring case. SelectEngine states its use. |
| Patterns.NestedViews | PatternLab.Core/Providers/PatternProvider.cs:743-745 | Keeps exactly the files whose directory is not the pattern folder itself. Their order is stated by NestedViewsConcat and NestedViewsSingleton. |
| Patterns.NestedViewsConcat | PatternLab.Core/Providers/PatternProvider.cs:743-745 | The nested files of two runs of files are those of the first run followed by those of the second, in order. |
| Patterns.NestedViewsSingleton | PatternLab.Core/Providers/PatternProvider.cs:743-745 | One file is kept, by its full name, exactly when its directory is not the pattern folder. |
| Patterns.Build | PatternLab.Core/Providers/PatternProvider.cs:733 | One pattern per view, in order. |
| Patterns.PseudoOf | PatternLab.Core/Providers/PatternProvider.cs:757 | One pseudo-pattern per declared name, in declaration order, sharing the parent's file. |
| Patterns.Parents | PatternLab.Core/Providers/PatternProvider.cs:751 | The parents are exactly the patterns that declare a pseudo-pattern. Their order is stated by ParentsConcat and ParentsSingleton. |
| Patterns.IsParent | PatternLab.Core/Providers/PatternProvider.cs:751 | A pattern is a parent when it declares a pseudo-pattern. ParentsSingleton states it. |
| Patterns.ParentsConcat | PatternLab.Core/Providers/PatternProvider.cs:751 | The parents of two runs of patterns are those of the first run followed by those of the second, in registry order. |
| Patterns.ParentsSingleton | PatternLab.Core/Providers/PatternProvider.cs:751 | One pattern is a parent exactly when it declares a pseudo-pattern. |
| Patterns.ByPathDashIsTotalPreorder | PatternLab.Core/Providers/PatternProvider.cs:761 | Ordering by PathDash is a total preorder. |
| Patterns.ByPathDash | PatternLab.Core/Providers/PatternProvider.cs:761 | The OrderBy key order: ordinal comparison of PathDash. ByPathDashIsTotalPreorder and RegistryOrdered state it. |
| Patterns.BuildPatterns | PatternLab.Core/Providers/PatternProvider.cs:717-764 | The AddRange loop and the sort give the registry function. |
| Patterns.ExpandStep | PatternLab.Core/Providers/PatternProvider.cs:752-758 | One more parent appends its pseudo-patterns. |
| Patterns.RegistryOrdered | PatternLab.Core/Providers/PatternProvider.cs:761 | The registry is sorted by PathDash, and patterns with the same PathDash keep their discovery order. |
| Patterns.Registry | PatternLab.Core/Providers/PatternProvider.cs:717-764 | The list Patterns() builds, sorted by PathDash. RegistryOrdered and RegistryContents state it. |
| Patterns.BasePatterns | PatternLab.Core/Providers/PatternProvider.cs:726-748 | The meta views, then the views below the pattern folder, each made a pattern. RegistryContents states it. |
| Patterns.Unsorted | PatternLab.Core/Providers/PatternProvider.cs:733-758 | The meta patterns, the nested pattern files and one level of pseudo-patterns, before sorting. RegistryContents states it. |
| Patterns.Expand | PatternLab.Core/Providers/PatternProvider.cs:751-758 | The pseudo-patterns of each parent, parent by parent. ExpandStep and ExpandShape state it. |
| Patterns.AppendPseudo | PatternLab.Core/Providers/PatternProvider.cs:751-758 | The AddRange loop over the parents appends exactly their expansion. |
| Patterns.ExpandShape | PatternLab.Core/Providers/PatternProvider.cs:750-758 | Expansion gives one pattern per declared pseudo name, each from its parent's file. |
| Patterns.ParentsCount | PatternLab.Core/Providers/PatternProvider.cs:751 | Selecting the parents loses no pseudo name. |
| Patterns.RegistryContents | PatternLab.Core/Providers/PatternProvider.cs:730-758 | The registry is a permutation of the meta patterns, the nested pattern files and one pseudo-pattern per declared name. Pseudo-patterns are expanded one level only. |
| Patterns.FindPattern | PatternLab.Core/Providers/PatternProvider.cs:789-806 | After stripping parameters, gives the first exact match on ViewUrl, PathSlash or Partial ignoring case. Only when there is none, gives the first partial prefix match; otherwise null. |
| Patterns.ExactMatch | PatternLab.Core/Providers/PatternProvider.cs:799-801 | ViewUrl, PathSlash or Partial equals the term ignoring case. FindPattern and FindPatternPrefersExact state its use. |
| Patterns.PrefixMatch | PatternLab.Core/Providers/PatternProvider.cs:805 | The partial begins with the term ignoring case. FindPattern states its use. |
| Patterns.FindPatternPrefersExact | PatternLab.Core/Providers/PatternProvider.cs:796-805 | An exact match wins over an earlier prefix match. |
| States.Resolve | PatternLab.Core/Providers/PatternProvider.cs:937-939 | Gives the first registry pattern whose partial matches ignoring case, as FirstOrDefault does; null exactly when none matches. |
| States.Adopt | PatternLab.Core/Providers/PatternProvider.cs:924-934 | Adopts s exactly when s is non-empty, s ranks before the candidate or the candidate is unlisted, and s is not the last listed state. |
| States.FoldLineageStep | PatternLab.Core/Providers/PatternProvider.cs:937-948 | One lineage step visits a resolved child with the current candidate and skips an unresolved one. |
| States.NullIfEmpty | PatternLab.Core/Providers/PatternProvider.cs:950-954 | An empty state becomes null, and any other state is kept. |
| States.GetState | PatternLab.Core/Providers/PatternProvider.cs:910-957 | Fails exactly when patternStates is missing; otherwise gives the fold over the pattern and its resolved lineage, with null for an empty result. |
| States.Visit | PatternLab.Core/Providers/PatternProvider.cs:921-948 | One call of GetState: the pattern's own state compared with the candidate, then its lineage folded. VisitIsFold and GetStateMostUrgent state it. |
| States.FoldLineage | PatternLab.Core/Providers/PatternProvider.cs:937-948 | The lineage loop from one position on: unresolved partials skipped, resolved children visited in order. FoldLineageStep and FoldLineageIsFold state it. |
| States.VisitLineage | PatternLab.Core/Providers/PatternProvider.cs:937-948 | The loop over the lineage gives the fold over the resolved children in lineage order. |
| States.LineageRankedFrom | PatternLab.Core/Providers/PatternProvider.cs:937-947 | A registry acyclic as a whole is acyclic from each of its patterns, so GetState ends on each of them. |
| States.ResolvedRanked | PatternLab.Core/Providers/PatternProvider.cs:937-947 | A resolved child has lower rank, so the recursion ends. |
| States.AdoptAllConcat | PatternLab.Core/Providers/PatternProvider.cs:937-948 | Folding over two runs of states in turn is folding over both. |
| States.VisitIsFold | PatternLab.Core/Providers/PatternProvider.cs:910-948 | GetState's recursion is the fold of the comparison over the states it meets, depth first. |
| States.FoldLineageIsFold | PatternLab.Core/Providers/PatternProvider.cs:937-948 | The lineage loop is that fold from the current position. |
| States.AdoptAllMostUrgent | PatternLab.Core/Providers/PatternProvider.cs:924-934 | When every state met is listed or empty: the fold gives the start or a state met. It is at least as urgent as the start and as every adoptable state met, and the last listed state is never adopted. |
| States.GetStateMostUrgent | PatternLab.Core/Providers/PatternProvider.cs:910-957 | When every state met is listed or empty: GetState gives the most urgent adoptable state below the pattern, or its own state, and null only when no adoptable state is met. |
| States.StatePriorityExample | PatternLab.Core/Providers/PatternProvider.cs:910-957 | A stateless parent with children in inprogress and complete, under priorities complete, inreview, inprogress, resolves to complete. |
| DataMerge.Merge | PatternLab.Core/Providers/PatternProvider.cs:965-982 | The merge has the union of the keys, the additional value wherever present, and the original value elsewhere. |
| DataMerge.CopyInto | PatternLab.Core/Providers/PatternProvider.cs:976-979 | The copy loop gives the merge. |
| DataMerge.MergeData | PatternLab.Core/Providers/PatternProvider.cs:965-982 | MergeData gives the last-writer-wins merge of its two arguments. |
| DataMerge.Parse | PatternLab.Core/Providers/PatternProvider.cs:824-844 | A `.json` file (in any case) is read as JSON and any other file as YAML. |
| DataMerge.Parsed | PatternLab.Core/Providers/PatternProvider.cs:819-846 | One parse outcome per file, in order. |
| DataMerge.GetData | PatternLab.Core/Providers/PatternProvider.cs:813-855 | The file loop gives the ordered merge of the parsed files. |
| DataMerge.MergeAll | PatternLab.Core/Providers/PatternProvider.cs:819-852 | The parsed files merged in order. MergeAllKeys, MergeAllLastWriter, MergeAllConcat and UnparsedIgnored state it. |
| DataMerge.MergeAllKeys | PatternLab.Core/Providers/PatternProvider.cs:846-851 | The result's keys are exactly the keys of the files that parsed. |
| DataMerge.MergeAllLastWriter | PatternLab.Core/Providers/PatternProvider.cs:848-851 | Each key holds the value of the last parsed file that has it. |
| DataMerge.MergeAllConcat | PatternLab.Core/Providers/PatternProvider.cs:819-852 | Merging two runs of files and then merging the results is merging all the files. |
| DataMerge.UnparsedIgnored | PatternLab.Core/Providers/PatternProvider.cs:840-846 | A file that does not parse changes nothing. |
| DataMerge.NoDeepMerge | PatternLab.Core/Providers/PatternProvider.cs:848-851 | Two objects under one key are not combined: the later one replaces the earlier. |
| DataMerge.LastWriterExample | PatternLab.Core/Providers/PatternProvider.cs:848-851 | {x: 1, y: 2} then {y: 3} gives {x: 1, y: 3}. |
| IshControls.AddKeysOutcome | PatternLab.Core/Providers/PatternProvider.cs:424-452 | Adding keys succeeds exactly when none repeats and then appends them all. A failure names a repeated key. |
| IshControls.AddKeys | PatternLab.Core/Providers/PatternProvider.cs:423-451 | Dictionary.Add of each key in turn, failing on the first repeat. AddKeysOutcome states it. |
| IshControls.Trimmed | PatternLab.Core/Providers/PatternProvider.cs:424 | Each entry trimmed, in order. |
| IshControls.Add | PatternLab.Core/Providers/PatternProvider.cs:429 | Dictionary.Add of one key: the same as adding it through the key-by-key dictionary function, so it fails with DuplicateKey on a key already present and appends it otherwise. |
| IshControls.HideIshControls | PatternLab.Core/Providers/PatternProvider.cs:421-453 | The hidden-control steps of Data() give the hidden-control function, whose outcome HiddenControlsOutcome states. |
| IshControls.AddTrimmed | PatternLab.Core/Providers/PatternProvider.cs:423 | The loop that puts each trimmed name in the dictionary gives the key-by-key dictionary function over the trimmed names. |
| IshControls.AddFixedControls | PatternLab.Core/Providers/PatternProvider.cs:426-452 | The fixed-control steps give the fixed-control function, whose outcome AddFixedOutcome states. |
| IshControls.HiddenControlsOutcome | PatternLab.Core/Providers/PatternProvider.cs:421-453 | Succeeds exactly when the three settings are present and the trimmed names plus tools-follow, tools-reload and, without snapshots, tools-snapshot have no repeat. The result is that list, and a missing ishControlsHide fails first. |
| IshControls.HiddenControls | PatternLab.Core/Providers/PatternProvider.cs:421-452 | The hidden controls of Data(), or the first failure. HiddenControlsOutcome states it. |
| IshControls.Configured | PatternLab.Core/Providers/PatternProvider.cs:423-452 | The trimmed configured names, then the fixed controls. ConfiguredOutcome states it. |
| IshControls.AddFixed | PatternLab.Core/Providers/PatternProvider.cs:426-452 | tools-follow, tools-reload and, without snapshots, tools-snapshot added in that order. AddFixedOutcome states it. |
| IshControls.ConfiguredOutcome | PatternLab.Core/Providers/PatternProvider.cs:424-452 | Once ishControlsHide is read, the rest succeeds exactly when pageFollowNav and autoReloadNav are present and the trimmed names followed by the fixed controls have no repeat; the result is that list. |
| IshControls.AddFixedOutcome | PatternLab.Core/Providers/PatternProvider.cs:426-452 | Adding the fixed controls to a repeat-free dictionary succeeds exactly when both settings are present and no fixed control is already a key; the result appends them in order. |
| IshControls.FixedChain | PatternLab.Core/Providers/PatternProvider.cs:426-452 | The fixed controls are appended one at a time, and a repeat-free whole has repeat-free prefixes at every step. |
| IshControls.NoDuplicatesPrefix | PatternLab.Core/Providers/PatternProvider.cs:424-452 | A prefix of a duplicate-free list is duplicate-free. |
| MediaQueries.DigitsSlice | PatternLab.Core/Providers/PatternProvider.cs:886 | A digit run of the text is a digit string. |
| MediaQueries.SkipSpaces | PatternLab.Core/Providers/PatternProvider.cs:886 | The optional spaces are matched maximally. |
| MediaQueries.SkipDigits | PatternLab.Core/Providers/PatternProvider.cs:886 | A digit run is matched maximally. |
| MediaQueries.IntegerBreakpoint | PatternLab.Core/Providers/PatternProvider.cs:886 | One to five digits and a unit form a breakpoint. |
| MediaQueries.FractionBreakpoint | PatternLab.Core/Providers/PatternProvider.cs:886 | Digits, a point, one to twenty digits and a unit form a breakpoint. |
| MediaQueries.MatchAt | PatternLab.Core/Providers/PatternProvider.cs:886 | A match ends inside the text, captures a breakpoint and starts at min-width: or max-width:. |
| MediaQueries.Scan | PatternLab.Core/Providers/PatternProvider.cs:886-888 | Every captured value is a breakpoint. |
| MediaQueries.NumberParts | PatternLab.Core/Providers/PatternProvider.cs:886 | A number is one to five digits, optionally followed by a point and one to twenty digits. |
| MediaQueries.BreakpointAt | PatternLab.Core/Providers/PatternProvider.cs:886 | A breakpoint written in the text shows the scanner its digits, point and unit. |
| MediaQueries.MatchNumber | PatternLab.Core/Providers/PatternProvider.cs:886 | The number and unit after min-width or max-width, when matched, end after their start and inside the text. |
| MediaQueries.MatchNumberBreakpoint | PatternLab.Core/Providers/PatternProvider.cs:886 | Every matched number and unit is a breakpoint: one to five digits, optionally a point and one to twenty digits, then px or em. |
| MediaQueries.MatchNumberFraction | PatternLab.Core/Providers/PatternProvider.cs:886 | A number with a fraction is matched with the fraction included. |
| MediaQueries.MatchNumberInteger | PatternLab.Core/Providers/PatternProvider.cs:886 | A number without a point is matched as an integer. |
| MediaQueries.MatchNumberComplete | PatternLab.Core/Providers/PatternProvider.cs:886 | Any breakpoint written at the matching position is matched in full. |
| MediaQueries.MatchAtComplete | PatternLab.Core/Providers/PatternProvider.cs:886 | Any breakpoint written after min-width: or max-width: and spaces is captured there whole, whatever follows it. |
| MediaQueries.LastDigitIndex | PatternLab.Core/Providers/PatternProvider.cs:897 | The position of the last digit, or -1. |
| MediaQueries.BreakpointNumber | PatternLab.Core/Providers/PatternProvider.cs:897 | The sort key of a breakpoint is the value of everything but its unit. |
| MediaQueries.NumberText | PatternLab.Core/Providers/PatternProvider.cs:897 | The text up to and including its last digit. BreakpointNumber states it for breakpoints. |
| MediaQueries.Value | PatternLab.Core/Providers/PatternProvider.cs:896-898 | double.Parse of a number text, as its exact decimal value. BreakpointNumber states its use. |
| MediaQueries.Magnitude | PatternLab.Core/Providers/PatternProvider.cs:895-898 | The OrderBy key of a collected value. BreakpointNumber and ByMagnitudeIsTotalPreorder state it. |
| MediaQueries.ByMagnitudeIsTotalPreorder | PatternLab.Core/Providers/PatternProvider.cs:894-899 | Ordering by numeric value is a total preorder. |
| MediaQueries.GetMediaQueries | PatternLab.Core/Providers/PatternProvider.cs:863-902 | The file loop and the sort give the media-query function. |
| MediaQueries.MediaQueries | PatternLab.Core/Providers/PatternProvider.cs:863-902 | The collected breakpoints ordered by numeric value. MediaQueriesDistinct, MediaQueriesContents, MediaQueriesBreakpoints and MediaQueriesOrdered state it. |
| MediaQueries.Collect | PatternLab.Core/Providers/PatternProvider.cs:868-891 | The file loop: each file not skipped adds its breakpoints not yet in the list. CollectStep, CollectConcat, CollectNoDuplicates and CollectContents state it. |
| MediaQueries.RelativeDirectory | PatternLab.Core/Providers/PatternProvider.cs:871-876 | A file's directory with the root removed, or empty when the file has no directory. ExcludedBelowRoot states it for files below the root. |
| MediaQueries.Excluded | PatternLab.Core/Providers/PatternProvider.cs:878-879 | A file is skipped when its relative directory starts with an ignored directory. ExcludedBelowRoot and SkippedFileContributesNothing state it. |
| MediaQueries.AddNew | PatternLab.Core/Providers/PatternProvider.cs:885-889 | The AddRange over the matches of one file, filtered against the list, appends exactly the new values as the add-if-absent function does. |
| MediaQueries.CollectConcat | PatternLab.Core/Providers/PatternProvider.cs:868-891 | Scanning two runs of files in turn is scanning both. |
| MediaQueries.CollectNoDuplicates | PatternLab.Core/Providers/PatternProvider.cs:885-889 | The collected values never repeat. |
| MediaQueries.CollectStep | PatternLab.Core/Providers/PatternProvider.cs:868-891 | One more file adds its breakpoints unless it is skipped. |
| MediaQueries.CollectContents | PatternLab.Core/Providers/PatternProvider.cs:868-891 | A value is collected exactly when it is a breakpoint of a file that is not skipped. |
| MediaQueries.MediaQueriesDistinct | PatternLab.Core/Providers/PatternProvider.cs:863-902 | The result holds each value once. |
| MediaQueries.MediaQueriesContents | PatternLab.Core/Providers/PatternProvider.cs:863-902 | The result lists exactly the breakpoints of the files that are not skipped. |
| MediaQueries.MediaQueriesBreakpoints | PatternLab.Core/Providers/PatternProvider.cs:886-888 | Every value matches digits{1,5}(.digits{1,20})?(px\|em). |
| MediaQueries.MediaQueriesOrdered | PatternLab.Core/Providers/PatternProvider.cs:894-899 | The result is ordered by numeric value, units ignored, and ties keep discovery order. |
| MediaQueries.SkippedFileContributesNothing | PatternLab.Core/Providers/PatternProvider.cs:878-879 | A skipped file changes nothing, wherever it stands. |
| MediaQueries.ExcludedBelowRoot | PatternLab.Core/Providers/PatternProvider.cs:871-879 | A file below the root is skipped exactly when its directory relative to the root starts with an ignored directory. |
| MediaQueries.SkipDigitsAt | PatternLab.Core/Providers/PatternProvider.cs:886 | The digit run ends where the digits stop. |
| MediaQueries.SkipSpacesAt | PatternLab.Core/Providers/PatternProvider.cs:886 | The space run ends where the spaces stop. |
| Taxonomy.Visible | PatternLab.Core/Providers/PatternProvider.cs:461-464 | Exactly the registry patterns that are not hidden. Their order is stated by VisibleConcat. |
| Taxonomy.OfType | PatternLab.Core/Providers/PatternProvider.cs:487-488 | Exactly the visible patterns whose type matches ignoring case. Their order is stated by OfTypeConcat. |
| Taxonomy.Types | PatternLab.Core/Providers/PatternProvider.cs:469 | The distinct types of the visible patterns: no repeats, each the type of a visible pattern, and every visible type present. |
| Taxonomy.SubTypes | PatternLab.Core/Providers/PatternProvider.cs:492-493 | The distinct non-empty subtypes of the typed patterns: no repeats, each the subtype of a typed pattern, and every non-empty subtype present. |
| Taxonomy.TypeNamesFrom | PatternLab.Core/Providers/PatternProvider.cs:469 | Every name projected from the patterns' types is the type of one of them. |
| Taxonomy.SubTypeNamesFrom | PatternLab.Core/Providers/PatternProvider.cs:492-493 | Every name projected from the patterns' subtypes is the subtype of one of them. |
| Taxonomy.OfSubType | PatternLab.Core/Providers/PatternProvider.cs:515-519 | Exactly the visible patterns whose type and subtype both match ignoring case. Their order is stated by OfSubTypeConcat. |
| Taxonomy.VisibleConcat | PatternLab.Core/Providers/PatternProvider.cs:461-464 | Selecting the visible patterns of two runs selects from each run in turn, and a single pattern is kept exactly when it is not hidden. |
| Taxonomy.OfTypeConcat | PatternLab.Core/Providers/PatternProvider.cs:487-488 | Selecting a type's patterns from two runs selects from each run in turn, and a single pattern is kept exactly when its type matches ignoring case. |
| Taxonomy.OfSubTypeConcat | PatternLab.Core/Providers/PatternProvider.cs:515-519 | Selecting a subtype's patterns from two runs selects from each run in turn, and a single pattern is kept exactly when its type and subtype both match ignoring case. |
| Taxonomy.Entry | PatternLab.Core/Providers/PatternProvider.cs:524-531 | The entry of a pattern is its page, its state, its partial and its display name. It fails exactly when patternStates is missing. |
| Taxonomy.Entries | PatternLab.Core/Providers/PatternProvider.cs:521-532 | One entry per pattern, in order. It fails exactly when there is a pattern and patternStates is missing. |
| Taxonomy.SubTypeNavOf | PatternLab.Core/Providers/PatternProvider.cs:499-546 | A subtype's list is its patterns' entries followed by exactly one View All entry at type-subType/index.html. |
| Taxonomy.SubTypeNavs | PatternLab.Core/Providers/PatternProvider.cs:497-554 | One navigation per subtype. It fails only for a missing patternStates. |
| Taxonomy.SubTypeNavsContents | PatternLab.Core/Providers/PatternProvider.cs:497-554 | The i-th navigation is that of the i-th subtype. |
| Taxonomy.SubTypePathsKeys | PatternLab.Core/Providers/PatternProvider.cs:548-552 | The subtype paths are keyed by exactly the stripped subtype names. |
| Taxonomy.AddLinksContents | PatternLab.Core/Providers/PatternProvider.cs:560-566 | Links are only added. Every typed partial gets one, and a new link leads to a pattern with that partial. |
| Taxonomy.AddLinksKeeps | PatternLab.Core/Providers/PatternProvider.cs:560-566 | A link already in the table stays, with the same page. |
| Taxonomy.AddLinksCovers | PatternLab.Core/Providers/PatternProvider.cs:560-566 | After the loop every typed pattern's partial is a key of the table. |
| Taxonomy.AddLinksFrom | PatternLab.Core/Providers/PatternProvider.cs:560-566 | Every key the loop adds links to the page of a typed pattern with that partial. |
| Taxonomy.SubTypeNavsStep | PatternLab.Core/Providers/PatternProvider.cs:499-553 | One more subtype appends its navigation and its path. |
| Taxonomy.SubTypeNavsFailure | PatternLab.Core/Providers/PatternProvider.cs:499-553 | A failure part-way fails the whole loop. |
| Taxonomy.TypedStep | PatternLab.Core/Providers/PatternProvider.cs:556-572 | One more pattern adds its link and its path when their keys are new. |
| Taxonomy.PatternEntries | PatternLab.Core/Providers/PatternProvider.cs:521-532 | The entry loop gives the entries function. |
| Taxonomy.AppendEntry | PatternLab.Core/Providers/PatternProvider.cs:524-531 | One pass of an entry loop gives the entries of the patterns up to and including that one. |
| Taxonomy.PatternEntry | PatternLab.Core/Providers/PatternProvider.cs:524-531 | The entry built for one pattern is the entry function: missing patternStates fails, otherwise the page, GetState's state, the partial and the display name. |
| Taxonomy.SubTypeDetail | PatternLab.Core/Providers/PatternProvider.cs:499-546 | One pass of the subtype loop gives that subtype's navigation. |
| Taxonomy.SubTypeDetails | PatternLab.Core/Providers/PatternProvider.cs:497-554 | The subtype loop gives the navigations and the subtype paths. |
| Taxonomy.TypedDetails | PatternLab.Core/Providers/PatternProvider.cs:556-586 | The typed-pattern loop gives the links, the pattern paths and, without subtypes, the entries. |
| Taxonomy.TypeStepExtends | PatternLab.Core/Providers/PatternProvider.cs:470-610 | One type fails with its navigation or extends the tables with it. |
| Taxonomy.BuildFromFailure | PatternLab.Core/Providers/PatternProvider.cs:470-610 | A failure part-way is the failure of the whole taxonomy. |
| Taxonomy.ExtendTables | PatternLab.Core/Providers/PatternProvider.cs:602-609 | The three Add calls and the append give the table extension. |
| Taxonomy.AddType | PatternLab.Core/Providers/PatternProvider.cs:470-610 | One pass of the type loop gives one type step. |
| Taxonomy.BuildTaxonomy | PatternLab.Core/Providers/PatternProvider.cs:455-611 | The type loop gives the taxonomy function. |
| Taxonomy.ExtendBuild | PatternLab.Core/Providers/PatternProvider.cs:470-610 | One pass of the type loop turns the taxonomy of the types before it into the taxonomy of one more type. |
| Taxonomy.TypeNames | PatternLab.Core/Providers/PatternProvider.cs:473 | The stripped name of each type, in order. |
| Taxonomy.TypeNavShape | PatternLab.Core/Providers/PatternProvider.cs:470-600 | A type's navigation has its stripped and display names and one navigation per subtype. Its own items are its patterns' entries without subtypes, and a single View All at type/index.html with partial viewall-type-all with them. |
| Taxonomy.SubTypePathsEmpty | PatternLab.Core/Providers/PatternProvider.cs:548-605 | The subtype paths are empty exactly when there are no subtypes, and hold "all" exactly when a subtype strips to it. |
| Taxonomy.TypeStepOutcome | PatternLab.Core/Providers/PatternProvider.cs:602-608 | A type fails on a stripped name already present, or on a subtype stripping to "all", or on a missing patternStates. |
| Taxonomy.TypeStepTables | PatternLab.Core/Providers/PatternProvider.cs:602-608 | On success the type's keys were free and the tables grow by its entries. |
| Taxonomy.TypeStepKeys | PatternLab.Core/Providers/PatternProvider.cs:602 | A successful type adds its stripped name, which was absent, to the keys of the pattern-path table and adds no other key. |
| Taxonomy.TypeStepShape | PatternLab.Core/Providers/PatternProvider.cs:609 | On success the type's navigation is appended. |
| Taxonomy.BuildFromStep | PatternLab.Core/Providers/PatternProvider.cs:470-610 | The taxonomy of the types is that of all but the last, extended by the last. |
| Taxonomy.BuildFromShape | PatternLab.Core/Providers/PatternProvider.cs:466-611 | One navigation per type, in order. |
| Taxonomy.BuildFromNames | PatternLab.Core/Providers/PatternProvider.cs:602 | patternPaths is keyed by every type name, each once. |
| Taxonomy.BuildFromViewAllNamed | PatternLab.Core/Providers/PatternProvider.cs:602-608 | Every viewAllPaths key is a patternPaths key. |
| Taxonomy.BuildFromViewAllKey | PatternLab.Core/Providers/PatternProvider.cs:603-608 | A type name is a viewAllPaths key exactly when the type has subtypes. |
| Taxonomy.BuildFromPaths | PatternLab.Core/Providers/PatternProvider.cs:568-608 | Each type name leads to its typed paths and, with subtypes, to its subtype paths plus "all" to the type. |
| Taxonomy.AllFreeSnoc | PatternLab.Core/Providers/PatternProvider.cs:605 | No subtype strips to "all" for the types exactly when it holds for all but the last and for the last. |
| Taxonomy.TypeNamesSnoc | PatternLab.Core/Providers/PatternProvider.cs:602 | The names of the types are those of all but the last followed by the last one's. |
| Taxonomy.BuildFromOutcome | PatternLab.Core/Providers/PatternProvider.cs:602-608 | With patternStates, the taxonomy is built exactly when no two types share a stripped name and no subtype strips to "all". Otherwise it fails on the duplicate key. |
| Taxonomy.TypeNavNeedsStates | PatternLab.Core/Providers/PatternProvider.cs:528 | Without patternStates a type that has a pattern fails for lack of it. |
| Taxonomy.SubTypesNeedStates | PatternLab.Core/Providers/PatternProvider.cs:497-528 | Without patternStates, the subtype navigation of a type with subtypes fails with the missing setting. |
| Taxonomy.SubTypeHasPattern | PatternLab.Core/Providers/PatternProvider.cs:487-519 | Every subtype collected from a type's patterns selects at least one visible pattern. |
| Taxonomy.BuildNeedsStates | PatternLab.Core/Providers/PatternProvider.cs:466-611 | Without patternStates a registry with a visible pattern has no taxonomy. |
| Taxonomy.BuildOutcome | PatternLab.Core/Providers/PatternProvider.cs:455-611 | With no visible pattern the taxonomy is empty. Without patternStates it fails. Otherwise it succeeds exactly when no two types share a stripped name and no subtype strips to "all", and fails on the duplicate key. |
| Taxonomy.BuildFromLinks | PatternLab.Core/Providers/PatternProvider.cs:560-566 | Every link leads to the page of a visible pattern with that partial. |
| Taxonomy.BuildFromLinked | PatternLab.Core/Providers/PatternProvider.cs:560-566 | Every pattern of every built type has its partial in the links. |
| Taxonomy.BuildLinks | PatternLab.Core/Providers/PatternProvider.cs:555-566 | The links are exactly the partials of the visible patterns, each leading to the page of one of them. |
| Taxonomy.Build | PatternLab.Core/Providers/PatternProvider.cs:455-611 | The taxonomy of the visible patterns over their distinct types, in order. Its outcome is stated by BuildOutcome and its links by BuildLinks. |
| Taxonomy.BuildFrom | PatternLab.Core/Providers/PatternProvider.cs:470-610 | The types taken in order, each extending the tables of the types before it, stopping at the first failure. ExtendBuild and BuildOutcome state it. |
| Taxonomy.TypeStep | PatternLab.Core/Providers/PatternProvider.cs:472-609 | One type: its navigation, then the tables extended with its links and paths. TypeStepOutcome, TypeStepTables, TypeStepKeys and TypeStepShape state it. |
| Taxonomy.Extend | PatternLab.Core/Providers/PatternProvider.cs:602-609 | Adds the type's pattern paths, and its subtype paths with "all" when it has subtypes, failing on a key already present as Dictionary.Add does. ExtendTables and TypeStepOutcome state it. |
| Taxonomy.TypeNavOf | PatternLab.Core/Providers/PatternProvider.cs:472-600 | A type's navigation: its stripped and display names, one navigation per subtype and its own items. TypeNavShape states it. |
| Taxonomy.TypeItems | PatternLab.Core/Providers/PatternProvider.cs:575-598 | A type's own items: its pattern entries when it has no subtypes, else a single View All. TypeNavShape states it. |
| Taxonomy.SubTypePaths | PatternLab.Core/Providers/PatternProvider.cs:548-552 | The subtype-path table with the first occurrence of each stripped subtype name kept. SubTypePathsKeys and SubTypePathsEmpty state it. |
| Taxonomy.TypedPaths | PatternLab.Core/Providers/PatternProvider.cs:568-572 | A type's pattern-path table, keyed by stripped pattern name, with the first occurrence kept. TypedStep states it. |
| Taxonomy.AddLinks | PatternLab.Core/Providers/PatternProvider.cs:560-566 | The link table extended with each typed partial not yet in it. AddLinksContents, AddLinksKeeps, AddLinksCovers and AddLinksFrom state it. |
| Taxonomy.TypeViewAll | PatternLab.Core/Providers/PatternProvider.cs:588-598 | The View All entry of a type with subtypes, at type/index.html with partial viewall-type-all. TypeNavShape states it. |
| Taxonomy.SubTypeViewAll | PatternLab.Core/Providers/PatternProvider.cs:534-543 | The View All entry closing a subtype's list, at type-subType/index.html. SubTypeNavOf states it. |
| Taxonomy.CycleResolves | PatternLab.Core/Providers/PatternProvider.cs:936-938 | In the example registry the two hidden patterns' lineage references resolve to each other. |
| Taxonomy.CycleRanks | PatternLab.Core/Providers/PatternProvider.cs:937-947 | No rank lets GetState recurse from one hidden pattern of the cycle to the other in both directions. |
| Taxonomy.HiddenCycleExample | PatternLab.Core/Providers/PatternProvider.cs:461-464 | A registry whose only cycle is between hidden patterns meets the taxonomy's requirement, which looks at visible patterns only, although no rank makes the whole registry acyclic. |
| Provider.PassedSettings | PatternLab.Core/Providers/PatternProvider.cs:640-648 | Data() passes on exactly the eight named settings, each as Setting reads it. |
| Provider.Names | PatternLab.Core/Providers/PatternProvider.cs:733 | The full name of each file found, in order. |
| Provider.SiteDataOutcome | PatternLab.Core/Providers/PatternProvider.cs:411-657 | Data() succeeds exactly when the hidden controls, the taxonomy and "id" do, and fails first on a missing ishControlsHide. On success its collection is the merge of the JSON files and then the YAML files, and it carries the display-cased engine name, the hidden controls, the taxonomy's tables, the settings and the host address, with media queries that are distinct and sorted. |
| Provider.Provided | PatternLab.Core/Providers/PatternProvider.cs:636-654 | The keys Data() writes itself are exactly the eight provider keys, each holding its computed value: engine name, address, hidden controls, links, both path tables, media queries and the navigation. |
| Provider.Flattened | PatternLab.Core/Providers/PatternProvider.cs:631-654 | The dictionary Data() returns has the keys of the data files, the settings and the provider keys. A provider key or a setting overwrites a data file's value under the same key, and a provider key holds the provider's value. |
| Provider.AssembleData | PatternLab.Core/Providers/PatternProvider.cs:613-654 | The media-query and data-file steps of Data() give the assembled collection. |
| Provider.EngineDisplayName | PatternLab.Core/Providers/PatternProvider.cs:639 | The display-cased engine setting, or none when it is missing. SiteDataOutcome states that Data() carries it. |
| Provider.Assemble | PatternLab.Core/Providers/PatternProvider.cs:612-654 | The collection Data() assembles from its parts. AssembleData and SiteDataOutcome state it. |
| Provider.SiteDataOf | PatternLab.Core/Providers/PatternProvider.cs:409-657 | The value of Data(), or its first failure. SiteDataOutcome states it. |
| Provider.TaxonomyOf | PatternLab.Core/Providers/PatternProvider.cs:455-611 | The taxonomy of the registry, or the registry's failure. SiteDataOutcome and the Taxonomy accessor state it. |
| Provider.RegistryOf | PatternLab.Core/Providers/PatternProvider.cs:717-764 | The registry Patterns() builds with the selected engine, or the engine's failure. The Patterns accessor states it. |
| Provider.EngineOf | PatternLab.Core/Providers/PatternProvider.cs:700-711 | The engine PatternEngine() selects from the registered engines and the patternEngine setting. SelectEngine and the PatternEngine accessor state it. |
| Provider.RegistryWith | PatternLab.Core/Providers/PatternProvider.cs:717-764 | The registry built from the meta and pattern folders scanned with the engine's extension. The Patterns accessor states it. |
| Provider.DataFilesOf | PatternLab.Core/Providers/PatternProvider.cs:623-633 | The JSON files, then the YAML files, of the data folder. SiteDataOutcome states its use. |
| Provider.Finished | PatternLab.Core/Providers/PatternProvider.cs:614-657 | The ignored directories, then the assembled collection, or the ignored list's failure. SiteDataOutcome and Finish state it. |
| Provider.PatternProvider.constructor | PatternLab.Core/Providers/PatternProvider.cs:24-30 | A new provider caches nothing. It needs only an application root: a registry with a cyclic lineage is accepted, and only Taxonomy() and Data() ask for the lineage reachable from visible patterns to be acyclic. |
| Provider.PatternProvider.Clear | PatternLab.Core/Providers/PatternProvider.cs:354-363 | Every cache field is emptied, and the provider stays consistent. |
| Provider.PatternProvider.ClearedValid | PatternLab.Core/Providers/PatternProvider.cs:354-363 | A provider with an application root and every cache empty is consistent. |
| Provider.PatternProvider.Config | PatternLab.Core/Providers/PatternProvider.cs:369-404 | Gives the settings and remembers them. |
| Provider.PatternProvider.Setting | PatternLab.Core/Providers/PatternProvider.cs:771-782 | Gives the setting function's value on the remembered settings. |
| Provider.PatternProvider.CacheBuster | PatternLab.Core/Providers/PatternProvider.cs:325-349 | Gives the remembered token when there is one, otherwise the computed token, and remembers it. |
| Provider.PatternProvider.IgnoredDirectories | PatternLab.Core/Providers/PatternProvider.cs:664-676 | Gives the remembered list or the computed one, and remembers it. |
| Provider.PatternProvider.IgnoredExtensions | PatternLab.Core/Providers/PatternProvider.cs:682-694 | Gives the remembered list or the computed one, and remembers it. |
| Provider.PatternProvider.PatternEngine | PatternLab.Core/Providers/PatternProvider.cs:700-711 | Gives the remembered engine or the selected one, and remembers it. |
| Provider.PatternProvider.Patterns | PatternLab.Core/Providers/PatternProvider.cs:717-764 | Gives the remembered registry or the built one, and remembers it. Later calls give the same list until Clear. |
| Provider.PatternProvider.Taxonomy | PatternLab.Core/Providers/PatternProvider.cs:455-611 | Gives the taxonomy of the registry, keeping whatever was cached. |
| Provider.PatternProvider.Data | PatternLab.Core/Providers/PatternProvider.cs:410-657 | Gives the remembered collection or the computed one (or its failure), remembers a success, and keeps the other caches. |
| Provider.PatternProvider.Collect | PatternLab.Core/Providers/PatternProvider.cs:415-657 | Computes the collection afresh: hidden controls, then taxonomy, then the rest. |
| Provider.PatternProvider.Finish | PatternLab.Core/Providers/PatternProvider.cs:613-657 | The ignored directories, then the assembled collection. |

## Left out

- Config() reading: the INI parser, the file path and the default config written from an embedded resource when the file is missing (369-404) are not modelled. The parsed global section is an input map, and `Provider.PatternProvider.Config` only remembers it.
- File system access: `GetFiles` scans, `File.ReadAllText`, `Directory.Exists` and `Builder.CreateDirectory` (450, 621-626, 724, 738) are left out. Listings and contents are inputs of `Provider.Environment`, the snapshot check is a boolean, and creating missing folders has no counterpart.
- The DNS lookup (415-419) is left out: the host address is an input.
- The JSON and YAML deserialisers (826-838) are left out: they are input functions returning `None` where the source catches an exception or gets null.
- `JavaScriptSerializer.Serialize` of the two path tables (651-652) is left out: the model keeps the tables as maps.
- Dictionary enumeration order is not modelled: the link and path tables are maps.
- The clock is left out: `Math.Floor` on the seconds since a local-time epoch (344) is an integer `now` argument.
- `double.Parse` in the media-query sort (897) is modelled as the exact decimal value: double rounding is not modelled. Neither is the exception a value past the range of a double would raise; none can occur, with at most 5 integer digits.
- Culture-sensitive comparison is left out. Case-insensitive equality folds ASCII letters only, `Trim` and the trim of `Boolean.TryParse` know the ASCII white-space characters only (the latter also NUL), and the `PathDash` sort is ordinal, not culture-aware.
- The `Pattern` class, `IPatternEngine` and the helpers `StripOrdinals`, `ToDisplayCase` and `StripPatternParameters` are not part of this model. Patterns are records, their constructors and the helpers are input functions, and an engine is its name and extension.
- The ambient provider (`PatternLabController.Provider ?? new PatternProvider()`, 795 and 912) and `HttpContext.Current` (257) are left out: the registry, the settings and the engines are passed explicitly.
- Concurrency is left out: the model is single-threaded, like the source's intended use.
- Provider.EngineDisplayName: `Setting(KeywordPatternEngine).ToDisplayCase()` (639) on a missing setting depends on the helper's handling of null. The model gives `None` instead of a failure.
- States.GetState: on a cyclic lineage reachable from the pattern the source recurses without end. `States.GetState` requires that lineage to be acyclic (`States.RankedFrom`) instead of modelling the non-termination; the taxonomy and `Data()` require it of the visible patterns only.
- States.AdoptAllMostUrgent, States.GetStateMostUrgent: unlisted states are outside these lemmas. The source adopts an unlisted state over any listed one, because `IndexOf` gives -1 (924-934), and the result then depends on the lineage order.
- Taxonomy.BuildLinks: the contract says every link leads to some visible pattern with that partial. It does not say that it is the first one in type order, although the code keeps the first (560).
- Text.NonEmpty: its own contract states which entries are kept; their order and repeats are stated by `Text.NonEmptyConcat` and `Text.NonEmptySingleton`.
- Collections.AppendNew: its own contract states which values are added; their first-seen order is stated by `Collections.AppendNewOrder`.
- Collections.Filter: its own contract states which elements are kept; their order and repeats are stated by `Collections.FilterConcat` and `Collections.FilterSingleton`.
- Patterns.NestedViews: its own contract states which files are kept; their order is stated by `Patterns.NestedViewsConcat` and `Patterns.NestedViewsSingleton`.
- Patterns.Parents: its own contract states which patterns are kept; their order is stated by `Patterns.ParentsConcat` and `Patterns.ParentsSingleton`.
- Taxonomy.Visible: its own contract states which patterns are kept; their order is stated by `Taxonomy.VisibleConcat`.
- Taxonomy.OfType: its own contract states which patterns are kept; their order is stated by `Taxonomy.OfTypeConcat`.
- Taxonomy.OfSubType: its own contract states which patterns are kept; their order is stated by `Taxonomy.OfSubTypeConcat`.
- Provider.Flattened: key comparison in the `DynamicDictionary` is taken as exact, and the two path tables appear as maps rather than as their serialised text.
- Route, view and folder-name constants (33-318) are left out, except those the modelled operations use.
