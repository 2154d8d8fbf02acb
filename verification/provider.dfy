/**
 * The pattern provider: a per-session object that reads the settings once and
 * remembers, in seven cache fields, the cache-buster token, the settings, the
 * data collection, the ignored directories and extensions, the pattern engine
 * and the pattern registry. Each accessor returns its cached value when there
 * is one and otherwise computes and stores it; Clear() forgets them all.
 *
 * What the provider reads from outside (the parsed settings file, the
 * application root, directory listings, file contents, the registered engines,
 * the host address, the snapshot folder check) is fixed in an Environment.
 */
module Provider {
  import opened Wrappers
  import opened Text
  import opened Settings
  import opened Sorting
  import opened Collections
  import P = Patterns
  import opened States
  import opened DataMerge
  import opened MediaQueries
  import opened IshControls
  import T = Taxonomy

  const FolderNameData := "_data"
  const KeywordPatternEngine := "patternEngine"

  /** What the provider finds outside itself. */
  datatype Environment = Environment(
    configFile: Config,                                 // the parsed config.ini
    appPath: string,                                    // the application root, ending in a separator
    engines: seq<Option<Engine>>,                       // the supported engines, null where one is missing
    scan: (string, string) -> seq<P.ViewFile>,          // the files under a folder with an extension
    factory: Engine -> P.Factory,                       // the Pattern constructors for an engine
    stylesheets: string -> seq<CssFile>,                // the .css files under a folder, with their text
    dataFiles: (string, string) -> seq<DataFile>,       // the data files under a folder with an extension
    json: string -> Option<Data>,                       // the JSON deserialiser; None on error or null
    yaml: string -> Option<Data>,                       // the YAML deserialiser; None on error or null
    ipAddress: string,                                  // the last address of the host
    snapshotsExist: bool,                               // whether the snapshots folder exists
    naming: T.Naming)                                   // StripOrdinals and ToDisplayCase

  /** The data collection Data() returns: the merged data files with the
      settings, tables and navigation the viewer needs on top. */
  datatype SiteData = SiteData(
    collection: Data,
    patternEngineName: Option<string>,
    settings: map<string, Option<string>>,
    ipAddress: string,
    ishControlsHide: seq<string>,
    link: T.Paths,
    patternPaths: map<string, T.Paths>,
    viewAllPaths: map<string, T.Paths>,
    mqs: seq<string>,
    patternTypes: seq<T.TypeNav>)

  /** A value of the single dictionary Data() returns: one read from a data
      file, or one the provider writes over it. */
  datatype Field =
    | FileValue(value: Value)
    | EngineName(name: Option<string>)
    | SettingValue(setting: Option<string>)
    | Address(address: string)
    | Controls(controls: seq<string>)
    | Links(links: T.Paths)
    | PathTable(table: map<string, T.Paths>)
    | Queries(queries: seq<string>)
    | Navigation(types: seq<T.TypeNav>)

  /** The keys the provider writes into the collection, besides the passed settings. */
  const ProviderKeys: set<string> :=
    {"patternEngineName", "ipaddress", "ishControlsHide", "link", "patternpaths", "viewallpaths", "mqs", "patternTypes"}

  /** The values the provider writes under its own keys. */
  function Provided(site: SiteData): (r: map<string, Field>)
    ensures r.Keys == ProviderKeys
    ensures r["patternEngineName"] == EngineName(site.patternEngineName) && r["ipaddress"] == Address(site.ipAddress)
    ensures r["ishControlsHide"] == Controls(site.ishControlsHide) && r["link"] == Links(site.link)
    ensures r["patternpaths"] == PathTable(site.patternPaths) && r["viewallpaths"] == PathTable(site.viewAllPaths)
    ensures r["mqs"] == Queries(site.mqs) && r["patternTypes"] == Navigation(site.patternTypes)
  {
    map[
      "patternEngineName" := EngineName(site.patternEngineName),
      "ipaddress" := Address(site.ipAddress),
      "ishControlsHide" := Controls(site.ishControlsHide),
      "link" := Links(site.link),
      "patternpaths" := PathTable(site.patternPaths),
      "viewallpaths" := PathTable(site.viewAllPaths),
      "mqs" := Queries(site.mqs),
      "patternTypes" := Navigation(site.patternTypes)]
  }

  /**
   * The collection as one dictionary: the data files' keys, with the passed
   * settings and then the provider's own keys written on top of them, so that a
   * data file's "link", "mqs" or setting-named key is replaced by the provider's value.
   */
  function Flattened(site: SiteData): (r: map<string, Field>)
    ensures r.Keys == site.collection.Keys + site.settings.Keys + ProviderKeys
    ensures forall k :: k in site.collection && k !in site.settings && k !in ProviderKeys ==>
      r[k] == FileValue(site.collection[k])
    ensures forall k :: k in site.settings && k !in ProviderKeys ==> r[k] == SettingValue(site.settings[k])
    ensures forall k :: k in ProviderKeys ==> r[k] == Provided(site)[k]
  {
    var fromFiles := map k | k in site.collection :: FileValue(site.collection[k]);
    var settings := map k | k in site.settings :: SettingValue(site.settings[k]);
    fromFiles + settings + Provided(site)
  }

  /** The settings Data() passes on unchanged, by the name they take in the collection. */
  function PassedSettings(config: Config): (r: map<string, Option<string>>)
    ensures r.Keys == {"ishminimum", "ishmaximum", "qrcodegeneratoron", "xiphostname", "autoreloadnav",
                       "autoreloadport", "pagefollownav", "pagefollowport"}
    ensures r["ishminimum"] == Setting(config, "ishMinimum") && r["pagefollownav"] == Setting(config, "pageFollowNav")
  {
    map[
      "ishminimum" := Setting(config, "ishMinimum"),
      "ishmaximum" := Setting(config, "ishMaximum"),
      "qrcodegeneratoron" := Setting(config, "qrCodeGeneratorOn"),
      "xiphostname" := Setting(config, "xipHostname"),
      "autoreloadnav" := Setting(config, "autoReloadNav"),
      "autoreloadport" := Setting(config, "autoReloadPort"),
      "pagefollownav" := Setting(config, "pageFollowNav"),
      "pagefollowport" := Setting(config, "pageFollowPort")]
  }

  /** The engine PatternEngine() settles on. */
  function EngineOf(env: Environment): Result<Engine, Error> {
    SelectEngine(env.engines, Setting(env.configFile, KeywordPatternEngine))
  }

  /** The folder the provider reads source files from. */
  function SourceFolder(env: Environment): string {
    FolderPathSource(env.configFile, env.appPath)
  }

  /** The registry Patterns() builds with the given engine. */
  function RegistryWith(env: Environment, engine: Engine): seq<P.Pattern> {
    var source := SourceFolder(env);
    var metaViews := env.scan(source + FolderNameMeta, engine.extension);
    P.Registry(Names(metaViews), env.scan(source + FolderNamePattern, engine.extension),
               source + FolderNamePattern, env.factory(engine))
  }

  /** The full names of the files found. */
  function Names(views: seq<P.ViewFile>): (r: seq<string>)
    ensures |r| == |views| && forall i :: 0 <= i < |views| ==> r[i] == views[i].fullName
  {
    seq(|views|, i requires 0 <= i < |views| => views[i].fullName)
  }

  /** The value of Patterns(): it fails only when no engine is registered. */
  function RegistryOf(env: Environment): Result<seq<P.Pattern>, Error> {
    var engine :- EngineOf(env);
    Success(RegistryWith(env, engine))
  }

  /** A cache field that held a value still holds it. */
  predicate Keeps<X(==)>(before: Option<X>, after: Option<X>) {
    before.Some? ==> after == before
  }

  /** The lineage reachable from each visible pattern of the registry is acyclic, as witnessed by rank. */
  ghost predicate Ranked(env: Environment, rank: P.Pattern -> nat) {
    RegistryOf(env).Success? ==> T.VisibleRanked(RegistryOf(env).value, rank)
  }

  /** The data files in the order they are read: the JSON files, then the YAML files. */
  function DataFilesOf(env: Environment): seq<DataFile> {
    var folder := SourceFolder(env) + FolderNameData;
    env.dataFiles(folder, ExtensionJson) + env.dataFiles(folder, ExtensionYaml)
  }

  /** The display name of the configured engine; a missing setting stays missing. */
  function EngineDisplayName(env: Environment): Option<string> {
    match Setting(env.configFile, KeywordPatternEngine)
    case None => None
    case Some(name) => Some(env.naming.toDisplayCase(name))
  }

  /** The collection Data() assembles from its parts: the data files merged,
      the settings passed on, the hidden controls, the taxonomy's tables and
      navigation, and the media queries of the source stylesheets. */
  function Assemble(env: Environment, hidden: seq<string>, taxonomy: T.Taxonomy, ignored: seq<string>): SiteData
    requires env.appPath != []
  {
    var source := SourceFolder(env);
    var mqs := MediaQueries.MediaQueries(env.stylesheets(source), source, ignored);
    var collection := MergeAll(Parsed(DataFilesOf(env), env.json, env.yaml));
    SiteData(collection, EngineDisplayName(env), PassedSettings(env.configFile), env.ipAddress, hidden,
             taxonomy.links, taxonomy.patternPaths, taxonomy.viewAllPaths, mqs, taxonomy.types)
  }

  /** The taxonomy of the registry's visible patterns. */
  function TaxonomyOf(env: Environment, ghost rank: P.Pattern -> nat): Result<T.Taxonomy, Error>
    requires Ranked(env, rank)
  {
    var registry :- RegistryOf(env);
    T.Build(T.Context(env.configFile, registry, env.naming), rank)
  }

  /** The value of Data(), or the first failure on the way to it. */
  function SiteDataOf(env: Environment, ghost rank: P.Pattern -> nat): Result<SiteData, Error>
    requires env.appPath != [] && Ranked(env, rank)
  {
    var hidden :- HiddenControls(env.configFile, env.snapshotsExist);
    var taxonomy :- TaxonomyOf(env, rank);
    Finished(env, hidden, taxonomy)
  }

  /** The last steps of Data(): the ignored directories, then the collection assembled. */
  function Finished(env: Environment, hidden: seq<string>, taxonomy: T.Taxonomy): Result<SiteData, Error>
    requires env.appPath != []
  {
    var ignored :- IgnoredDirectories(env.configFile, env.appPath);
    Success(Assemble(env, hidden, taxonomy, ignored))
  }

  /**
   * When Data() succeeds and what it holds: it needs the hidden controls, the
   * taxonomy and the "id" setting, and fails first on a missing ishControlsHide;
   * on success the collection carries the hidden controls and the taxonomy's
   * tables as built, the passed settings and the host address, and media
   * queries that are distinct and ordered by magnitude.
   */
  lemma SiteDataOutcome(env: Environment, rank: P.Pattern -> nat)
    requires env.appPath != [] && Ranked(env, rank)
    ensures SiteDataOf(env, rank).Success? <==>
      && HiddenControls(env.configFile, env.snapshotsExist).Success?
      && TaxonomyOf(env, rank).Success?
      && "id" in env.configFile
    ensures "ishControlsHide" !in env.configFile ==>
      SiteDataOf(env, rank) == Failure(MissingSetting("ishControlsHide"))
    ensures SiteDataOf(env, rank).Success? ==>
      var site := SiteDataOf(env, rank).value;
      var taxonomy := TaxonomyOf(env, rank).value;
      && site.collection == MergeAll(Parsed(DataFilesOf(env), env.json, env.yaml))
      && site.patternEngineName == EngineDisplayName(env)
      && site.ishControlsHide == HiddenControls(env.configFile, env.snapshotsExist).value
      && site.link == taxonomy.links && site.patternPaths == taxonomy.patternPaths
      && site.viewAllPaths == taxonomy.viewAllPaths && site.patternTypes == taxonomy.types
      && site.settings == PassedSettings(env.configFile) && site.ipAddress == env.ipAddress
      && NoDuplicates(site.mqs) && Sorted(site.mqs, ByMagnitude)
  {
    HiddenControlsOutcome(env.configFile, env.snapshotsExist);
    var source := SourceFolder(env);
    var r := SiteDataOf(env, rank);
    if r.Success? {
      var ignored := Settings.IgnoredDirectories(env.configFile, env.appPath).value;
      MediaQueriesDistinct(env.stylesheets(source), source, ignored);
      MediaQueriesOrdered(env.stylesheets(source), source, ignored);
    }
  }

  /** The part of Data() that reads the stylesheets and the data files. */
  method AssembleData(env: Environment, hidden: seq<string>, taxonomy: T.Taxonomy, ignored: seq<string>)
    returns (site: SiteData)
    requires env.appPath != []
    ensures site == Assemble(env, hidden, taxonomy, ignored)
  {
    var source := FolderPathSource(env.configFile, env.appPath);
    var mediaQueries := GetMediaQueries(source, ignored, env.stylesheets(source));
    var folder := source + FolderNameData;
    var collection := GetData(env.dataFiles(folder, ExtensionJson) + env.dataFiles(folder, ExtensionYaml),
                              env.json, env.yaml);
    site := SiteData(collection, EngineDisplayName(env), PassedSettings(env.configFile), env.ipAddress,
                     hidden, taxonomy.links, taxonomy.patternPaths, taxonomy.viewAllPaths, mediaQueries, taxonomy.types);
  }

  class PatternProvider {
    const env: Environment
    ghost const rank: P.Pattern -> nat

    var cacheBuster: Option<string>
    var config: Option<Config>
    var data: Option<SiteData>
    var ignoredDirectories: Option<seq<string>>
    var ignoredExtensions: Option<seq<string>>
    var patternEngine: Option<Engine>
    var patterns: Option<seq<P.Pattern>>

    /** The fixed inputs give a root to read from. */
    ghost predicate Setup() {
      env.appPath != []
    }

    // Each cache field holds, when set, the value its accessor computes.

    ghost predicate CacheBusterCached()
      reads this`cacheBuster
    {
      cacheBuster.Some? ==> cacheBuster.value != ""
    }

    ghost predicate ConfigCached()
      reads this`config
    {
      config.Some? ==> config.value == env.configFile
    }

    ghost predicate DataCached()
      reads this`data
    {
      data.Some? ==> Setup() && Ranked(env, rank) && SiteDataOf(env, rank) == Success(data.value)
    }

    ghost predicate IgnoredDirectoriesCached()
      reads this`ignoredDirectories
    {
      ignoredDirectories.Some? ==>
        Settings.IgnoredDirectories(env.configFile, env.appPath) == Success(ignoredDirectories.value)
    }

    ghost predicate IgnoredExtensionsCached()
      reads this`ignoredExtensions
    {
      ignoredExtensions.Some? ==> Settings.IgnoredExtensions(env.configFile) == Success(ignoredExtensions.value)
    }

    ghost predicate PatternEngineCached()
      reads this`patternEngine
    {
      patternEngine.Some? ==> EngineOf(env) == Success(patternEngine.value)
    }

    ghost predicate PatternsCached()
      reads this`patterns
    {
      patterns.Some? ==> RegistryOf(env) == Success(patterns.value)
    }

    /** Every cached value is the one its accessor computes. */
    ghost predicate Valid()
      reads this
    {
      && Setup()
      && CacheBusterCached() && ConfigCached() && DataCached() && IgnoredDirectoriesCached()
      && IgnoredExtensionsCached() && PatternEngineCached() && PatternsCached()
    }

    /** Nothing is cached. */
    ghost predicate Cleared()
      reads this
    {
      && cacheBuster.None? && config.None? && data.None? && ignoredDirectories.None?
      && ignoredExtensions.None? && patternEngine.None? && patterns.None?
    }

    /**
     * A provider with nothing cached. rank matters only to Taxonomy() and Data(),
     * which need it to witness an acyclic lineage; every other accessor works on
     * any registry.
     */
    constructor (env: Environment, ghost rank: P.Pattern -> nat)
      requires env.appPath != []
      ensures this.env == env && this.rank == rank
      ensures Valid() && Cleared()
    {
      this.env := env;
      this.rank := rank;
      cacheBuster := None;
      config := None;
      data := None;
      ignoredDirectories := None;
      ignoredExtensions := None;
      patternEngine := None;
      patterns := None;
    }

    /** Clear: every cache field is emptied. */
    method Clear()
      requires Setup()
      modifies this
      ensures Valid() && Cleared()
    {
      cacheBuster := None;
      config := None;
      data := None;
      ignoredDirectories := None;
      ignoredExtensions := None;
      patterns := None;
      patternEngine := None;
      ClearedValid();
    }

    /** With nothing cached there is nothing to be wrong. */
    lemma ClearedValid()
      requires Setup() && Cleared()
      ensures Valid()
    {
    }

    /** Config: the settings, read once and then kept. */
    method Config() returns (r: Config)
      requires ConfigCached()
      modifies this`config
      ensures ConfigCached() && r == env.configFile && config == Some(r)
    {
      if config.Some? {
        return config.value;
      }
      config := Some(env.configFile);
      r := env.configFile;
    }

    /** Setting: the value of a setting with its quotation marks removed, None when absent. */
    method Setting(name: string) returns (r: Option<string>)
      requires ConfigCached()
      modifies this`config
      ensures ConfigCached() && r == Settings.Setting(env.configFile, name) && config == Some(env.configFile)
    {
      var settings := Config();
      r := Settings.Setting(settings, name);
    }

    /**
     * CacheBuster: the remembered token when there is one; otherwise the floored
     * Unix time `now` when cacheBusterOn is true and noCache is not, "0" when
     * not, which is then remembered.
     */
    method CacheBuster(noCache: Option<bool>, now: int) returns (r: string)
      requires CacheBusterCached() && ConfigCached()
      modifies this`cacheBuster, this`config
      ensures CacheBusterCached() && ConfigCached() && cacheBuster == Some(r) && r != ""
      ensures old(cacheBuster).Some? ==> r == old(cacheBuster).value
      ensures old(cacheBuster).None? ==> r == CacheBusterValue(env.configFile, noCache, now)
    {
      if cacheBuster.Some? && cacheBuster.value != "" {
        return cacheBuster.value;
      }
      var setting := Setting("cacheBusterOn");
      var enabled := ParseBool(setting) == Some(true);
      if noCache == Some(true) {
        enabled := false;
      }
      var timestamp := if enabled then IntToString(now) else "0";
      cacheBuster := Some(timestamp);
      r := timestamp;
    }

    /** IgnoredDirectories: the "id" entries, the meta folder and the public path;
        remembered once computed. */
    method IgnoredDirectories() returns (r: Result<seq<string>, Error>)
      requires IgnoredDirectoriesCached() && ConfigCached()
      modifies this`ignoredDirectories, this`config
      ensures IgnoredDirectoriesCached() && ConfigCached()
      ensures r == Settings.IgnoredDirectories(env.configFile, env.appPath)
      ensures old(ignoredDirectories).Some? ==> r == Success(old(ignoredDirectories).value)
      ensures ignoredDirectories == if r.Success? then Some(r.value) else old(ignoredDirectories)
    {
      if ignoredDirectories.Some? {
        return Success(ignoredDirectories.value);
      }
      var id := Setting("id");
      if id.None? {
        return Failure(MissingSetting("id"));
      }
      var configured := Split(id.value, IdentifierDelimiter);
      var publicDir := Setting("publicDir");
      var folderPathPublic := env.appPath + (if IsSet(publicDir) then FolderNamePublic else "") + [DirectorySeparator];
      var list := configured + [FolderNameMeta, folderPathPublic];
      ignoredDirectories := Some(list);
      r := Success(list);
    }

    /** IgnoredExtensions: the "ie" entries and the empty extension; remembered once computed. */
    method IgnoredExtensions() returns (r: Result<seq<string>, Error>)
      requires IgnoredExtensionsCached() && ConfigCached()
      modifies this`ignoredExtensions, this`config
      ensures IgnoredExtensionsCached() && ConfigCached()
      ensures r == Settings.IgnoredExtensions(env.configFile)
      ensures old(ignoredExtensions).Some? ==> r == Success(old(ignoredExtensions).value)
      ensures ignoredExtensions == if r.Success? then Some(r.value) else old(ignoredExtensions)
    {
      if ignoredExtensions.Some? {
        return Success(ignoredExtensions.value);
      }
      var ie := Setting("ie");
      if ie.None? {
        return Failure(MissingSetting("ie"));
      }
      var list := Split(ie.value, IdentifierDelimiter) + [""];
      ignoredExtensions := Some(list);
      r := Success(list);
    }

    /** PatternEngine: the first registered engine named by the setting, else the
        last registered one; remembered once found. */
    method PatternEngine() returns (r: Result<Engine, Error>)
      requires PatternEngineCached() && ConfigCached()
      modifies this`patternEngine, this`config
      ensures PatternEngineCached() && ConfigCached() && r == EngineOf(env)
      ensures old(patternEngine).Some? ==> r == Success(old(patternEngine).value)
      ensures patternEngine == if r.Success? then Some(r.value) else old(patternEngine)
    {
      if patternEngine.Some? {
        return Success(patternEngine.value);
      }
      var configured := Setting(KeywordPatternEngine);
      r := SelectEngine(env.engines, configured);
      if r.Success? {
        patternEngine := Some(r.value);
      }
    }

    /** Patterns: the registry built with the pattern engine; remembered once built. */
    method Patterns() returns (r: Result<seq<P.Pattern>, Error>)
      requires PatternsCached() && PatternEngineCached() && ConfigCached()
      modifies this`patterns, this`patternEngine, this`config
      ensures PatternsCached() && PatternEngineCached() && ConfigCached() && r == RegistryOf(env)
      ensures old(patterns).Some? ==> r == Success(old(patterns).value)
      ensures patterns == if r.Success? then Some(r.value) else old(patterns)
      ensures Keeps(old(patternEngine), patternEngine)
    {
      if patterns.Some? {
        return Success(patterns.value);
      }
      var engine := PatternEngine();
      if engine.Failure? {
        return Failure(engine.error);
      }
      var sourceDir := Setting("sourceDir");
      var source := if IsSet(sourceDir) then env.appPath + sourceDir.value + [DirectorySeparator] else env.appPath;
      var metaViews := env.scan(source + FolderNameMeta, engine.value.extension);
      var folder := source + FolderNamePattern;
      var list := P.BuildPatterns(Names(metaViews), env.scan(folder, engine.value.extension), folder,
                                  env.factory(engine.value));
      patterns := Some(list);
      r := Success(list);
    }

    /** The taxonomy part of Data(): the registry's visible patterns, by type and subtype. */
    method Taxonomy() returns (r: Result<T.Taxonomy, Error>)
      requires Setup() && Ranked(env, rank) && PatternsCached() && PatternEngineCached() && ConfigCached()
      modifies this`patterns, this`patternEngine, this`config
      ensures PatternsCached() && PatternEngineCached() && ConfigCached() && r == TaxonomyOf(env, rank)
      ensures Keeps(old(patterns), patterns) && Keeps(old(patternEngine), patternEngine)
    {
      var registry := Patterns();
      if registry.Failure? {
        return Failure(registry.error);
      }
      var ctx := T.Context(env.configFile, registry.value, env.naming);
      r := T.BuildTaxonomy(ctx, rank);
    }

    /**
     * Data: the remembered collection when there is one; otherwise the hidden
     * ish controls, the taxonomy of the visible patterns, the media queries of
     * the source stylesheets and the merged data files, remembered once all
     * of them succeed.
     */
    method Data() returns (r: Result<SiteData, Error>)
      requires Setup() && Ranked(env, rank) && DataCached()
      requires PatternsCached() && PatternEngineCached() && ConfigCached() && IgnoredDirectoriesCached()
      modifies this`data, this`patterns, this`patternEngine, this`config, this`ignoredDirectories
      ensures DataCached() && r == SiteDataOf(env, rank)
      ensures PatternsCached() && PatternEngineCached() && ConfigCached() && IgnoredDirectoriesCached()
      ensures old(data).Some? ==> r == Success(old(data).value)
      ensures data == if r.Success? then Some(r.value) else old(data)
      ensures Keeps(old(patterns), patterns) && Keeps(old(patternEngine), patternEngine)
      ensures Keeps(old(ignoredDirectories), ignoredDirectories)
    {
      if data.Some? {
        return Success(data.value);
      }
      r := Collect();
      if r.Success? {
        data := Some(r.value);
      }
    }

    /** Data() past its cache check: the collection, computed afresh. */
    method Collect() returns (r: Result<SiteData, Error>)
      requires Setup() && Ranked(env, rank) && PatternsCached() && PatternEngineCached() && ConfigCached() && IgnoredDirectoriesCached()
      modifies this`patterns, this`patternEngine, this`config, this`ignoredDirectories
      ensures PatternsCached() && PatternEngineCached() && ConfigCached() && IgnoredDirectoriesCached()
      ensures r == SiteDataOf(env, rank)
      ensures Keeps(old(patterns), patterns) && Keeps(old(patternEngine), patternEngine)
      ensures Keeps(old(ignoredDirectories), ignoredDirectories)
    {
      var hidden := HideIshControls(env.configFile, env.snapshotsExist);
      if hidden.Failure? {
        return Failure(hidden.error);
      }
      var taxonomy := Taxonomy();
      if taxonomy.Failure? {
        return Failure(taxonomy.error);
      }
      r := Finish(hidden.value, taxonomy.value);
    }

    /** The last steps of Data(): the ignored directories, the media queries and the data files. */
    method Finish(hidden: seq<string>, taxonomy: T.Taxonomy) returns (r: Result<SiteData, Error>)
      requires Setup() && IgnoredDirectoriesCached() && ConfigCached()
      modifies this`ignoredDirectories, this`config
      ensures IgnoredDirectoriesCached() && ConfigCached() && r == Finished(env, hidden, taxonomy)
      ensures Keeps(old(ignoredDirectories), ignoredDirectories)
    {
      var ignored := IgnoredDirectories();
      if ignored.Failure? {
        return Failure(ignored.error);
      }
      var site := AssembleData(env, hidden, taxonomy, ignored.value);
      r := Success(site);
    }
  }
}
