/**
 * The provider's view of its configuration: the Setting accessor, the folder
 * paths built from it, the cache-buster value, the ignored directory and
 * extension lists and the choice of pattern engine.
 */
module Settings {
  import opened Wrappers
  import opened Text
  import opened Collections

  /** The global section of config.ini: setting name to raw value. */
  type Config = map<string, string>

  /** The ways the provider's operations fail (exceptions in the source). */
  datatype Error =
    | MissingSetting(name: string)   // a null setting dereferenced (NullReferenceException)
    | NoPatternEngine                // Last(e => e != null) on a list without engines
    | DuplicateKey(key: string)      // Dictionary.Add or ToDictionary given a key twice

  const FolderNameMeta := "_meta"
  const FolderNamePublic := "public"
  const FolderNamePattern := "_patterns"
  const DirectorySeparator := '\\'
  const IdentifierDelimiter := ','
  const QuotationMark := '"'

  /**
   * Setting(name): the raw value, or None when the key is absent; a non-empty
   * value has every quotation mark removed.
   */
  function Setting(config: Config, name: string): (r: Option<string>)
    ensures r.None? <==> name !in config
    ensures r.Some? ==> QuotationMark !in r.value
    ensures r.Some? && QuotationMark !in config[name] ==> r.value == config[name]
    ensures r.Some? ==> forall c :: c != QuotationMark ==> multiset(r.value)[c] == multiset(config[name])[c]
  {
    if name !in config then None
    else
      var value := config[name];
      RemoveAllChar(value, QuotationMark);
      if value != "" then Some(RemoveAll(value, [QuotationMark])) else Some(value)
  }

  /** Reading a setting twice changes nothing: its value has no quotation marks left. */
  lemma SettingIdempotent(config: Config, name: string)
    requires name in config
    ensures Setting(config[name := Setting(config, name).value], name) == Setting(config, name)
  {
  }

  predicate IsSet(value: Option<string>) {
    value.Some? && value.value != ""
  }

  /**
   * FolderPathPublic: the application root, then "public" when publicDir is
   * set (its value itself is not used) or nothing when it is not, then a separator.
   */
  function FolderPathPublic(config: Config, appPath: string): (r: string)
    ensures |r| > |appPath| && r[..|appPath|] == appPath && r[|r| - 1] == DirectorySeparator
  {
    var directory := Setting(config, "publicDir");
    var name := if IsSet(directory) then FolderNamePublic else "";
    appPath + name + [DirectorySeparator]
  }

  /** The configured publicDir never reaches the path: only whether it is set matters. */
  lemma FolderPathPublicIgnoresValue(c1: Config, c2: Config, appPath: string)
    requires IsSet(Setting(c1, "publicDir")) == IsSet(Setting(c2, "publicDir"))
    ensures FolderPathPublic(c1, appPath) == FolderPathPublic(c2, appPath)
    ensures IsSet(Setting(c1, "publicDir")) ==> FolderPathPublic(c1, appPath) == appPath + "public" + [DirectorySeparator]
    ensures !IsSet(Setting(c1, "publicDir")) ==> FolderPathPublic(c1, appPath) == appPath + [DirectorySeparator]
  {
  }

  /** FolderPathSource: the application root, followed by sourceDir and a separator when it is set. */
  function FolderPathSource(config: Config, appPath: string): (r: string)
    ensures appPath <= r
    ensures IsSet(Setting(config, "sourceDir")) <==> r != appPath
    ensures r != appPath ==> r == appPath + Setting(config, "sourceDir").value + [DirectorySeparator]
  {
    var directory := Setting(config, "sourceDir");
    if IsSet(directory) then appPath + directory.value + [DirectorySeparator] else appPath
  }

  /** Boolean.TryParse: "true" or "false" in any case, with white space and NUL
      characters around it ignored. */
  function ParseBool(s: Option<string>): (r: Option<bool>)
    ensures s.None? ==> r.None?
    ensures r == Some(true) <==> s.Some? && EqualsIgnoreCase(TrimWhiteSpaceAndNull(s.value), "true")
    ensures r == Some(false) <==> s.Some? && EqualsIgnoreCase(TrimWhiteSpaceAndNull(s.value), "false")
  {
    if s.None? then None
    else if EqualsIgnoreCase(TrimWhiteSpaceAndNull(s.value), "true") then Some(true)
    else if EqualsIgnoreCase(TrimWhiteSpaceAndNull(s.value), "false") then Some(false)
    else None
  }

  /** Boolean.ToString() read back with Boolean.TryParse. */
  lemma ParseBoolRoundTrip(b: bool)
    ensures ParseBool(Some(if b then "True" else "False")) == Some(b)
  {
    ParseBoolPadded([], [], b);
    assert [] + (if b then "True" else "False") + [] == (if b then "True" else "False");
  }

  /** Boolean.ToString() surrounded by white space and NUL characters still
      reads back: the padding is trimmed before the comparison. */
  lemma ParseBoolPadded(pre: string, post: string, b: bool)
    requires forall k :: 0 <= k < |pre| ==> IsWhiteSpaceOrNull(pre[k])
    requires forall k :: 0 <= k < |post| ==> IsWhiteSpaceOrNull(post[k])
    ensures ParseBool(Some(pre + (if b then "True" else "False") + post)) == Some(b)
  {
    var word := if b then "True" else "False";
    TrimPadded(pre, word, post, IsWhiteSpaceOrNull);
    FoldedTrue();
    if !b {
      FoldedFalse();
    }
  }

  /** A trailing NUL character is trimmed, as Boolean.TryParse does. */
  lemma ParseBoolTrailingNull()
    ensures ParseBool(Some("true\0")) == Some(true)
  {
    TrimPadded([], "true", "\0", IsWhiteSpaceOrNull);
    assert [] + "true" + "\0" == "true\0";
    FoldedTrue();
  }

  /** "True" and "true" both fold to "true". */
  lemma FoldedTrue()
    ensures FoldCase("True") == "true" == FoldCase("true")
  {
    var f := FoldCase("True");
    assert f[0] == 't' && f[1] == 'r' && f[2] == 'u' && f[3] == 'e';
    FoldCaseUncapitalised("true");
  }

  /** "False" and "false" both fold to "false". */
  lemma FoldedFalse()
    ensures FoldCase("False") == "false" == FoldCase("false")
  {
    var f := FoldCase("False");
    assert f[0] == 'f' && f[1] == 'a' && f[2] == 'l' && f[3] == 's' && f[4] == 'e';
    FoldCaseUncapitalised("false");
  }

  /**
   * The cache-buster token computed by CacheBuster when nothing is cached yet:
   * the floored Unix time `now` when cacheBusterOn parses as true and noCache is
   * not true, "0" otherwise.
   */
  function CacheBusterValue(config: Config, noCache: Option<bool>, now: int): (r: string)
    ensures r != []
    ensures ParseBool(Setting(config, "cacheBusterOn")) != Some(true) ==> r == "0"
    ensures noCache == Some(true) ==> r == "0"
    ensures ParseBool(Setting(config, "cacheBusterOn")) == Some(true) && noCache != Some(true) && now >= 0 ==>
      AllDigits(r) && DigitsValue(r) == now
  {
    var enabled := ParseBool(Setting(config, "cacheBusterOn")) == Some(true) && noCache != Some(true);
    if enabled then
      if now >= 0 then NatToStringRoundTrip(now); IntToString(now) else IntToString(now)
    else "0"
  }

  /** The setting split at commas, empty entries dropped; a missing setting fails. */
  function SplitSetting(config: Config, name: string): (r: Result<seq<string>, Error>)
    ensures r.Failure? <==> name !in config
    ensures r.Failure? ==> r.error == MissingSetting(name)
    ensures r.Success? ==> forall i :: 0 <= i < |r.value| ==>
      r.value[i] != [] && IdentifierDelimiter !in r.value[i] && QuotationMark !in r.value[i]
  {
    var value := Setting(config, name);
    if value.None? then Failure(MissingSetting(name))
    else
      var r := Split(value.value, IdentifierDelimiter);
      assert forall i :: 0 <= i < |r| ==> QuotationMark !in r[i] by {
        SplitSubstrings(value.value, IdentifierDelimiter, QuotationMark);
      }
      Success(r)
  }

  /** An entry of a split string contains only characters of the string. */
  lemma {:induction false} FieldsChars(s: string, sep: char, c: char)
    requires c !in s
    ensures forall i :: 0 <= i < |Fields(s, sep)| ==> c !in Fields(s, sep)[i]
    decreases |s|
  {
    if s != [] {
      FieldsChars(s[1..], sep, c);
    }
  }

  lemma SplitSubstrings(s: string, sep: char, c: char)
    requires c !in s
    ensures forall i :: 0 <= i < |Split(s, sep)| ==> c !in Split(s, sep)[i]
  {
    FieldsChars(s, sep, c);
  }

  /** A list written out comma-separated in the configuration is read back unchanged. */
  lemma SplitSettingRoundTrip(config: Config, name: string, xs: seq<string>)
    requires forall i :: 0 <= i < |xs| ==> xs[i] != [] && IdentifierDelimiter !in xs[i] && QuotationMark !in xs[i]
    requires name in config && config[name] == Join(xs, IdentifierDelimiter)
    ensures SplitSetting(config, name) == Success(xs)
  {
    JoinChars(xs, IdentifierDelimiter, QuotationMark);
    SplitJoin(xs, IdentifierDelimiter);
  }

  lemma {:induction false} JoinChars(xs: seq<string>, sep: char, c: char)
    requires c != sep
    requires forall i :: 0 <= i < |xs| ==> c !in xs[i]
    ensures c !in Join(xs, sep)
  {
    if |xs| > 1 {
      JoinChars(xs[1..], sep, c);
    }
  }

  /**
   * IgnoredDirectories: the entries of the "id" setting followed by the meta
   * folder name and the public folder path.
   */
  function IgnoredDirectories(config: Config, appPath: string): (r: Result<seq<string>, Error>)
    ensures r.Failure? <==> "id" !in config
    ensures r.Success? ==>
      && |r.value| >= 2
      && r.value[|r.value| - 2] == FolderNameMeta
      && r.value[|r.value| - 1] == FolderPathPublic(config, appPath)
      && r.value[..|r.value| - 2] == SplitSetting(config, "id").value
  {
    var configured :- SplitSetting(config, "id");
    Success(configured + [FolderNameMeta, FolderPathPublic(config, appPath)])
  }

  /** IgnoredExtensions: the entries of the "ie" setting followed by the empty extension. */
  function IgnoredExtensions(config: Config): (r: Result<seq<string>, Error>)
    ensures r.Failure? <==> "ie" !in config
    ensures r.Success? ==>
      && |r.value| >= 1
      && r.value[|r.value| - 1] == ""
      && r.value[..|r.value| - 1] == SplitSetting(config, "ie").value
      && forall i :: 0 <= i < |r.value| - 1 ==> r.value[i] != ""
  {
    var configured :- SplitSetting(config, "ie");
    Success(configured + [""])
  }

  // ---------------------------------------------------------------------------
  // Pattern engine selection

  /** The name and file extension of a template engine (IPatternEngine). */
  datatype Engine = Engine(name: string, extension: string)

  predicate NameMatches(e: Option<Engine>, configured: Option<string>) {
    e.Some? && configured.Some? && EqualsIgnoreCase(e.value.name, configured.value)
  }

  /** Last(e => e != null): the position of the last registered engine, or -1. */
  function LastRegistered(engines: seq<Option<Engine>>): (r: int)
    ensures -1 <= r < |engines|
    ensures r >= 0 ==> engines[r].Some? && forall j :: r < j < |engines| ==> engines[j].None?
    ensures r < 0 ==> forall j :: 0 <= j < |engines| ==> engines[j].None?
  {
    if engines == [] then -1
    else if engines[|engines| - 1].Some? then |engines| - 1
    else LastRegistered(engines[..|engines| - 1])
  }

  /**
   * PatternEngine: the first registered engine whose name matches the
   * patternEngine setting ignoring case, else the last registered one.
   */
  function SelectEngine(engines: seq<Option<Engine>>, configured: Option<string>): (r: Result<Engine, Error>)
    ensures r.Failure? <==> forall j :: 0 <= j < |engines| ==> engines[j].None?
    ensures r.Success? ==> exists j :: 0 <= j < |engines| && engines[j] == Some(r.value)
    ensures (exists j :: 0 <= j < |engines| && NameMatches(engines[j], configured)) ==>
      r.Success? &&
      exists k :: 0 <= k < |engines| && engines[k] == Some(r.value) && NameMatches(engines[k], configured) &&
        forall j :: 0 <= j < k ==> !NameMatches(engines[j], configured)
    ensures r.Success? && (forall j :: 0 <= j < |engines| ==> !NameMatches(engines[j], configured)) ==>
      engines[LastRegistered(engines)] == Some(r.value)
  {
    var k := FirstWhere(engines, e => NameMatches(e, configured));
    if k >= 0 then Success(engines[k].value)
    else
      var last := LastRegistered(engines);
      if last >= 0 then Success(engines[last].value) else Failure(NoPatternEngine)
  }
}
