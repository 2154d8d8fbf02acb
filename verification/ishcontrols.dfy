/**
 * The ish controls hidden in the viewer: those listed in the ishControlsHide
 * setting, then the page-follow and auto-reload controls, and the snapshot
 * control when no snapshot has been made. The names are the keys of a
 * dictionary, so a name given twice fails.
 */
module IshControls {
  import opened Wrappers
  import opened Text
  import opened Collections
  import opened Settings

  const ToolsFollow := "tools-follow"
  const ToolsReload := "tools-reload"
  const ToolsSnapshot := "tools-snapshot"

  /** Dictionary.Add of each key in turn: the first key already present fails. */
  function AddKeys(dict: seq<string>, keys: seq<string>): Result<seq<string>, Error>
    decreases |keys|
  {
    if keys == [] then Success(dict)
    else if keys[0] in dict then Failure(DuplicateKey(keys[0]))
    else AddKeys(dict + [keys[0]], keys[1..])
  }

  /** Adding keys succeeds exactly when no key repeats, and then appends them all;
      a failure names a key that was given twice. */
  lemma {:induction false} AddKeysOutcome(dict: seq<string>, keys: seq<string>)
    requires NoDuplicates(dict)
    ensures AddKeys(dict, keys).Success? <==> NoDuplicates(dict + keys)
    ensures AddKeys(dict, keys).Success? ==> AddKeys(dict, keys).value == dict + keys
    ensures AddKeys(dict, keys).Failure? ==>
      AddKeys(dict, keys).error.DuplicateKey? && AddKeys(dict, keys).error.key in keys
    decreases |keys|
  {
    if keys != [] {
      var k := keys[0];
      assert dict + keys == (dict + [k]) + keys[1..];
      if k in dict {
        var i :| 0 <= i < |dict| && dict[i] == k;
        assert (dict + keys)[|dict|] == k;
        assert (dict + keys)[i] == k;
      } else {
        assert NoDuplicates(dict + [k]);
        AddKeysOutcome(dict + [k], keys[1..]);
        assert NoDuplicates(dict + keys) ==> NoDuplicates(dict + [k]) by {
          if NoDuplicates(dict + keys) {
            forall i, j | 0 <= i < j < |dict + [k]|
              ensures (dict + [k])[i] != (dict + [k])[j]
            {
              assert (dict + [k])[i] == (dict + keys)[i];
              assert (dict + [k])[j] == (dict + keys)[j];
            }
          }
        }
      }
    }
  }

  /** The trimmed entries, in order. */
  function Trimmed(entries: seq<string>): (r: seq<string>)
    ensures |r| == |entries|
    ensures forall i :: 0 <= i < |r| ==> r[i] == Trim(entries[i])
  {
    seq(|entries|, i requires 0 <= i < |entries| => Trim(entries[i]))
  }

  /** The hidden controls, in the order they are added, or the first failure. */
  function HiddenControls(config: Config, snapshotsExist: bool): Result<seq<string>, Error> {
    var entries :- SplitSetting(config, "ishControlsHide");
    Configured(config, entries, snapshotsExist)
  }

  /** The configured names, trimmed, then the fixed controls, or the first failure. */
  function Configured(config: Config, entries: seq<string>, snapshotsExist: bool): Result<seq<string>, Error> {
    var hidden :- AddKeys([], Trimmed(entries));
    AddFixed(config, hidden, snapshotsExist)
  }

  /** The fixed controls added after the configured ones, or the first failure. */
  function AddFixed(config: Config, hidden: seq<string>, snapshotsExist: bool): Result<seq<string>, Error> {
    if Setting(config, "pageFollowNav").None? then Failure(MissingSetting("pageFollowNav"))
    else
      var hidden :- AddKeys(hidden, [ToolsFollow]);
      if Setting(config, "autoReloadNav").None? then Failure(MissingSetting("autoReloadNav"))
      else
        var hidden :- AddKeys(hidden, [ToolsReload]);
        if snapshotsExist then Success(hidden) else AddKeys(hidden, [ToolsSnapshot])
  }

  /** Adds one key to the dictionary, failing if it is already there. */
  method Add(hidden: seq<string>, key: string) returns (r: Result<seq<string>, Error>)
    ensures r == AddKeys(hidden, [key])
  {
    assert [key][1..] == [];
    if key in hidden {
      return Failure(DuplicateKey(key));
    }
    return Success(hidden + [key]);
  }

  /**
   * The hidden-control part of Data(): the configured names are trimmed and put
   * in a dictionary, then the fixed controls are added. Whatever pageFollowNav and
   * autoReloadNav say, their controls are hidden (both branches of the source add
   * them); the settings must still be present, since they are compared.
   */
  method HideIshControls(config: Config, snapshotsExist: bool) returns (r: Result<seq<string>, Error>)
    ensures r == HiddenControls(config, snapshotsExist)
  {
    var ishSettings := SplitSetting(config, "ishControlsHide");
    if ishSettings.Failure? {
      return Failure(ishSettings.error);
    }
    r := AddTrimmed(ishSettings.value);
    if r.Failure? {
      return;
    }
    r := AddFixedControls(config, r.value, snapshotsExist);
  }

  /** Adds each configured name, trimmed, to an empty dictionary. */
  method AddTrimmed(entries: seq<string>) returns (r: Result<seq<string>, Error>)
    ensures r == AddKeys([], Trimmed(entries))
  {
    ghost var keys := Trimmed(entries);
    var hidden: seq<string> := [];
    for i := 0 to |entries|
      invariant AddKeys([], keys) == AddKeys(hidden, keys[i..])
    {
      var key := Trim(entries[i]);
      assert keys[i..][0] == key && keys[i..][1..] == keys[i + 1..];
      if key in hidden {
        return Failure(DuplicateKey(key));
      }
      hidden := hidden + [key];
    }
    assert keys[|keys|..] == [];
    return Success(hidden);
  }

  /** Adds the page-follow, auto-reload and, without snapshots, snapshot controls. */
  method AddFixedControls(config: Config, hidden: seq<string>, snapshotsExist: bool) returns (r: Result<seq<string>, Error>)
    ensures r == AddFixed(config, hidden, snapshotsExist)
  {
    var pageFollowNav := Setting(config, "pageFollowNav");
    if pageFollowNav.None? {
      return Failure(MissingSetting("pageFollowNav"));
    }
    r := Add(hidden, ToolsFollow);
    if r.Failure? {
      return;
    }
    var autoReloadNav := Setting(config, "autoReloadNav");
    if autoReloadNav.None? {
      return Failure(MissingSetting("autoReloadNav"));
    }
    r := Add(r.value, ToolsReload);
    if r.Failure? || snapshotsExist {
      return;
    }
    r := Add(r.value, ToolsSnapshot);
  }

  /** The fixed controls added after the configured ones. */
  function FixedControls(snapshotsExist: bool): seq<string> {
    [ToolsFollow, ToolsReload] + (if snapshotsExist then [] else [ToolsSnapshot])
  }

  /**
   * The hidden controls are the trimmed configured names followed by the fixed
   * controls; this fails exactly when one of the three settings is missing or a
   * name would be added twice (a configured name repeated after trimming, or
   * naming a fixed control).
   */
  lemma HiddenControlsOutcome(config: Config, snapshotsExist: bool)
    ensures var r := HiddenControls(config, snapshotsExist);
      r.Success? <==>
        && "ishControlsHide" in config && "pageFollowNav" in config && "autoReloadNav" in config
        && NoDuplicates(Trimmed(SplitSetting(config, "ishControlsHide").value) + FixedControls(snapshotsExist))
    ensures var r := HiddenControls(config, snapshotsExist);
      r.Success? ==> r.value == Trimmed(SplitSetting(config, "ishControlsHide").value) + FixedControls(snapshotsExist)
    ensures "ishControlsHide" !in config ==>
      HiddenControls(config, snapshotsExist) == Failure(MissingSetting("ishControlsHide"))
  {
    if "ishControlsHide" in config {
      ConfiguredOutcome(config, SplitSetting(config, "ishControlsHide").value, snapshotsExist);
    }
  }

  /** The configured part succeeds exactly when both settings are present and the
      trimmed names followed by the fixed controls have no duplicate. */
  lemma ConfiguredOutcome(config: Config, entries: seq<string>, snapshotsExist: bool)
    ensures var r := Configured(config, entries, snapshotsExist);
      r.Success? <==>
        "pageFollowNav" in config && "autoReloadNav" in config && NoDuplicates(Trimmed(entries) + FixedControls(snapshotsExist))
    ensures var r := Configured(config, entries, snapshotsExist);
      r.Success? ==> r.value == Trimmed(entries) + FixedControls(snapshotsExist)
  {
    var keys := Trimmed(entries);
    AddKeysOutcome([], keys);
    assert [] + keys == keys;
    NoDuplicatesPrefix(keys, FixedControls(snapshotsExist));
    if NoDuplicates(keys) {
      AddFixedOutcome(config, keys, snapshotsExist);
    }
  }

  /** Adding the fixed controls to a duplicate-free list succeeds exactly when both
      settings are present and no fixed control is already there. */
  lemma AddFixedOutcome(config: Config, hidden: seq<string>, snapshotsExist: bool)
    requires NoDuplicates(hidden)
    ensures var r := AddFixed(config, hidden, snapshotsExist);
      r.Success? <==>
        "pageFollowNav" in config && "autoReloadNav" in config && NoDuplicates(hidden + FixedControls(snapshotsExist))
    ensures var r := AddFixed(config, hidden, snapshotsExist);
      r.Success? ==> r.value == hidden + FixedControls(snapshotsExist)
  {
    var a := hidden + [ToolsFollow];
    var b := a + [ToolsReload];
    FixedChain(hidden, snapshotsExist);
    AddKeysOutcome(hidden, [ToolsFollow]);
    if NoDuplicates(a) {
      AddKeysOutcome(a, [ToolsReload]);
      if NoDuplicates(b) {
        AddKeysOutcome(b, [ToolsSnapshot]);
      }
    }
  }

  /** The configured names followed by the fixed controls, one control at a time. */
  lemma FixedChain(keys: seq<string>, snapshotsExist: bool)
    ensures var b := keys + [ToolsFollow] + [ToolsReload];
      keys + FixedControls(snapshotsExist) == if snapshotsExist then b else b + [ToolsSnapshot]
    ensures NoDuplicates(keys + FixedControls(snapshotsExist)) ==>
      NoDuplicates(keys) && NoDuplicates(keys + [ToolsFollow]) && NoDuplicates(keys + [ToolsFollow] + [ToolsReload])
  {
    var a := keys + [ToolsFollow];
    var b := a + [ToolsReload];
    assert keys + FixedControls(snapshotsExist) == if snapshotsExist then b else b + [ToolsSnapshot];
    NoDuplicatesSnoc(keys, ToolsFollow);
    NoDuplicatesSnoc(a, ToolsReload);
    NoDuplicatesSnoc(b, ToolsSnapshot);
  }

  /** A prefix of a list without duplicates has none either. */
  lemma NoDuplicatesPrefix(xs: seq<string>, ys: seq<string>)
    ensures NoDuplicates(xs + ys) ==> NoDuplicates(xs)
  {
    if NoDuplicates(xs + ys) {
      forall i, j | 0 <= i < j < |xs|
        ensures xs[i] != xs[j]
      {
        assert xs[i] == (xs + ys)[i] && xs[j] == (xs + ys)[j];
      }
    }
  }
}
