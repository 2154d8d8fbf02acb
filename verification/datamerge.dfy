/** The data collection: data files parsed into key/value mappings and merged
    shallowly, the last file that holds a key deciding its value. */
module DataMerge {
  import opened Wrappers
  import opened Text

  /** A value read from a JSON or YAML data file. */
  datatype Value =
    | Scalar(text: string)
    | List(items: seq<Value>)
    | Object(fields: map<string, Value>)

  /** A data collection: the top-level keys of a data file and their values. */
  type Data = map<string, Value>

  /** A file of the data folder, by its extension and its text. */
  datatype DataFile = DataFile(extension: string, text: string)

  const ExtensionJson := ".json"
  const ExtensionYaml := ".yaml"

  /** Shallow, last-writer-wins merge of two collections. */
  function Merge(original: Data, additional: Data): (r: Data)
    ensures r.Keys == original.Keys + additional.Keys
    ensures forall k :: k in additional ==> r[k] == additional[k]
    ensures forall k :: k in original && k !in additional ==> r[k] == original[k]
  {
    original + additional
  }

  /** Copies every entry of `additional` over `result`, one key at a time. */
  method CopyInto(result: Data, additional: Data) returns (r: Data)
    ensures r == Merge(result, additional)
  {
    r := result;
    var todo := additional.Keys;
    while todo != {}
      invariant todo <= additional.Keys
      invariant r.Keys == result.Keys + (additional.Keys - todo)
      invariant forall k :: k in r && k in additional && k !in todo ==> r[k] == additional[k]
      invariant forall k :: k in r && (k !in additional || k in todo) ==> r[k] == result[k]
      decreases todo
    {
      var k :| k in todo;
      r := r[k := additional[k]];
      todo := todo - {k};
    }
    assert r.Keys == Merge(result, additional).Keys;
  }

  /** MergeData: a fresh collection holding the entries of `original`, then those of
      `additional` on top. */
  method MergeData(original: Data, additional: Data) returns (r: Data)
    ensures r == Merge(original, additional)
  {
    r := map[];
    r := CopyInto(r, original);
    r := CopyInto(r, additional);
    assert map[] + original == original;
  }

  /** The parse outcome of one data file: `.json` (in any case) is read as JSON,
      everything else as YAML; a parse that throws or yields null is None. */
  function Parse(file: DataFile, json: string -> Option<Data>, yaml: string -> Option<Data>): (r: Option<Data>)
    ensures EqualsIgnoreCase(file.extension, ExtensionJson) ==> r == json(file.text)
    ensures !EqualsIgnoreCase(file.extension, ExtensionJson) ==> r == yaml(file.text)
  {
    if EqualsIgnoreCase(file.extension, ExtensionJson) then json(file.text) else yaml(file.text)
  }

  /** The parse outcomes of the files, in order. */
  function Parsed(files: seq<DataFile>, json: string -> Option<Data>, yaml: string -> Option<Data>): (r: seq<Option<Data>>)
    ensures |r| == |files|
    ensures forall i :: 0 <= i < |files| ==> r[i] == Parse(files[i], json, yaml)
  {
    seq(|files|, i requires 0 <= i < |files| => Parse(files[i], json, yaml))
  }

  /** The collection built from a sequence of parse outcomes, merged in order. */
  function MergeAll(outcomes: seq<Option<Data>>): Data
  {
    if outcomes == [] then map[]
    else
      var before := MergeAll(outcomes[..|outcomes| - 1]);
      match outcomes[|outcomes| - 1]
      case None => before
      case Some(d) => Merge(before, d)
  }

  /** GetData: reads the files in order, skipping those that do not parse, and
      copies each parsed collection over the result. */
  method GetData(files: seq<DataFile>, json: string -> Option<Data>, yaml: string -> Option<Data>)
    returns (r: Data)
    ensures r == MergeAll(Parsed(files, json, yaml))
  {
    ghost var outcomes := Parsed(files, json, yaml);
    r := map[];
    for i := 0 to |files|
      invariant r == MergeAll(outcomes[..i])
    {
      assert outcomes[..i + 1][..i] == outcomes[..i];
      var dictionary := Parse(files[i], json, yaml);
      if dictionary.None? {
        continue;
      }
      r := CopyInto(r, dictionary.value);
    }
    assert outcomes[..|files|] == outcomes;
  }

  /** Some outcome at index i holds key k. */
  predicate Holds(outcomes: seq<Option<Data>>, i: int, k: string)
    requires 0 <= i < |outcomes|
  {
    outcomes[i].Some? && k in outcomes[i].value
  }

  /** The keys of the merged collection are exactly the keys of the parsed files. */
  lemma {:induction false} MergeAllKeys(outcomes: seq<Option<Data>>, k: string)
    ensures k in MergeAll(outcomes) <==> exists i :: 0 <= i < |outcomes| && Holds(outcomes, i, k)
  {
    if outcomes != [] {
      var n := |outcomes| - 1;
      var front := outcomes[..n];
      MergeAllKeys(front, k);
      if k in MergeAll(outcomes) {
        if !Holds(outcomes, n, k) {
          var i :| 0 <= i < |front| && Holds(front, i, k);
          assert Holds(outcomes, i, k);
        }
      } else {
        forall i | 0 <= i < |outcomes|
          ensures !Holds(outcomes, i, k)
        {
          if i < n {
            assert !Holds(front, i, k);
          }
        }
      }
    }
  }

  /** Every key holds the value of the last parsed file that contains it. */
  lemma {:induction false} MergeAllLastWriter(outcomes: seq<Option<Data>>, i: int, k: string)
    requires 0 <= i < |outcomes| && Holds(outcomes, i, k)
    requires forall j :: i < j < |outcomes| ==> !Holds(outcomes, j, k)
    ensures k in MergeAll(outcomes) && MergeAll(outcomes)[k] == outcomes[i].value[k]
  {
    var n := |outcomes| - 1;
    var front := outcomes[..n];
    if i == n {
    } else {
      assert Holds(front, i, k);
      forall j | i < j < |front|
        ensures !Holds(front, j, k)
      {
        assert !Holds(outcomes, j, k);
      }
      MergeAllLastWriter(front, i, k);
      assert !Holds(outcomes, n, k);
    }
  }

  /** Merging the files in two runs, then merging the two results, is the same as
      merging them all at once: GetData agrees with MergeData. */
  lemma {:induction false} MergeAllConcat(xs: seq<Option<Data>>, ys: seq<Option<Data>>)
    ensures MergeAll(xs + ys) == Merge(MergeAll(xs), MergeAll(ys))
  {
    if ys == [] {
      assert xs + ys == xs;
    } else {
      var n := |ys| - 1;
      assert (xs + ys)[..|xs + ys| - 1] == xs + ys[..n];
      MergeAllConcat(xs, ys[..n]);
    }
  }

  /** A file that does not parse leaves the collection as it was. */
  lemma UnparsedIgnored(xs: seq<Option<Data>>, ys: seq<Option<Data>>)
    ensures MergeAll(xs + [None] + ys) == MergeAll(xs + ys)
  {
    MergeAllConcat(xs + [None], ys);
    MergeAllConcat(xs, ys);
    assert (xs + [None])[..|xs|] == xs;
  }

  /** The merge is shallow: two objects under the same key are not combined, the
      later one replaces the earlier one as a whole. */
  lemma NoDeepMerge()
    ensures
      var a := map["site" := Object(map["title" := Scalar("A")])];
      var b := map["site" := Object(map["author" := Scalar("B")])];
      MergeAll([Some(a), Some(b)])["site"] == Object(map["author" := Scalar("B")])
  {
    var a := map["site" := Object(map["title" := Scalar("A")])];
    var b := map["site" := Object(map["author" := Scalar("B")])];
    assert [Some(a), Some(b)][..1] == [Some(a)];
    assert [Some(a)][..0] == [];
  }

  /** {x: 1, y: 2} followed by {y: 3} gives {x: 1, y: 3}. */
  lemma LastWriterExample()
    ensures
      var first := map["x" := Scalar("1"), "y" := Scalar("2")];
      var second := map["y" := Scalar("3")];
      MergeAll([Some(first), None, Some(second)]) == map["x" := Scalar("1"), "y" := Scalar("3")]
  {
    var first := map["x" := Scalar("1"), "y" := Scalar("2")];
    var second := map["y" := Scalar("3")];
    var outcomes := [Some(first), None, Some(second)];
    assert outcomes[..2] == [Some(first), None];
    assert outcomes[..2][..1] == [Some(first)];
    assert [Some(first)][..0] == [];
    assert MergeAll([Some(first)]) == first by {
      assert Merge(map[], first) == first;
    }
    assert MergeAll(outcomes[..2]) == first;
    assert MergeAll(outcomes).Keys == {"x", "y"};
  }
}
