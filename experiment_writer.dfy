/**
 * ExperimentWriter: collects the FOVs of a run and writes the three
 * experiment-level documents: the primary-image manifest, the experiment
 * descriptor and a placeholder codebook.
 */
module ExperimentWriter {
  import opened Wrappers
  import opened JavaFormat
  import opened Naming
  import opened Json

  /**
   * The two naming methods the writer calls that Naming.java does not
   * define: the manifest key of an FOV (getFOV) and the manifest's file
   * name (getManifestFilename). Their formats are left open.
   */
  datatype ManifestNaming = ManifestNaming(fovKey: int -> string, manifestFilename: string)

  /**
   * The manifest's "contents" node after one put per listed FOV, in order:
   * the FOV's value under the FOV's key.
   */
  function Contents(key: int -> string, value: int -> Json, fovs: seq<int>): seq<(string, Json)>
  {
    if fovs == [] then []
    else
      var last := fovs[|fovs| - 1];
      Put(Contents(key, value, fovs[..|fovs| - 1]), key(last), value(last))
  }

  /** The value the manifest stores for an FOV: the name of its JSON document. */
  function JsonName(naming: Scheme): int -> Json
  {
    fov => JStr(naming.JsonFilename(fov))
  }

  /** The primary-image manifest. */
  function Manifest(naming: Scheme, m: ManifestNaming, fovs: seq<int>): Json
  {
    JObj([("contents", JObj(Contents(m.fovKey, JsonName(naming), fovs))), ("extras", JNull), ("version", JStr("0.0.0"))])
  }

  /** The experiment descriptor; it does not depend on the FOVs. */
  function Experiment(m: ManifestNaming): Json
  {
    JObj([("version", JStr("5.0.0")),
          ("extras", JObj([])),
          ("images", JObj([("primary", JStr(m.manifestFilename))])),
          ("codebook", JStr("codebook.json"))])
  }

  /** The codebook stub: one target with the single codeword r = 0, c = 0, v = 1. */
  const Codebook: Json :=
    JArr([JObj([("codeword", JArr([JObj([("r", JInt(0)), ("c", JInt(0)), ("v", JInt(1))])])),
                ("target", JStr("PLEASE_REPLACE_ME"))])])

  /** The files write produces, in the order it writes them. */
  function Files(naming: Scheme, m: ManifestNaming, out: string, fovs: seq<int>): seq<(string, Json)>
  {
    [(Path(out, m.manifestFilename), Manifest(naming, m, fovs)),
     (Path(out, "experiment.json"), Experiment(m)),
     (Path(out, "codebook.json"), Codebook)]
  }

  class ExperimentWriter {
    const naming: Scheme
    const out: string
    const names: ManifestNaming
    /** The FOVs added so far, in the order they were added. */
    var fovs: seq<int>

    /** A new writer has no FOVs. */
    constructor (naming: Scheme, out: string, names: ManifestNaming)
      ensures this.naming == naming && this.out == out
      ensures this.names.fovKey == names.fovKey && this.names.manifestFilename == names.manifestFilename
      ensures fovs == []
    {
      this.naming := naming;
      this.out := out;
      this.names := names;
      fovs := [];
    }

    /** addFOV: appends i; nothing else changes. */
    method AddFov(i: int)
      modifies this
      ensures fovs == old(fovs) + [i]
    {
      fovs := fovs + [i];
    }

    /**
     * write: puts every FOV's JSON file name under its manifest key, then
     * produces the manifest, the experiment descriptor and the codebook.
     * It changes nothing, so the documents are a function of the FOVs.
     */
    method Write() returns (files: seq<(string, Json)>)
      ensures files == Files(naming, names, out, fovs)
    {
      var contents: seq<(string, Json)> := [];
      var k := 0;
      while k < |fovs|
        invariant 0 <= k <= |fovs|
        invariant contents == Contents(names.fovKey, JsonName(naming), fovs[..k])
      {
        assert fovs[..k + 1][..k] == fovs[..k];
        contents := Put(contents, names.fovKey(fovs[k]), JStr(naming.JsonFilename(fovs[k])));
        k := k + 1;
      }
      assert fovs[..k] == fovs;
      var manifest := JObj([("contents", JObj(contents)), ("extras", JNull), ("version", JStr("0.0.0"))]);
      var exp := JObj([("version", JStr("5.0.0")),
                       ("extras", JObj([])),
                       ("images", JObj([("primary", JStr(names.manifestFilename))])),
                       ("codebook", JStr("codebook.json"))]);
      var word := JObj([("r", JInt(0)), ("c", JInt(0)), ("v", JInt(1))]);
      var code := JObj([("codeword", JArr([word])), ("target", JStr("PLEASE_REPLACE_ME"))]);
      var book := JArr([code]);
      files := [(Path(out, names.manifestFilename), manifest),
                (Path(out, "experiment.json"), exp),
                (Path(out, "codebook.json"), book)];
    }
  }

  // ---------------------------------------------------------------------------
  // The manifest contents

  /** The manifest never lists a key twice. */
  lemma {:induction false} ContentsKeysDistinct(key: int -> string, value: int -> Json, fovs: seq<int>)
    ensures Distinct(Keys(Contents(key, value, fovs)))
    decreases |fovs|
  {
    if fovs != [] {
      var last := fovs[|fovs| - 1];
      ContentsKeysDistinct(key, value, fovs[..|fovs| - 1]);
      PutKeepsDistinct(Contents(key, value, fovs[..|fovs| - 1]), key(last), value(last));
    }
  }

  /** Every added FOV's key is in the manifest. */
  lemma {:induction false} ContentsHasEveryKey(key: int -> string, value: int -> Json, fovs: seq<int>, i: int)
    requires 0 <= i < |fovs|
    ensures Get(Contents(key, value, fovs), key(fovs[i])).Some?
    decreases |fovs|
  {
    var init, last := fovs[..|fovs| - 1], fovs[|fovs| - 1];
    var before := Contents(key, value, init);
    var after := Put(before, key(last), value(last));
    assert Contents(key, value, fovs) == after;
    if i == |fovs| - 1 || key(fovs[i]) == key(last) {
      assert Get(after, key(last)).Some?;
    } else {
      assert init[i] == fovs[i];
      ContentsHasEveryKey(key, value, init, i);
      PutOther(before, key(last), value(last), key(fovs[i]));
    }
  }

  /** Every key in the manifest is the key of an added FOV. */
  lemma {:induction false} ContentsHasOnlyFovKeys(key: int -> string, value: int -> Json, fovs: seq<int>, k: string)
    requires Get(Contents(key, value, fovs), k).Some?
    ensures exists i :: 0 <= i < |fovs| && key(fovs[i]) == k
    decreases |fovs|
  {
    var init, last := fovs[..|fovs| - 1], fovs[|fovs| - 1];
    if key(last) != k {
      PutOther(Contents(key, value, init), key(last), value(last), k);
      ContentsHasOnlyFovKeys(key, value, init, k);
      var i :| 0 <= i < |init| && key(init[i]) == k;
      assert fovs[i] == init[i];
    }
  }

  /**
   * The value under an FOV's key is the value of the last FOV added with
   * that key: a later put replaces an earlier one.
   */
  lemma {:induction false} ContentsLastWins(key: int -> string, value: int -> Json, fovs: seq<int>, i: int)
    requires 0 <= i < |fovs|
    requires forall j :: i < j < |fovs| ==> key(fovs[j]) != key(fovs[i])
    ensures Get(Contents(key, value, fovs), key(fovs[i])) == Some(value(fovs[i]))
    decreases |fovs|
  {
    var init, last := fovs[..|fovs| - 1], fovs[|fovs| - 1];
    if i < |fovs| - 1 {
      assert init[i] == fovs[i];
      forall j | i < j < |init| ensures key(init[j]) != key(init[i]) {
        assert init[j] == fovs[j];
      }
      ContentsLastWins(key, value, init, i);
      PutOther(Contents(key, value, init), key(last), value(last), key(fovs[i]));
    }
  }

  /** FOV keys that never collide (getFOV is one-to-one). */
  ghost predicate KeysInjective(key: int -> string)
  {
    forall a: int, b: int :: key(a) == key(b) ==> a == b
  }

  /** With one-to-one keys, every added FOV maps to its own value. */
  lemma ContentsMapsEachFov(key: int -> string, value: int -> Json, fovs: seq<int>, fov: int)
    requires KeysInjective(key) && fov in fovs
    ensures Get(Contents(key, value, fovs), key(fov)) == Some(value(fov))
  {
    var i :| 0 <= i < |fovs| && fovs[i] == fov;
    while exists j :: i < j < |fovs| && fovs[j] == fov
      invariant 0 <= i < |fovs| && fovs[i] == fov
      decreases |fovs| - i
    {
      var j :| i < j < |fovs| && fovs[j] == fov;
      i := j;
    }
    ContentsLastWins(key, value, fovs, i);
  }

  /** With one-to-one keys, adding an FOV that is already listed leaves the contents unchanged. */
  lemma ReaddingLeavesContents(key: int -> string, value: int -> Json, fovs: seq<int>, fov: int)
    requires KeysInjective(key) && fov in fovs
    ensures Contents(key, value, fovs + [fov]) == Contents(key, value, fovs)
  {
    assert (fovs + [fov])[..|fovs|] == fovs;
    ContentsMapsEachFov(key, value, fovs, fov);
    PutSameValue(Contents(key, value, fovs), key(fov), value(fov));
  }

  /** The manifest holds the contents, a null extras and version 0.0.0. */
  lemma ManifestFields(naming: Scheme, m: ManifestNaming, fovs: seq<int>)
    ensures var doc := Manifest(naming, m, fovs);
            && Field(doc, "contents") == Some(JObj(Contents(m.fovKey, JsonName(naming), fovs)))
            && Field(doc, "extras") == Some(JNull)
            && Field(doc, "version") == Some(JStr("0.0.0"))
  {
    var fields := [("contents", JObj(Contents(m.fovKey, JsonName(naming), fovs))), ("extras", JNull), ("version", JStr("0.0.0"))];
    assert Distinct(Keys(fields));
    GetAt(fields, 0);
    GetAt(fields, 1);
    GetAt(fields, 2);
  }

  /**
   * The experiment descriptor: version 5.0.0, empty extras, the manifest
   * as the primary image, and codebook.json.
   */
  lemma ExperimentFields(m: ManifestNaming)
    ensures var doc := Experiment(m);
            && Field(doc, "version") == Some(JStr("5.0.0"))
            && Field(doc, "extras") == Some(JObj([]))
            && Field(doc, "images") == Some(JObj([("primary", JStr(m.manifestFilename))]))
            && Field(doc, "codebook") == Some(JStr("codebook.json"))
  {
    var fields := [("version", JStr("5.0.0")),
                   ("extras", JObj([])),
                   ("images", JObj([("primary", JStr(m.manifestFilename))])),
                   ("codebook", JStr("codebook.json"))];
    assert Distinct(Keys(fields));
    GetAt(fields, 0);
    GetAt(fields, 1);
    GetAt(fields, 2);
    GetAt(fields, 3);
  }

  /** write puts the manifest, experiment.json and codebook.json in the output directory, in that order. */
  lemma FilesGoToOut(naming: Scheme, m: ManifestNaming, out: string, fovs: seq<int>)
    ensures var files := Files(naming, m, out, fovs);
            && |files| == 3
            && files[0].0 == out + "/" + m.manifestFilename
            && files[1].0 == out + "/experiment.json"
            && files[2].0 == out + "/codebook.json"
            && files[1].1 == Experiment(m) && files[2].1 == Codebook
  {
  }

  /**
   * The paths are what "%s/%s" prints for out and the manifest name, and what
   * "%s/experiment.json" and "%s/codebook.json" print for out.
   */
  lemma FilePathsAreFormatted(naming: Scheme, m: ManifestNaming, out: string, fovs: seq<int>)
    ensures Format("%s/%s", [Str(out), Str(m.manifestFilename)]) == Some(Files(naming, m, out, fovs)[0].0)
    ensures Format("%s/" + "experiment.json", [Str(out)]) == Some(Files(naming, m, out, fovs)[1].0)
    ensures Format("%s/" + "codebook.json", [Str(out)]) == Some(Files(naming, m, out, fovs)[2].0)
  {
    PathIsFormatted(out, m.manifestFilename);
    FixedNameInDirectory(out, "experiment.json");
    FixedNameInDirectory(out, "codebook.json");
  }
}
