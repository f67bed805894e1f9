/**
 * `write_run_metadata`: the lineage record of a run is built in full, then
 * written in one go to `<output_root>/run_<version>.json`, replacing any
 * earlier record of the same version.  The directory is not created here:
 * it has to exist already.
 */
module Lineage {
  import opened Wrappers
  import opened PathModel
  import opened FileSystem
  import opened LineageRecord
  import Timestamps

  type Timestamp = Timestamps.Timestamp

  datatype LineageError = StorageError(path: Path)   // the write refused by the filesystem

  /** The file name of a run's record. */
  function RecordName(output_version: string): string {
    "run_" + output_version + ".json"
  }

  /**
   * `Path(output_root) / f"run_{output_version}.json"`: the name starts with
   * `run_`, so it is never absolute and the record always lies strictly
   * inside the output root, whatever the version.
   */
  function RecordPath(output_root: string, output_version: string): (p: Path)
    ensures WellFormed(p)
    ensures |ParsePath(output_root)| < |p| && p[..|ParsePath(output_root)|] == ParsePath(output_root)
  {
    var name := RecordName(output_version);
    assert name[0] == 'r';
    PiecesLeading(name);
    PiecesNames(name);
    var q := ParsePath(name);
    assert q == Pieces(name) && IsName(q[0]);
    Join(ParsePath(output_root), name)
  }

  /** A version without `/` names a single file directly inside the output root. */
  lemma RecordPathLayout(output_root: string, output_version: string)
    requires '/' !in output_version
    ensures IsName(RecordName(output_version))
    ensures RecordPath(output_root, output_version) == ParsePath(output_root) + [RecordName(output_version)]
  {
    var n := RecordName(output_version);
    assert n[0] == 'r';
    assert |n| > 1;
    assert '/' !in n by {
      assert n == "run_" + output_version + ".json";
      forall i | 0 <= i < |n|
        ensures n[i] != '/'
      {
        if i < 4 {
          assert n[i] == "run_"[i];
        } else if i < 4 + |output_version| {
          assert n[i] == output_version[i - 4];
        } else {
          assert n[i] == ".json"[i - 4 - |output_version|];
        }
      }
    }
    JoinName(ParsePath(output_root), n);
  }

  /** `write_run_metadata`, as a function of the filesystem state, with the clock reading passed in. */
  function WriteRunMetadataSpec(
    s: FsState, output_root: string, env: string, input_path: string, output_version: string,
    git_sha: Option<string>, features: map<string, bool>, row_counts: map<string, int>,
    now_utc: Timestamp): (FsState, Result<Unit, LineageError>)
    requires Timestamps.Valid(now_utc)
  {
    var meta := BuildRunMetadata(output_root, env, input_path, output_version, git_sha, features, row_counts, now_utc);
    var path := RecordPath(output_root, output_version);
    if !CanWrite(s, path) then (s, Failure(StorageError(path)))
    else (AfterWrite(s, path, JsonRecord(meta)), Success(Unit))
  }

  /** The write succeeds exactly when the filesystem accepts the record's path; a failed one changes nothing. */
  lemma LineageOutcome(
    s: FsState, output_root: string, env: string, input_path: string, output_version: string,
    git_sha: Option<string>, features: map<string, bool>, row_counts: map<string, int>,
    now_utc: Timestamp)
    requires Timestamps.Valid(now_utc)
    ensures var res := WriteRunMetadataSpec(s, output_root, env, input_path, output_version,
                                             git_sha, features, row_counts, now_utc);
      var path := RecordPath(output_root, output_version);
      && (res.1.Success? <==> CanWrite(s, path))
      && (res.1.Failure? ==> res.1.error == StorageError(path) && res.0 == s)
  {
  }

  /**
   * A successful write sets the record's file and no other, creates no
   * directory, and logs exactly one effect.
   */
  lemma LineageFrame(
    s: FsState, output_root: string, env: string, input_path: string, output_version: string,
    git_sha: Option<string>, features: map<string, bool>, row_counts: map<string, int>,
    now_utc: Timestamp)
    requires Timestamps.Valid(now_utc)
    ensures var res := WriteRunMetadataSpec(s, output_root, env, input_path, output_version,
                                             git_sha, features, row_counts, now_utc);
      var path := RecordPath(output_root, output_version);
      res.1.Success? ==>
        && res.0.files.Keys == s.files.Keys + {path}
        && (forall p :: p in s.files && p != path ==> res.0.files[p] == s.files[p])
        && res.0.dirs == s.dirs && res.0.journal == s.journal + [Wrote(path)]
  {
  }

  /**
   * The stored record carries every argument unchanged and a creation
   * instant that parses back to the clock reading.
   */
  lemma LineageContent(
    s: FsState, output_root: string, env: string, input_path: string, output_version: string,
    git_sha: Option<string>, features: map<string, bool>, row_counts: map<string, int>,
    now_utc: Timestamp)
    requires Timestamps.Valid(now_utc)
    ensures var res := WriteRunMetadataSpec(s, output_root, env, input_path, output_version,
                                             git_sha, features, row_counts, now_utc);
      var path := RecordPath(output_root, output_version);
      res.1.Success? ==>
        && path in res.0.files && res.0.files[path].JsonRecord?
        && var m := res.0.files[path].record;
          && m.env == env && m.input.path == input_path
          && m.output == OutputRef(output_root, output_version)
          && m.git_sha == git_sha && m.features == features && m.row_counts == row_counts
          && Timestamps.FromIsoFormatUtc(m.created_at_utc) == Some(now_utc)
  {
  }

  /**
   * A record cannot be written when its output root is not a directory: for a
   * version without `/` the record lies directly in the root, and in a
   * consistent filesystem a missing root has no directories below it.
   */
  lemma RecordNeedsRoot(s: FsState, output_root: string, output_version: string)
    requires '/' !in output_version || Consistent(s)
    requires ParsePath(output_root) !in s.dirs
    ensures !CanWrite(s, RecordPath(output_root, output_version))
  {
    var root := ParsePath(output_root);
    var p := RecordPath(output_root, output_version);
    if '/' !in output_version {
      RecordPathLayout(output_root, output_version);
      assert p[..|p| - 1] == root;
    } else {
      var parent := p[..|p| - 1];
      assert parent[..|root|] == root;
      MissingBelow(s, parent, |root|);
    }
  }

  /** The output root is not created: when it is not a directory, nothing is written. */
  lemma LineageNeedsRoot(
    s: FsState, output_root: string, env: string, input_path: string, output_version: string,
    git_sha: Option<string>, features: map<string, bool>, row_counts: map<string, int>,
    now_utc: Timestamp)
    requires Timestamps.Valid(now_utc)
    requires '/' !in output_version || Consistent(s)
    requires ParsePath(output_root) !in s.dirs
    ensures var res := WriteRunMetadataSpec(s, output_root, env, input_path, output_version,
                                             git_sha, features, row_counts, now_utc);
      res.1.Failure? && res.0 == s
  {
    RecordNeedsRoot(s, output_root, output_version);
  }

  /**
   * Two runs recording the same version under the same root: the second
   * succeeds whenever the first did, and its record replaces the first one.
   */
  lemma LineageLastWriteWins(
    s: FsState, output_root: string, output_version: string,
    env1: string, input1: string, sha1: Option<string>, features1: map<string, bool>,
    counts1: map<string, int>, now1: Timestamp,
    env2: string, input2: string, sha2: Option<string>, features2: map<string, bool>,
    counts2: map<string, int>, now2: Timestamp)
    requires Timestamps.Valid(now1) && Timestamps.Valid(now2)
    ensures var res1 := WriteRunMetadataSpec(s, output_root, env1, input1, output_version,
                                              sha1, features1, counts1, now1);
      var res2 := WriteRunMetadataSpec(res1.0, output_root, env2, input2, output_version,
                                       sha2, features2, counts2, now2);
      var path := RecordPath(output_root, output_version);
      res1.1.Success? ==>
        && res2.1.Success?
        && res2.0.files == s.files[path := JsonRecord(BuildRunMetadata(
             output_root, env2, input2, output_version, sha2, features2, counts2, now2))]
  {
    var path := RecordPath(output_root, output_version);
    if CanWrite(s, path) {
      var m1 := BuildRunMetadata(output_root, env1, input1, output_version, sha1, features1, counts1, now1);
      var m2 := BuildRunMetadata(output_root, env2, input2, output_version, sha2, features2, counts2, now2);
      WriteTwice(s, path, JsonRecord(m1), JsonRecord(m2));
    }
  }

  /** The write keeps the filesystem's invariant. */
  lemma LineageKeepsConsistent(
    s: FsState, output_root: string, env: string, input_path: string, output_version: string,
    git_sha: Option<string>, features: map<string, bool>, row_counts: map<string, int>,
    now_utc: Timestamp)
    requires Timestamps.Valid(now_utc)
    requires Consistent(s)
    ensures Consistent(WriteRunMetadataSpec(s, output_root, env, input_path, output_version,
                                            git_sha, features, row_counts, now_utc).0)
  {
    var path := RecordPath(output_root, output_version);
    if CanWrite(s, path) {
      var meta := BuildRunMetadata(output_root, env, input_path, output_version, git_sha, features, row_counts, now_utc);
      WriteKeepsConsistent(s, path, JsonRecord(meta));
    }
  }

  /** `write_run_metadata`, with the clock reading passed in. */
  method WriteRunMetadata(
    fs: Store, output_root: string, env: string, input_path: string, output_version: string,
    git_sha: Option<string>, features: map<string, bool>, row_counts: map<string, int>,
    now_utc: Timestamp) returns (r: Result<Unit, LineageError>)
    requires Timestamps.Valid(now_utc)
    modifies fs
    ensures (fs.State(), r) == WriteRunMetadataSpec(old(fs.State()), output_root, env, input_path,
                                                   output_version, git_sha, features, row_counts, now_utc)
  {
    var meta := BuildRunMetadata(output_root, env, input_path, output_version, git_sha, features, row_counts, now_utc);
    var path := Join(ParsePath(output_root), "run_" + output_version + ".json");
    var ok := fs.Write(path, JsonRecord(meta));
    r := if ok then Success(Unit) else Failure(StorageError(path));
  }
}
