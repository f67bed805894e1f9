/**
 * The versioned dataset writer: a version id made from the clock reading,
 * `root/<id>/data.<format>` written, and only then `root/LATEST` overwritten
 * with that file's path.
 */
module Load {
  import opened Wrappers
  import opened Digits
  import opened PathModel
  import opened FileSystem
  import Timestamps
  import Transform

  type Timestamp = Timestamps.Timestamp

  datatype VersionInfo = VersionInfo(
    version_id: string, path: Path, git_sha: Option<string>, timestamp: Timestamp)

  datatype LoadError =
    | UnsupportedFormat(write_format: string)   // the ValueError for a format other than parquet
    | StorageError(path: Path)                  // mkdir or write refused by the filesystem

  // ---------------------------------------------------------------------------
  // Version ids: `now.strftime("%Y%m%d_%H%M%S")`

  function DatePart(t: Timestamp): string
    requires Timestamps.Valid(t)
  {
    Pad(t.year, 4) + Pad(t.month, 2) + Pad(t.day, 2)
  }

  function TimePart(t: Timestamp): string
    requires Timestamps.Valid(t)
  {
    Pad(t.hour, 2) + Pad(t.minute, 2) + Pad(t.second, 2)
  }

  /** Fifteen characters: eight digits of date, `_`, six digits of time of day. */
  function NewVersionId(now: Timestamp): (id: string)
    requires Timestamps.Valid(now)
    ensures |id| == 15 && id[8] == '_'
    ensures AllDigits(id[..8]) && AllDigits(id[9..])
    ensures IsName(id)
  {
    var id := DatePart(now) + "_" + TimePart(now);
    assert id[..8] == DatePart(now);
    assert id[9..] == TimePart(now);
    assert '/' !in id by {
      assert forall i :: 0 <= i < 8 ==> id[i] == id[..8][i];
      assert forall i :: 9 <= i < 15 ==> id[i] == id[9..][i - 9];
    }
    id
  }

  lemma ConcatEq(a1: string, b1: string, a2: string, b2: string)
    requires |a1| == |a2|
    ensures a1 + b1 == a2 + b2 <==> a1 == a2 && b1 == b2
  {
    if a1 + b1 == a2 + b2 {
      assert a1 == (a1 + b1)[..|a1|] && a2 == (a2 + b2)[..|a2|];
      assert b1 == (a1 + b1)[|a1|..] && b2 == (a2 + b2)[|a2|..];
    }
  }

  /** Three fixed-width fields compare field by field, the first deciding first. */
  lemma Compare3(a1: string, b1: string, c1: string, a2: string, b2: string, c2: string)
    requires |a1| == |a2| && |b1| == |b2|
    ensures LexLess(a1 + b1 + c1, a2 + b2 + c2) <==>
      LexLess(a1, a2) || (a1 == a2 && (LexLess(b1, b2) || (b1 == b2 && LexLess(c1, c2))))
    ensures a1 + b1 + c1 == a2 + b2 + c2 <==> a1 == a2 && b1 == b2 && c1 == c2
  {
    LexLessConcat(a1 + b1, c1, a2 + b2, c2);
    LexLessConcat(a1, b1, a2, b2);
    ConcatEq(a1 + b1, c1, a2 + b2, c2);
    ConcatEq(a1, b1, a2, b2);
  }

  lemma DatePartOrder(a: Timestamp, b: Timestamp)
    requires Timestamps.Valid(a) && Timestamps.Valid(b)
    ensures LexLess(DatePart(a), DatePart(b)) <==>
      a.year < b.year || (a.year == b.year && (a.month < b.month || (a.month == b.month && a.day < b.day)))
    ensures DatePart(a) == DatePart(b) <==> a.year == b.year && a.month == b.month && a.day == b.day
  {
    Compare3(Pad(a.year, 4), Pad(a.month, 2), Pad(a.day, 2), Pad(b.year, 4), Pad(b.month, 2), Pad(b.day, 2));
    PadOrder(a.year, b.year, 4);
    PadOrder(a.month, b.month, 2);
    PadOrder(a.day, b.day, 2);
    PadInjective(a.year, b.year, 4);
    PadInjective(a.month, b.month, 2);
    PadInjective(a.day, b.day, 2);
  }

  lemma TimePartOrder(a: Timestamp, b: Timestamp)
    requires Timestamps.Valid(a) && Timestamps.Valid(b)
    ensures LexLess(TimePart(a), TimePart(b)) <==>
      a.hour < b.hour || (a.hour == b.hour && (a.minute < b.minute || (a.minute == b.minute && a.second < b.second)))
    ensures TimePart(a) == TimePart(b) <==> a.hour == b.hour && a.minute == b.minute && a.second == b.second
  {
    Compare3(Pad(a.hour, 2), Pad(a.minute, 2), Pad(a.second, 2), Pad(b.hour, 2), Pad(b.minute, 2), Pad(b.second, 2));
    PadOrder(a.hour, b.hour, 2);
    PadOrder(a.minute, b.minute, 2);
    PadOrder(a.second, b.second, 2);
    PadInjective(a.hour, b.hour, 2);
    PadInjective(a.minute, b.minute, 2);
    PadInjective(a.second, b.second, 2);
  }

  /** Comparing version ids as strings is comparing the clock readings, to the second. */
  lemma VersionIdOrder(a: Timestamp, b: Timestamp)
    requires Timestamps.Valid(a) && Timestamps.Valid(b)
    ensures LexLess(NewVersionId(a), NewVersionId(b)) <==> Timestamps.EarlierSecond(a, b)
  {
    Compare3(DatePart(a), "_", TimePart(a), DatePart(b), "_", TimePart(b));
    DatePartOrder(a, b);
    TimePartOrder(a, b);
    assert !LexLess("_", "_") by { LexLessSingle('_', '_'); }
  }

  /** Two readings get the same version id exactly when they fall in the same second. */
  lemma VersionIdEqual(a: Timestamp, b: Timestamp)
    requires Timestamps.Valid(a) && Timestamps.Valid(b)
    ensures NewVersionId(a) == NewVersionId(b) <==> Timestamps.SameSecond(a, b)
  {
    Compare3(DatePart(a), "_", TimePart(a), DatePart(b), "_", TimePart(b));
    DatePartOrder(a, b);
    TimePartOrder(a, b);
  }

  /** `%Y%m%d_%H%M%S`: each field of the id reads back as its clock field. */
  lemma VersionIdFields(now: Timestamp)
    requires Timestamps.Valid(now)
    ensures var id := NewVersionId(now);
      && Value(id[..4]) == now.year && Value(id[4..6]) == now.month && Value(id[6..8]) == now.day
      && Value(id[9..11]) == now.hour && Value(id[11..13]) == now.minute && Value(id[13..]) == now.second
  {
    var id := NewVersionId(now);
    var y, mo, d := Pad(now.year, 4), Pad(now.month, 2), Pad(now.day, 2);
    var h, mi, s := Pad(now.hour, 2), Pad(now.minute, 2), Pad(now.second, 2);
    assert id == y + mo + d + "_" + h + mi + s;
    assert id[..4] == y && id[4..6] == mo && id[6..8] == d;
    assert id[9..11] == h && id[11..13] == mi && id[13..] == s;
    assert Pow10(2) == 100 && Pow10(4) == 10000;
    ValuePad(now.year, 4);
    ValuePad(now.month, 2);
    ValuePad(now.day, 2);
    ValuePad(now.hour, 2);
    ValuePad(now.minute, 2);
    ValuePad(now.second, 2);
  }

  // ---------------------------------------------------------------------------
  // The write, as a function of the filesystem state

  /** The effects of a complete write, in the order they happen. */
  function WriteSteps(root: Path, version_dir: Path, file: Path, latest: Path): seq<Effect> {
    [MadeDirs(root), MadeDirs(version_dir), Wrote(file), Wrote(latest)]
  }

  /**
   * `load_versioned`: create the dataset root, create the version directory,
   * check the format, write the data file, then overwrite `LATEST`.  Each
   * `Path / name` here joins a single component, so it appends (see `Layout`).
   */
  function LoadSpec(
    s: FsState, df: Transform.OutFrame, dataset_root: string, write_format: string,
    git_sha: Option<string>, now: Timestamp, finished: Timestamp): (FsState, Result<VersionInfo, LoadError>)
    requires Timestamps.Valid(now)
  {
    var root := ParsePath(dataset_root);
    if !CanMakeDirs(s, root) then (s, Failure(StorageError(root))) else
    var s1 := AfterMakeDirs(s, root);
    var version_id := NewVersionId(now);
    var version_path := root + [version_id];
    if !CanMakeDirs(s1, version_path) then (s1, Failure(StorageError(version_path))) else
    var s2 := AfterMakeDirs(s1, version_path);
    if write_format != "parquet" then (s2, Failure(UnsupportedFormat(write_format))) else
    var file_path := version_path + ["data.parquet"];
    if !CanWrite(s2, file_path) then (s2, Failure(StorageError(file_path))) else
    var s3 := AfterWrite(s2, file_path, ParquetTable(df));
    var latest := root + ["LATEST"];
    if !CanWrite(s3, latest) then (s3, Failure(StorageError(latest))) else
    var s4 := AfterWrite(s3, latest, Text(Render(file_path)));
    (s4, Success(VersionInfo(version_id, file_path, git_sha, finished)))
  }

  /** Where a write puts things, under the parsed dataset root. */
  function VersionDir(dataset_root: string, now: Timestamp): Path
    requires Timestamps.Valid(now)
  {
    ParsePath(dataset_root) + [NewVersionId(now)]
  }

  function DataFile(dataset_root: string, now: Timestamp): Path
    requires Timestamps.Valid(now)
  {
    VersionDir(dataset_root, now) + ["data.parquet"]
  }

  function LatestFile(dataset_root: string): Path {
    ParsePath(dataset_root) + ["LATEST"]
  }

  lemma DataFileName(write_format: string)
    requires write_format == "parquet"
    ensures "data." + write_format == "data.parquet"
  {
  }

  lemma FixedNames()
    ensures IsName("LATEST") && IsName("data.parquet")
  {
    assert "data.parquet"[4] == '.';
  }

  /** The joins `load_versioned` performs each append one component. */
  lemma JoinLayout(dataset_root: string, now: Timestamp)
    requires Timestamps.Valid(now)
    ensures Join(ParsePath(dataset_root), NewVersionId(now)) == VersionDir(dataset_root, now)
    ensures Join(VersionDir(dataset_root, now), "data.parquet") == DataFile(dataset_root, now)
    ensures Join(ParsePath(dataset_root), "LATEST") == LatestFile(dataset_root)
  {
    FixedNames();
    JoinName(ParsePath(dataset_root), NewVersionId(now));
    JoinName(VersionDir(dataset_root, now), "data.parquet");
    JoinName(ParsePath(dataset_root), "LATEST");
  }

  /** The data file's path is well formed and differs from the pointer's. */
  lemma Layout(dataset_root: string, now: Timestamp)
    requires Timestamps.Valid(now)
    ensures WellFormed(DataFile(dataset_root, now))
    ensures LatestFile(dataset_root) != DataFile(dataset_root, now)
  {
    var root := ParsePath(dataset_root);
    var id := NewVersionId(now);
    FixedNames();
    assert WellFormed(root + [id] + ["data.parquet"]) by {
      assert WellFormed(root);
      assert IsName(id);
    }
    assert |root + ["LATEST"]| != |root + [id] + ["data.parquet"]|;
  }

  /** On success: parquet was asked for, and the record carries the id, the data path and `git_sha`. */
  lemma LoadSuccessResult(
    s: FsState, df: Transform.OutFrame, dataset_root: string, write_format: string,
    git_sha: Option<string>, now: Timestamp, finished: Timestamp)
    requires Timestamps.Valid(now)
    ensures var r := LoadSpec(s, df, dataset_root, write_format, git_sha, now, finished).1;
      r.Success? ==>
        && write_format == "parquet"
        && r.value == VersionInfo(NewVersionId(now), DataFile(dataset_root, now), git_sha, finished)
  {
  }

  /** On success: the table is at `root/<id>/data.parquet` and `root/LATEST` holds that path's text. */
  lemma LoadSuccessFiles(
    s: FsState, df: Transform.OutFrame, dataset_root: string, write_format: string,
    git_sha: Option<string>, now: Timestamp, finished: Timestamp)
    requires Timestamps.Valid(now)
    ensures var res := LoadSpec(s, df, dataset_root, write_format, git_sha, now, finished);
      var file, latest := DataFile(dataset_root, now), LatestFile(dataset_root);
      res.1.Success? ==>
        res.0.files == s.files[file := ParquetTable(df)][latest := Text(Render(file))]
  {
  }

  /** On success: the effects were root, version directory, data file, pointer, in that order. */
  lemma LoadSuccessOrder(
    s: FsState, df: Transform.OutFrame, dataset_root: string, write_format: string,
    git_sha: Option<string>, now: Timestamp, finished: Timestamp)
    requires Timestamps.Valid(now)
    ensures var res := LoadSpec(s, df, dataset_root, write_format, git_sha, now, finished);
      res.1.Success? ==>
        res.0.journal == s.journal
          + WriteSteps(ParsePath(dataset_root), VersionDir(dataset_root, now),
                       DataFile(dataset_root, now), LatestFile(dataset_root))
  {
  }

  /**
   * After a successful write, reading `LATEST` and parsing its text as a path
   * leads to a file that holds the table just written.
   */
  lemma LoadPointerResolves(
    s: FsState, df: Transform.OutFrame, dataset_root: string, write_format: string,
    git_sha: Option<string>, now: Timestamp, finished: Timestamp)
    requires Timestamps.Valid(now)
    ensures var res := LoadSpec(s, df, dataset_root, write_format, git_sha, now, finished);
      var latest := LatestFile(dataset_root);
      res.1.Success? ==>
        && latest in res.0.files && res.0.files[latest].Text?
        && var target := ParsePath(res.0.files[latest].text);
          target == res.1.value.path && target in res.0.files && res.0.files[target] == ParquetTable(df)
  {
    LoadSuccessFiles(s, df, dataset_root, write_format, git_sha, now, finished);
    LoadSuccessResult(s, df, dataset_root, write_format, git_sha, now, finished);
    Layout(dataset_root, now);
    RenderRoundTrip(DataFile(dataset_root, now));
  }

  lemma MakeDirsExtend(s: FsState, p: Path, n: string)
    requires CanMakeDirs(s, p + [n])
    ensures CanMakeDirs(s, p)
    ensures CanMakeDirs(AfterMakeDirs(s, p), p + [n])
  {
    forall i | 0 < i <= |p|
      ensures p[..i] !in s.files
    {
      assert (p + [n])[..i] == p[..i];
    }
  }

  /** A format other than parquet (csv included) fails and writes no file, so `LATEST` keeps its content. */
  lemma LoadRejectsFormat(
    s: FsState, df: Transform.OutFrame, dataset_root: string, write_format: string,
    git_sha: Option<string>, now: Timestamp, finished: Timestamp)
    requires Timestamps.Valid(now)
    requires write_format != "parquet"
    ensures var res := LoadSpec(s, df, dataset_root, write_format, git_sha, now, finished);
      res.1.Failure? && res.0.files == s.files
  {
  }

  /**
   * When nothing is in the way of the directories, a rejected format is
   * reported as such, after the dataset root and the version directory have
   * been created: those two effects, and no others, happened.
   */
  lemma LoadRejectsFormatAfterDirs(
    s: FsState, df: Transform.OutFrame, dataset_root: string, write_format: string,
    git_sha: Option<string>, now: Timestamp, finished: Timestamp)
    requires Timestamps.Valid(now)
    requires write_format != "parquet"
    requires CanMakeDirs(s, VersionDir(dataset_root, now))
    ensures var res := LoadSpec(s, df, dataset_root, write_format, git_sha, now, finished);
      && res.1 == Failure(UnsupportedFormat(write_format))
      && res.0.journal == s.journal + [MadeDirs(ParsePath(dataset_root)), MadeDirs(VersionDir(dataset_root, now))]
  {
    MakeDirsExtend(s, ParsePath(dataset_root), NewVersionId(now));
  }

  /** In the same situation both directories exist afterwards. */
  lemma LoadRejectsFormatDirs(
    s: FsState, df: Transform.OutFrame, dataset_root: string, write_format: string,
    git_sha: Option<string>, now: Timestamp, finished: Timestamp)
    requires Timestamps.Valid(now)
    requires Consistent(s)
    requires write_format != "parquet"
    requires CanMakeDirs(s, VersionDir(dataset_root, now))
    ensures var s' := LoadSpec(s, df, dataset_root, write_format, git_sha, now, finished).0;
      ParsePath(dataset_root) in s'.dirs && VersionDir(dataset_root, now) in s'.dirs
  {
    var root := ParsePath(dataset_root);
    var v := VersionDir(dataset_root, now);
    MakeDirsExtend(s, root, NewVersionId(now));
    var s1 := AfterMakeDirs(s, root);
    var s2 := AfterMakeDirs(s1, v);
    assert root in s1.dirs by {
      if root != [] {
        assert root == root[..|root|];
      }
    }
    assert v in s2.dirs by {
      assert v == v[..|v|];
    }
  }

  /** Whatever makes a write fail, `LATEST` is left as it was (or absent). */
  lemma LoadFailureKeepsPointer(
    s: FsState, df: Transform.OutFrame, dataset_root: string, write_format: string,
    git_sha: Option<string>, now: Timestamp, finished: Timestamp)
    requires Timestamps.Valid(now)
    ensures var res := LoadSpec(s, df, dataset_root, write_format, git_sha, now, finished);
      var latest := LatestFile(dataset_root);
      res.1.Failure? ==>
        && (latest in res.0.files <==> latest in s.files)
        && (latest in s.files ==> res.0.files[latest] == s.files[latest])
  {
    Layout(dataset_root, now);
  }

  /** `p` lies strictly inside the directory `root`. */
  predicate Under(p: Path, root: Path) {
    |root| < |p| && p[..|root|] == root
  }

  /** A write creates no directory but the dataset root, its ancestors and the version directory. */
  lemma LoadFrameDirs(
    s: FsState, df: Transform.OutFrame, dataset_root: string, write_format: string,
    git_sha: Option<string>, now: Timestamp, finished: Timestamp)
    requires Timestamps.Valid(now)
    ensures var s' := LoadSpec(s, df, dataset_root, write_format, git_sha, now, finished).0;
      forall d :: d in s'.dirs && d !in s.dirs ==> IsPrefixOf(d, VersionDir(dataset_root, now))
  {
    var root := ParsePath(dataset_root);
    var v := VersionDir(dataset_root, now);
    forall d | d in Prefixes(root)
      ensures IsPrefixOf(d, v)
    {
      var i :| 0 < i <= |root| && d == root[..i];
      assert v[..i] == root[..i];
    }
  }

  /** From `s` to `s'`, no file was removed and files changed only strictly inside `root`. */
  predicate FilesFramed(s: FsState, s': FsState, root: Path) {
    && s.files.Keys <= s'.files.Keys
    && forall p :: p in s'.files && (p !in s.files || s'.files[p] != s.files[p]) ==> Under(p, root)
  }

  lemma FramedWrite(s: FsState, s': FsState, root: Path, p: Path, c: Content)
    requires FilesFramed(s, s', root) && CanWrite(s', p) && Under(p, root)
    ensures FilesFramed(s, AfterWrite(s', p, c), root)
  {
  }

  /** A write adds or changes files only strictly inside the dataset root, and removes none. */
  lemma LoadFrameFiles(
    s: FsState, df: Transform.OutFrame, dataset_root: string, write_format: string,
    git_sha: Option<string>, now: Timestamp, finished: Timestamp)
    requires Timestamps.Valid(now)
    ensures FilesFramed(s, LoadSpec(s, df, dataset_root, write_format, git_sha, now, finished).0,
                        ParsePath(dataset_root))
  {
    var root := ParsePath(dataset_root);
    var file, latest := DataFile(dataset_root, now), LatestFile(dataset_root);
    assert Under(file, root) by {
      assert file[..|root|] == root;
    }
    assert Under(latest, root) by {
      assert latest[..|root|] == root;
    }
    if CanMakeDirs(s, root) {
      var s2 := AfterMakeDirs(AfterMakeDirs(s, root), VersionDir(dataset_root, now));
      assert FilesFramed(s, s2, root);
      if write_format == "parquet" && CanWrite(s2, file) {
        FramedWrite(s, s2, root, file, ParquetTable(df));
        var s3 := AfterWrite(s2, file, ParquetTable(df));
        if CanWrite(s3, latest) {
          FramedWrite(s, s3, root, latest, Text(Render(file)));
        }
      }
    }
  }

  /**
   * The effects of a write, failed or not, are a prefix of: root, version
   * directory, data file, pointer; all four happen exactly when it succeeds,
   * so the pointer is never written before the data file.
   */
  lemma LoadFrameOrder(
    s: FsState, df: Transform.OutFrame, dataset_root: string, write_format: string,
    git_sha: Option<string>, now: Timestamp, finished: Timestamp)
    requires Timestamps.Valid(now)
    ensures var res := LoadSpec(s, df, dataset_root, write_format, git_sha, now, finished);
      var steps := WriteSteps(ParsePath(dataset_root), VersionDir(dataset_root, now),
                              DataFile(dataset_root, now), LatestFile(dataset_root));
      && |s.journal| <= |res.0.journal| && res.0.journal[..|s.journal|] == s.journal
      && var added := res.0.journal[|s.journal|..];
        |added| <= 4 && added == steps[..|added|] && (res.1.Success? <==> |added| == 4)
  {
  }

  /**
   * Two successful writes whose clock readings fall in the same second use
   * the same directory: the second overwrites the first one's data file, and
   * `LATEST` names that file both times.
   */
  lemma LoadSameSecond(
    s: FsState, df1: Transform.OutFrame, df2: Transform.OutFrame, dataset_root: string,
    git_sha: Option<string>, now1: Timestamp, now2: Timestamp, finished1: Timestamp, finished2: Timestamp)
    requires Timestamps.Valid(now1) && Timestamps.Valid(now2)
    requires Timestamps.SameSecond(now1, now2)
    ensures var res1 := LoadSpec(s, df1, dataset_root, "parquet", git_sha, now1, finished1);
      var res2 := LoadSpec(res1.0, df2, dataset_root, "parquet", git_sha, now2, finished2);
      var s1, r1, s2, r2 := res1.0, res1.1, res2.0, res2.1;
      r1.Success? && r2.Success? ==>
        && r1.value.version_id == r2.value.version_id
        && r1.value.path == r2.value.path
        && r2.value.path in s2.files && s2.files[r2.value.path] == ParquetTable(df2)
        && var latest := LatestFile(dataset_root);
          latest in s1.files && latest in s2.files && s2.files[latest] == s1.files[latest]
  {
    VersionIdEqual(now1, now2);
    var s1 := LoadSpec(s, df1, dataset_root, "parquet", git_sha, now1, finished1).0;
    LoadSuccessResult(s, df1, dataset_root, "parquet", git_sha, now1, finished1);
    LoadSuccessFiles(s, df1, dataset_root, "parquet", git_sha, now1, finished1);
    LoadSuccessResult(s1, df2, dataset_root, "parquet", git_sha, now2, finished2);
    LoadSuccessFiles(s1, df2, dataset_root, "parquet", git_sha, now2, finished2);
    Layout(dataset_root, now1);
  }

  /** A write keeps the filesystem consistent: parents exist, no path is both file and directory. */
  lemma LoadKeepsConsistent(
    s: FsState, df: Transform.OutFrame, dataset_root: string, write_format: string,
    git_sha: Option<string>, now: Timestamp, finished: Timestamp)
    requires Timestamps.Valid(now)
    requires Consistent(s)
    ensures Consistent(LoadSpec(s, df, dataset_root, write_format, git_sha, now, finished).0)
  {
    var root := ParsePath(dataset_root);
    if CanMakeDirs(s, root) {
      MakeDirsKeepsConsistent(s, root);
      var s1 := AfterMakeDirs(s, root);
      var v := root + [NewVersionId(now)];
      if CanMakeDirs(s1, v) {
        MakeDirsKeepsConsistent(s1, v);
        var s2 := AfterMakeDirs(s1, v);
        var file := v + ["data.parquet"];
        if write_format == "parquet" && CanWrite(s2, file) {
          WriteKeepsConsistent(s2, file, ParquetTable(df));
          var s3 := AfterWrite(s2, file, ParquetTable(df));
          var latest := root + ["LATEST"];
          if CanWrite(s3, latest) {
            WriteKeepsConsistent(s3, latest, Text(Render(file)));
          }
        }
      }
    }
  }

  // ---------------------------------------------------------------------------
  // The write, as the program performs it

  /** `ensure_dir`: create the directory and any missing parents; nothing if it exists. */
  method EnsureDir(fs: Store, path: Path) returns (r: Result<Unit, LoadError>)
    modifies fs
    ensures r.Success? == CanMakeDirs(old(fs.State()), path)
    ensures r.Failure? ==> r.error == StorageError(path)
    ensures fs.State() == if r.Success? then AfterMakeDirs(old(fs.State()), path) else old(fs.State())
    ensures Consistent(old(fs.State())) && path in old(fs.dirs) ==>
      r.Success? && fs.dirs == old(fs.dirs) && fs.files == old(fs.files)
  {
    if Consistent(fs.State()) && path in fs.dirs {
      MakeDirsIdempotent(fs.State(), path);
    }
    var ok := fs.MakeDirs(path);
    r := if ok then Success(Unit) else Failure(StorageError(path));
  }

  /** `write_latest_pointer`: the pointer file's whole content becomes the rendered path. */
  method WriteLatestPointer(fs: Store, latest_path: Path, version_path: Path) returns (r: Result<Unit, LoadError>)
    modifies fs
    ensures r.Success? == CanWrite(old(fs.State()), latest_path)
    ensures r.Failure? ==> r.error == StorageError(latest_path)
    ensures fs.State() ==
      if r.Success? then AfterWrite(old(fs.State()), latest_path, Text(Render(version_path))) else old(fs.State())
  {
    var ok := fs.Write(latest_path, Text(Render(version_path)));
    r := if ok then Success(Unit) else Failure(StorageError(latest_path));
  }

  /** `load_versioned`, with the two clock readings passed in. */
  method LoadVersioned(
    fs: Store, df: Transform.OutFrame, dataset_root: string, write_format: string,
    git_sha: Option<string>, now: Timestamp, finished: Timestamp) returns (r: Result<VersionInfo, LoadError>)
    requires Timestamps.Valid(now)
    modifies fs
    ensures (fs.State(), r) == LoadSpec(old(fs.State()), df, dataset_root, write_format, git_sha, now, finished)
  {
    JoinLayout(dataset_root, now);
    ghost var s0 := fs.State();
    var root := ParsePath(dataset_root);
    var made := EnsureDir(fs, root);
    if made.Failure? {
      return Failure(made.error);
    }
    ghost var s1 := fs.State();
    var version_id := NewVersionId(now);
    var version_path := Join(root, version_id);
    made := EnsureDir(fs, version_path);
    if made.Failure? {
      return Failure(made.error);
    }
    ghost var s2 := fs.State();
    assert s2 == AfterMakeDirs(AfterMakeDirs(s0, root), version_path);
    var filename := "data." + write_format;
    if write_format == "parquet" {
      DataFileName(write_format);
      var file_path := Join(version_path, filename);
      assert file_path == DataFile(dataset_root, now);
      var ok := fs.Write(file_path, ParquetTable(df));
      if !ok {
        return Failure(StorageError(file_path));
      }
      var latest_pointer := Join(root, "LATEST");
      var written := WriteLatestPointer(fs, latest_pointer, file_path);
      if written.Failure? {
        return Failure(written.error);
      }
      r := Success(VersionInfo(version_id, file_path, git_sha, finished));
    } else {
      r := Failure(UnsupportedFormat(write_format));
    }
  }
}
