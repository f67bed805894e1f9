/**
 * The batch run: choose the environment, read the sales table, count its
 * rows, cut it down in a smoke run, transform it, write a new version of the
 * silver dataset, and record the run's lineage next to the versions.
 */
module Pipeline {
  import opened Wrappers
  import opened PathModel
  import opened FileSystem
  import Config
  import Transform
  import Load
  import Lineage
  import LineageRecord
  import Timestamps

  type Timestamp = Timestamps.Timestamp

  // ---------------------------------------------------------------------------
  // `get_env`

  datatype EnvError = InvalidEnv(env: string)   // the ValueError for an unknown `APP_ENV`

  /** `get_env`, with the value of `APP_ENV` (or its absence) passed in. */
  function GetEnv(app_env: Option<string>): (r: Result<string, EnvError>)
    ensures app_env.None? ==> r == Success("dev")
    ensures app_env.Some? ==>
      && (r.Success? <==> app_env.value == "dev" || app_env.value == "prod")
      && (r.Success? ==> r.value == app_env.value)
      && (r.Failure? ==> r.error == InvalidEnv(app_env.value))
  {
    var env := if app_env.Some? then app_env.value else "dev";
    if env == "dev" || env == "prod" then Success(env) else Failure(InvalidEnv(env))
  }

  /**
   * Every environment `get_env` accepts names a configuration the schema
   * accepts, but not the other way round: `staging` passes the schema and is
   * refused here.
   */
  lemma GetEnvWithinSchema(app_env: Option<string>)
    ensures GetEnv(app_env).Success? ==> Config.ValidEnv(GetEnv(app_env).value)
    ensures Config.ValidEnv("staging") && GetEnv(Some("staging")).Failure?
  {
    assert "staging"[0] != "dev"[0] && "staging"[0] != "prod"[0];
  }

  // ---------------------------------------------------------------------------
  // The pure part of a run: the frame that gets written

  /** `LazyFrame.limit(n)` for `n >= 0`: the first `n` rows, or all of them when there are fewer. */
  function Limit(rows: seq<Transform.Sale>, n: nat): (r: seq<Transform.Sale>)
    ensures |r| == if |rows| <= n then |rows| else n
    ensures r == rows[..|r|]
  {
    if |rows| <= n then rows else rows[..n]
  }

  /** A smoke run with a negative row limit fails before anything is written. */
  predicate LimitRefused(cfg: Config.AppConfig, smoke: bool) {
    smoke && cfg.run.max_rows_smoke < 0
  }

  /** The rows handed to the transformation. */
  function RowsIn(cfg: Config.AppConfig, input: Transform.SalesTable, smoke: bool): seq<Transform.Sale>
    requires !LimitRefused(cfg, smoke)
  {
    if smoke then Limit(input.rows, cfg.run.max_rows_smoke) else input.rows
  }

  /** The collected output of `transform_sales` under the configured features. */
  function Output(cfg: Config.AppConfig, input: Transform.SalesTable, smoke: bool): Transform.OutFrame
    requires !LimitRefused(cfg, smoke)
  {
    Transform.TransformSales(
      Transform.SalesTable(input.columns, RowsIn(cfg, input, smoke)),
      cfg.features.drop_negative_amounts, cfg.features.enable_new_metric)
  }

  /**
   * A smoke run writes at most `max_rows_smoke` rows; without the negative
   * filter it writes exactly the first `max_rows_smoke` rows (or all of them).
   */
  lemma SmokeBound(cfg: Config.AppConfig, input: Transform.SalesTable)
    requires cfg.run.max_rows_smoke >= 0
    ensures var out := Output(cfg, input, true);
      && |out.rows| <= cfg.run.max_rows_smoke
      && |out.rows| <= |input.rows|
      && (!cfg.features.drop_negative_amounts ==>
            forall i :: 0 <= i < |out.rows| ==> out.rows[i].sale == input.rows[i])
  {
    var rows := RowsIn(cfg, input, true);
    var out := Output(cfg, input, true);
    assert |Transform.Kept(rows, cfg.features.drop_negative_amounts)| <= |rows|;
    if !cfg.features.drop_negative_amounts {
      forall i | 0 <= i < |out.rows|
        ensures out.rows[i].sale == input.rows[i]
      {
        assert out.rows[i].sale == rows[i];
        assert rows[i] == input.rows[..|rows|][i];
      }
    }
  }

  /** The row counts recorded for a run: before the smoke limit, and after the transformation. */
  function RowCounts(in_rows: int, out_rows: int): (m: map<string, int>)
    ensures m.Keys == {"input", "output"}
    ensures m["input"] == in_rows && m["output"] == out_rows
  {
    map["input" := in_rows, "output" := out_rows]
  }

  /**
   * `f"{cfg.paths.silver}/{cfg.dataset.name}"`: as a path, the dataset's
   * components under the silver directory; an empty silver setting puts
   * the dataset under the filesystem root.
   */
  function DatasetRoot(cfg: Config.AppConfig): (root: string)
    ensures cfg.paths.silver != "" ==>
      ParsePath(root) == ParsePath(cfg.paths.silver) + Pieces(cfg.dataset.name)
    ensures cfg.paths.silver != "" && IsName(cfg.dataset.name) ==>
      ParsePath(root) == ParsePath(cfg.paths.silver) + [cfg.dataset.name]
    ensures cfg.paths.silver == "" ==> ParsePath(root) == ["/"] + Pieces(cfg.dataset.name)
  {
    ParseSplit(cfg.paths.silver, cfg.dataset.name);
    if IsName(cfg.dataset.name) then
      ParseName(cfg.dataset.name);
      cfg.paths.silver + "/" + cfg.dataset.name
    else
      cfg.paths.silver + "/" + cfg.dataset.name
  }

  // ---------------------------------------------------------------------------
  // The whole run, as a function of the filesystem state

  datatype PipelineError =
    | LimitError(max_rows_smoke: int)              // `limit` refuses a negative row count
    | LoadFailed(load_error: Load.LoadError)       // raised by `load_versioned`
    | LineageFailed(lineage_error: Lineage.LineageError)  // raised by `write_run_metadata`

  /**
   * `run_pipeline`: the input table, `GIT_SHA` and the three clock readings
   * (version id, version timestamp, record creation) are passed in.
   */
  function RunPipelineSpec(
    s: FsState, cfg: Config.AppConfig, input: Transform.SalesTable, smoke: bool,
    git_sha: Option<string>, now: Timestamp, finished: Timestamp, created: Timestamp)
    : (FsState, Result<Unit, PipelineError>)
    requires Timestamps.Valid(now) && Timestamps.Valid(created)
  {
    if LimitRefused(cfg, smoke) then (s, Failure(LimitError(cfg.run.max_rows_smoke))) else
    var out := Output(cfg, input, smoke);
    var root := DatasetRoot(cfg);
    var loaded := Load.LoadSpec(s, out, root, cfg.run.write_format, git_sha, now, finished);
    if loaded.1.Failure? then (loaded.0, Failure(LoadFailed(loaded.1.error))) else
    var recorded := Lineage.WriteRunMetadataSpec(
      loaded.0, root, cfg.env, cfg.dataset.input_path, loaded.1.value.version_id, git_sha,
      Config.DumpFeatures(cfg.features), RowCounts(|input.rows|, |out.rows|), created);
    if recorded.1.Failure? then (recorded.0, Failure(LineageFailed(recorded.1.error)))
    else (recorded.0, Success(Unit))
  }

  /** The record file of a run: `run_<version id>.json` directly inside the dataset root. */
  function RunRecordFile(cfg: Config.AppConfig, now: Timestamp): Path
    requires Timestamps.Valid(now)
  {
    Lineage.RecordPath(DatasetRoot(cfg), Load.NewVersionId(now))
  }

  /** The version id has no `/`, so the record lands beside the versions, in the root `load_versioned` used. */
  lemma RecordBesideVersions(cfg: Config.AppConfig, now: Timestamp)
    requires Timestamps.Valid(now)
    ensures RunRecordFile(cfg, now) ==
      ParsePath(DatasetRoot(cfg)) + [Lineage.RecordName(Load.NewVersionId(now))]
    ensures RunRecordFile(cfg, now) != Load.LatestFile(DatasetRoot(cfg))
    ensures RunRecordFile(cfg, now) != Load.DataFile(DatasetRoot(cfg), now)
  {
    var id := Load.NewVersionId(now);
    var r := ParsePath(DatasetRoot(cfg));
    Lineage.RecordPathLayout(DatasetRoot(cfg), id);
    assert Lineage.RecordName(id)[0] != "LATEST"[0];
    assert RunRecordFile(cfg, now)[|r|] != Load.LatestFile(DatasetRoot(cfg))[|r|];
    assert |RunRecordFile(cfg, now)| != |Load.DataFile(DatasetRoot(cfg), now)|;
  }

  /** A smoke run with a negative limit fails at once and leaves the filesystem untouched. */
  lemma PipelineRefusesNegativeLimit(
    s: FsState, cfg: Config.AppConfig, input: Transform.SalesTable,
    git_sha: Option<string>, now: Timestamp, finished: Timestamp, created: Timestamp)
    requires Timestamps.Valid(now) && Timestamps.Valid(created)
    requires cfg.run.max_rows_smoke < 0
    ensures RunPipelineSpec(s, cfg, input, true, git_sha, now, finished, created)
      == (s, Failure(LimitError(cfg.run.max_rows_smoke)))
  {
  }

  /**
   * On success, the run's record holds the configured environment, the input
   * path, the version id, `GIT_SHA`, the dumped feature flags, and the row
   * counts: all input rows (before any smoke limit) and the rows written.
   */
  lemma PipelineRecord(
    s: FsState, cfg: Config.AppConfig, input: Transform.SalesTable, smoke: bool,
    git_sha: Option<string>, now: Timestamp, finished: Timestamp, created: Timestamp)
    requires Timestamps.Valid(now) && Timestamps.Valid(created)
    ensures var res := RunPipelineSpec(s, cfg, input, smoke, git_sha, now, finished, created);
      var path := RunRecordFile(cfg, now);
      res.1.Success? ==>
        && path in res.0.files && res.0.files[path].JsonRecord?
        && var m := res.0.files[path].record;
          && m.env == cfg.env && m.input.path == cfg.dataset.input_path
          && m.output == LineageRecord.OutputRef(DatasetRoot(cfg), Load.NewVersionId(now))
          && m.git_sha == git_sha && m.features == Config.DumpFeatures(cfg.features)
          && m.row_counts == RowCounts(|input.rows|, |Output(cfg, input, smoke).rows|)
          && Timestamps.FromIsoFormatUtc(m.created_at_utc) == Some(created)
  {
    if !LimitRefused(cfg, smoke) {
      var out := Output(cfg, input, smoke);
      var root := DatasetRoot(cfg);
      var loaded := Load.LoadSpec(s, out, root, cfg.run.write_format, git_sha, now, finished);
      Load.LoadSuccessResult(s, out, root, cfg.run.write_format, git_sha, now, finished);
      if loaded.1.Success? {
        Lineage.LineageContent(
          loaded.0, root, cfg.env, cfg.dataset.input_path, Load.NewVersionId(now), git_sha,
          Config.DumpFeatures(cfg.features), RowCounts(|input.rows|, |out.rows|), created);
      }
    }
  }

  /**
   * On success the effects are, in order: the dataset root, the version
   * directory, the data file, `LATEST`, and last the run's record.
   */
  lemma PipelineOrder(
    s: FsState, cfg: Config.AppConfig, input: Transform.SalesTable, smoke: bool,
    git_sha: Option<string>, now: Timestamp, finished: Timestamp, created: Timestamp)
    requires Timestamps.Valid(now) && Timestamps.Valid(created)
    ensures var res := RunPipelineSpec(s, cfg, input, smoke, git_sha, now, finished, created);
      var root := DatasetRoot(cfg);
      res.1.Success? ==>
        res.0.journal == s.journal
          + Load.WriteSteps(ParsePath(root), Load.VersionDir(root, now),
                            Load.DataFile(root, now), Load.LatestFile(root))
          + [Wrote(RunRecordFile(cfg, now))]
  {
    if !LimitRefused(cfg, smoke) {
      var out := Output(cfg, input, smoke);
      var root := DatasetRoot(cfg);
      var loaded := Load.LoadSpec(s, out, root, cfg.run.write_format, git_sha, now, finished);
      Load.LoadSuccessResult(s, out, root, cfg.run.write_format, git_sha, now, finished);
      Load.LoadSuccessOrder(s, out, root, cfg.run.write_format, git_sha, now, finished);
      if loaded.1.Success? {
        Lineage.LineageFrame(
          loaded.0, root, cfg.env, cfg.dataset.input_path, Load.NewVersionId(now), git_sha,
          Config.DumpFeatures(cfg.features), RowCounts(|input.rows|, |out.rows|), created);
      }
    }
  }

  /**
   * A configuration asking for csv (or any format but parquet) makes the run
   * fail in `load_versioned`: no file is written, so `LATEST` keeps its
   * content and no lineage record appears.
   */
  lemma PipelineRejectsFormat(
    s: FsState, cfg: Config.AppConfig, input: Transform.SalesTable, smoke: bool,
    git_sha: Option<string>, now: Timestamp, finished: Timestamp, created: Timestamp)
    requires Timestamps.Valid(now) && Timestamps.Valid(created)
    requires cfg.run.write_format != "parquet"
    ensures var res := RunPipelineSpec(s, cfg, input, smoke, git_sha, now, finished, created);
      res.1.Failure? && res.0.files == s.files
  {
    if !LimitRefused(cfg, smoke) {
      Load.LoadRejectsFormat(s, Output(cfg, input, smoke), DatasetRoot(cfg), cfg.run.write_format,
                             git_sha, now, finished);
    }
  }

  /**
   * After the data and `LATEST` are written, recording the run can only fail
   * when a directory already sits where the record goes.
   */
  lemma PipelineRecordFailsOnlyOnDirectory(
    s: FsState, cfg: Config.AppConfig, input: Transform.SalesTable, smoke: bool,
    git_sha: Option<string>, now: Timestamp, finished: Timestamp, created: Timestamp)
    requires Timestamps.Valid(now) && Timestamps.Valid(created)
    requires RunRecordFile(cfg, now) !in s.dirs
    ensures var res := RunPipelineSpec(s, cfg, input, smoke, git_sha, now, finished, created);
      res.1.Failure? ==> !res.1.error.LineageFailed?
  {
    if !LimitRefused(cfg, smoke) {
      var out := Output(cfg, input, smoke);
      var root := DatasetRoot(cfg);
      var loaded := Load.LoadSpec(s, out, root, cfg.run.write_format, git_sha, now, finished);
      if loaded.1.Success? {
        Load.LoadSuccessResult(s, out, root, cfg.run.write_format, git_sha, now, finished);
        RecordBesideVersions(cfg, now);
        RecordAfterLoad(s, out, root, cfg.run.write_format, git_sha, now, finished);
        Lineage.LineageOutcome(
          loaded.0, root, cfg.env, cfg.dataset.input_path, Load.NewVersionId(now), git_sha,
          Config.DumpFeatures(cfg.features), RowCounts(|input.rows|, |out.rows|), created);
      }
    }
  }

  /** After a successful load, the record can be written unless a directory already sat at its path. */
  lemma RecordAfterLoad(
    s: FsState, df: Transform.OutFrame, root: string, write_format: string,
    git_sha: Option<string>, now: Timestamp, finished: Timestamp)
    requires Timestamps.Valid(now)
    requires ParsePath(root) + [Lineage.RecordName(Load.NewVersionId(now))] !in s.dirs
    ensures var loaded := Load.LoadSpec(s, df, root, write_format, git_sha, now, finished);
      loaded.1.Success? ==> CanWrite(loaded.0, ParsePath(root) + [Lineage.RecordName(Load.NewVersionId(now))])
  {
    var loaded := Load.LoadSpec(s, df, root, write_format, git_sha, now, finished);
    var r := ParsePath(root);
    var id := Load.NewVersionId(now);
    var p := r + [Lineage.RecordName(id)];
    if loaded.1.Success? {
      Load.LoadFrameDirs(s, df, root, write_format, git_sha, now, finished);
      var v := Load.VersionDir(root, now);
      assert Lineage.RecordName(id)[0] == 'r';
      assert p[|r|] != v[|r|];
      assert !IsPrefixOf(p, v);
      assert p[..|p| - 1] == r;
      assert r in loaded.0.dirs by {
        if r != [] {
          assert r == r[..|r|];
        }
      }
    }
  }

  /**
   * Three sales of which one is negative, with the default features and no
   * smoke limit: three input rows and two output rows are recorded.
   */
  lemma DefaultRunCounts(cfg: Config.AppConfig, others: map<string, string>)
    requires cfg.features == Config.Features()
    ensures var input := Transform.SalesTable(["amount"],
              [Transform.Sale(10, others), Transform.Sale(-5, others), Transform.Sale(0, others)]);
      RowCounts(|input.rows|, |Output(cfg, input, false).rows|) == map["input" := 3, "output" := 2]
  {
    Transform.DropNegativeExample(others);
  }

  /** `run_pipeline`, with the input table, `GIT_SHA` and the clock readings passed in. */
  method RunPipeline(
    fs: Store, cfg: Config.AppConfig, input: Transform.SalesTable, smoke: bool,
    git_sha: Option<string>, now: Timestamp, finished: Timestamp, created: Timestamp)
    returns (r: Result<Unit, PipelineError>)
    requires Timestamps.Valid(now) && Timestamps.Valid(created)
    modifies fs
    ensures (fs.State(), r) == RunPipelineSpec(old(fs.State()), cfg, input, smoke, git_sha, now, finished, created)
  {
    var in_rows := |input.rows|;
    var rows := input.rows;
    if smoke {
      if cfg.run.max_rows_smoke < 0 {
        return Failure(LimitError(cfg.run.max_rows_smoke));
      }
      rows := Limit(rows, cfg.run.max_rows_smoke);
    }
    var df_out := Transform.TransformSales(
      Transform.SalesTable(input.columns, rows),
      cfg.features.drop_negative_amounts, cfg.features.enable_new_metric);
    var out_rows := |df_out.rows|;
    var dataset_root := cfg.paths.silver + "/" + cfg.dataset.name;
    var info := Load.LoadVersioned(fs, df_out, dataset_root, cfg.run.write_format, git_sha, now, finished);
    if info.Failure? {
      return Failure(LoadFailed(info.error));
    }
    var recorded := Lineage.WriteRunMetadata(
      fs, dataset_root, cfg.env, cfg.dataset.input_path, info.value.version_id, git_sha,
      Config.DumpFeatures(cfg.features), map["input" := in_rows, "output" := out_rows], created);
    if recorded.Failure? {
      return Failure(LineageFailed(recorded.error));
    }
    r := Success(Unit);
  }
}
