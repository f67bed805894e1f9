/**
 * The run configuration: plain records whose fields carry defaults, and the
 * validation that turns a parsed document into an `AppConfig` (string fields
 * restricted to a few literals, omitted fields replaced by their defaults).
 */
module Config {
  import opened Wrappers

  datatype Paths = Paths(base: string, bronze: string, silver: string, gold: string)

  datatype Dataset = Dataset(name: string, input_path: string)

  datatype Features = Features(enable_new_metric: bool := false, drop_negative_amounts: bool := true)

  datatype RunCfg = RunCfg(write_format: string := "parquet", max_rows_smoke: int := 200)

  datatype AppConfig = AppConfig(
    env: string, paths: Paths, dataset: Dataset,
    features: Features := Features(), run: RunCfg := RunCfg())

  /** A parsed document before validation: every field that has a default may be omitted. */
  datatype RawFeatures = RawFeatures(enable_new_metric: Option<bool>, drop_negative_amounts: Option<bool>)

  datatype RawRunCfg = RawRunCfg(write_format: Option<string>, max_rows_smoke: Option<int>)

  datatype RawConfig = RawConfig(
    env: string, paths: Paths, dataset: Dataset,
    features: Option<RawFeatures>, run: Option<RawRunCfg>)

  /** A validation failure names every offending field, in declaration order. */
  datatype ConfigError = ValidationError(fields: seq<string>)

  /** `env: Literal["dev", "staging", "prod"]` */
  predicate ValidEnv(env: string) {
    env == "dev" || env == "staging" || env == "prod"
  }

  /** `write_format: Literal["parquet", "csv"]` */
  predicate ValidWriteFormat(f: string) {
    f == "parquet" || f == "csv"
  }

  predicate ValidAppConfig(c: AppConfig) {
    ValidEnv(c.env) && ValidWriteFormat(c.run.write_format)
  }

  function OrElse<T>(o: Option<T>, default: T): T {
    if o.Some? then o.value else default
  }

  /** Each flag supplied in the document is copied; an omitted one (or an omitted section) takes its default. */
  function FillFeatures(raw: Option<RawFeatures>): (f: Features)
    ensures raw.Some? && raw.value.enable_new_metric.Some? ==>
      f.enable_new_metric == raw.value.enable_new_metric.value
    ensures (raw.None? || raw.value.enable_new_metric.None?) ==> !f.enable_new_metric
    ensures raw.Some? && raw.value.drop_negative_amounts.Some? ==>
      f.drop_negative_amounts == raw.value.drop_negative_amounts.value
    ensures (raw.None? || raw.value.drop_negative_amounts.None?) ==> f.drop_negative_amounts
  {
    match raw
    case None => Features()
    case Some(rf) =>
      Features(
        OrElse(rf.enable_new_metric, Features().enable_new_metric),
        OrElse(rf.drop_negative_amounts, Features().drop_negative_amounts))
  }

  /** Each run setting supplied in the document is copied; an omitted one takes its default. */
  function FillRunCfg(raw: Option<RawRunCfg>): (c: RunCfg)
    ensures raw.Some? && raw.value.write_format.Some? ==> c.write_format == raw.value.write_format.value
    ensures (raw.None? || raw.value.write_format.None?) ==> c.write_format == "parquet"
    ensures raw.Some? && raw.value.max_rows_smoke.Some? ==> c.max_rows_smoke == raw.value.max_rows_smoke.value
    ensures (raw.None? || raw.value.max_rows_smoke.None?) ==> c.max_rows_smoke == 200
  {
    match raw
    case None => RunCfg()
    case Some(rr) =>
      RunCfg(
        OrElse(rr.write_format, RunCfg().write_format),
        OrElse(rr.max_rows_smoke, RunCfg().max_rows_smoke))
  }

  /** `AppConfig.model_validate` on an already parsed document. */
  function Validate(raw: RawConfig): (r: Result<AppConfig, ConfigError>)
    ensures r.Success? <==> ValidEnv(raw.env) && ValidWriteFormat(FillRunCfg(raw.run).write_format)
    ensures r.Success? ==> ValidAppConfig(r.value)
    ensures r.Success? ==>
      && r.value.env == raw.env && r.value.paths == raw.paths && r.value.dataset == raw.dataset
      && (raw.features.None? ==> r.value.features == Features(false, true))
      && (raw.run.None? ==> r.value.run == RunCfg("parquet", 200))
    ensures r.Success? ==>
      r.value.features == FillFeatures(raw.features) && r.value.run == FillRunCfg(raw.run)
    ensures r.Failure? ==> forall x :: x in r.error.fields ==> x == "env" || x == "run.write_format"
    ensures r.Failure? ==>
      && ("env" in r.error.fields <==> !ValidEnv(raw.env))
      && ("run.write_format" in r.error.fields <==> !ValidWriteFormat(FillRunCfg(raw.run).write_format))
  {
    var features := FillFeatures(raw.features);
    var run := FillRunCfg(raw.run);
    var bad := (if ValidEnv(raw.env) then [] else ["env"])
      + (if ValidWriteFormat(run.write_format) then [] else ["run.write_format"]);
    if bad == [] then Success(AppConfig(raw.env, raw.paths, raw.dataset, features, run))
    else Failure(ValidationError(bad))
  }

  /** The record defaults: no new metric, negatives dropped, parquet, a 200-row smoke run. */
  lemma DefaultsAreValid(env: string, paths: Paths, dataset: Dataset)
    requires ValidEnv(env)
    ensures ValidAppConfig(AppConfig(env, paths, dataset))
    ensures AppConfig(env, paths, dataset).features == Features(false, true)
    ensures AppConfig(env, paths, dataset).run == RunCfg("parquet", 200)
  {
  }

  /** `Features.model_dump()`: one entry per field, under the field's name. */
  function DumpFeatures(f: Features): (m: map<string, bool>)
    ensures m.Keys == {"enable_new_metric", "drop_negative_amounts"}
    ensures m["enable_new_metric"] == f.enable_new_metric
    ensures m["drop_negative_amounts"] == f.drop_negative_amounts
  {
    map["enable_new_metric" := f.enable_new_metric, "drop_negative_amounts" := f.drop_negative_amounts]
  }

  /** Validating a dumped record gives the record back. */
  lemma DumpRoundTrip(f: Features)
    ensures var m := DumpFeatures(f);
      FillFeatures(Some(RawFeatures(Some(m["enable_new_metric"]), Some(m["drop_negative_amounts"])))) == f
  {
  }
}
