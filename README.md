# Versioned sales pipeline, modelled in Dafny

This project models the core of a small batch pipeline built on polars. The
pipeline reads a sales table, optionally drops negative amounts, and adds a
euro amount column. When a feature flag is on, it also adds a bucket column.
It then writes the result as a new **version** of a silver dataset and
records the run's **lineage** beside the versions.

The model covers:

- **The run configuration** (`Config`). It models pydantic records whose fields have defaults. Validation restricts `env` and `write_format` to a few literals and fills omitted fields with their defaults. `model_dump` of the feature flags is modelled too.
- **The transformation** (`Transform`). It models the optional filter on `amount >= 0`, the `amount_eur` column and the `low`/`mid`/`high`/`vip` bucket on half-open intervals.
- **The versioned writer** (`Load`). The version id is `%Y%m%d_%H%M%S` of the clock reading. The writer first creates `root` and `root/<id>`, then checks the format, writes `root/<id>/data.parquet`, and only after that overwrites `root/LATEST` with the text of that file's path.
- **The lineage writer** (`LineageRecord`, `Lineage`). It builds the nested record in full, with a UTC `isoformat()` creation time. It then writes that record in one go to `root/run_<version>.json` and does not create the directory.
- **The run** (`Pipeline`). This covers `get_env` and `run_pipeline`.

Supporting modules:

- `Wrappers`: `Option`, `Result` and `Unit`.
- `Digits`: zero-padded decimals and the lexicographic order on strings.
- `Timestamps`: a clock reading, its `isoformat()` rendering and a parser for that rendering.
- `PathModel`: `pathlib` paths as sequences of parts. It covers parsing a string, `/` joining and `str()`.
- `FileSystem`: an abstract filesystem made of a set of directories, a map of files and a journal of effects in the order they happened. A `Store` class updates that filesystem in place.

The filesystem's two primitive updates, `MakeDirs` and `Write`, are methods of the `Store` class. The operations of the pipeline are module-level methods that take the `Store` they change: `EnsureDir`, `WriteLatestPointer`, `LoadVersioned`, `WriteRunMetadata` and `RunPipeline`. Each of the last three has a postcondition that equates the new state and the result with a function of the old state: `LoadSpec`, `WriteRunMetadataSpec` and `RunPipelineSpec` respectively. The lemmas state what these functions promise.

Behaviour of the code worth noting:

- `load_versioned` creates the dataset root and the version directory before it checks the format. So a rejected format, `csv` included, leaves both directories behind and writes no file (`LoadRejectsFormatAfterDirs`, `LoadRejectsFormatDirs`, `LoadRejectsFormat`).
- The `load_versioned` docstring lists `"csv"` as a choice, and the configuration schema accepts it. The writer rejects it.
- `get_env` accepts only `dev` and `prod`, while the configuration schema also accepts `staging` (`GetEnvWithinSchema`).
- `run_pipeline` is annotated as returning a dictionary but returns nothing. Its model returns `Success(Unit)` or the error that stopped it.
- The dataset root is built by string formatting, not by a path join. An empty `silver` setting therefore makes it absolute (`Pipeline.DatasetRoot`).

## Model

| member | source | states |
|---|---|---|
| `Config.Validate` | src/config.py:32-37 | validation succeeds exactly when `env` is dev/staging/prod and `write_format` is parquet/csv. On success, every supplied field is copied and every omitted field or section takes its default (no new metric, negatives dropped, parquet, 200 rows). A failure lists only `env` and `run.write_format`, each exactly when it is invalid |
| `Config.FillFeatures` | src/config.py:22-24 | a flag supplied in the document is copied; an omitted flag or section takes its default, `false` for the new metric and `true` for dropping negatives |
| `Config.FillRunCfg` | src/config.py:27-29 | a run setting supplied in the document is copied; an omitted setting or section takes its default, `"parquet"` and `200` |
| `Config.DefaultsAreValid` | src/config.py:22-29 | a record built from defaults alone is valid and has the documented default values |
| `Config.DumpFeatures` | src/config.py:22-24 | `model_dump()` has exactly the two flag names as keys, each mapped to its flag |
| `Config.DumpRoundTrip` | src/config.py:22-24 | validating the dumped flags gives back the same flags |
| `Transform.DropNegative` | src/steps/transform.py:10-11 | the filter keeps a row exactly when it is in the input with a non-negative amount, and never lengthens the table |
| `Transform.DropNegativeAppend` | src/steps/transform.py:10-11 | the filter works row by row: filtering a concatenation concatenates the filtered parts |
| `Transform.DropNegativeIdentity` | src/steps/transform.py:10-11 | the filter leaves the table unchanged exactly when no amount is negative |
| `Transform.WithColumn` | src/steps/transform.py:13-15 | after `with_columns`, the new name is a column, every old column is kept, and nothing else is added |
| `Transform.Bucket` | src/steps/transform.py:17-24 | each of the four labels is given exactly on its half-open interval: below 20, 20 to 50, 50 to 100, 100 and above |
| `Transform.BucketMonotone` | src/steps/transform.py:17-24 | a larger amount never gets a lower bucket |
| `Transform.TransformSales` | src/steps/transform.py:3-26 | output rows are the kept input rows, in order; without the filter, nothing is dropped; with it, no amount is negative; `amount_eur` equals the amount; a bucket is present exactly when the flag is on and then matches `Bucket`; input columns are kept, `amount_eur` is added, `amount_bucket` is added only with the flag, and no other column appears; when neither name is an input column, the output columns are the input columns followed by `amount_eur` and then, with the flag, `amount_bucket` |
| `Transform.DropNegativeExample` | tests/test_transform.py:10-23 | with the filter on, `[10, -5, 0]` keeps the rows 10 and 0 |
| `Digits.ValuePad` | src/steps/load.py:23-25 | a zero-padded field reads back as the number it was made from |
| `Digits.PadOrder` | src/steps/load.py:23-25 | zero-padded fields of the same width compare as strings exactly as their numbers compare |
| `Load.NewVersionId` | src/steps/load.py:23-25 | a version id has 15 characters: eight digits, `_`, six digits; it is a single path component |
| `Load.VersionIdOrder` | src/steps/load.py:23-25 | one version id sorts before another as a string exactly when its clock reading is in an earlier second |
| `Load.VersionIdEqual` | src/steps/load.py:23-25 | two version ids are equal exactly when both readings fall in the same second |
| `Load.VersionIdFields` | src/steps/load.py:25 | `%Y%m%d_%H%M%S`: characters 0-3 read back as the year, 4-5 as the month, 6-7 as the day, 9-10 as the hour, 11-12 as the minute and 13-14 as the second |
| `Load.JoinLayout` | src/steps/load.py:56-71 | each `/` in the writer appends one component: `root/<id>`, `root/<id>/data.parquet`, `root/LATEST` |
| `Load.Layout` | src/steps/load.py:56-72 | the data file's path is well formed and is never the pointer's path |
| `Load.LoadSuccessResult` | src/steps/load.py:65-76 | success implies parquet was asked for; the result carries the version id, the data file's path and `git_sha` |
| `Load.LoadSuccessFiles` | src/steps/load.py:65-72 | on success, exactly two files change: the data file holds the table, and `LATEST` holds the text of the data file's path |
| `Load.LoadSuccessOrder` | src/steps/load.py:53-72 | on success, the effects are the root directory, the version directory, the data file and `LATEST`, in that order |
| `Load.LoadPointerResolves` | src/steps/load.py:28-30 | after success, parsing the text in `LATEST` as a path leads to the file holding the table just written |
| `Load.LoadRejectsFormat` | src/steps/load.py:65-68 | a format other than parquet fails and changes no file |
| `Load.LoadRejectsFormatAfterDirs` | src/steps/load.py:53-68 | when the directories can be made, a bad format fails with `UnsupportedFormat` after exactly the two directory creations |
| `Load.LoadRejectsFormatDirs` | src/steps/load.py:53-57 | in that case both the root and the version directory exist afterwards |
| `Load.LoadFailureKeepsPointer` | src/steps/load.py:65-72 | whatever makes a write fail, `LATEST` keeps its content, or stays absent |
| `Load.LoadFrameDirs` | src/steps/load.py:18-20 | the only new directories are the version directory and its ancestors |
| `Load.LoadFrameFiles` | src/steps/load.py:65-72 | no file is removed, and files change only strictly inside the dataset root |
| `Load.LoadFrameOrder` | src/steps/load.py:53-76 | the effects of any write, failed or not, are a prefix of root, version directory, data file, pointer; all four happen exactly on success |
| `Load.LoadSameSecond` | src/steps/load.py:23-25 | two successful writes in the same second share a directory; the second table overwrites the first |
| `Load.LoadKeepsConsistent` | src/steps/load.py:33-76 | a write keeps the filesystem's invariant: directories and files are disjoint, and every parent is a directory |
| `Load.EnsureDir` | src/steps/load.py:18-20 | `mkdir(parents=True, exist_ok=True)` creates every ancestor; on an existing directory it succeeds and changes nothing |
| `Load.WriteLatestPointer` | src/steps/load.py:28-30 | the pointer's whole content becomes the rendered path |
| `Load.LoadVersioned` | src/steps/load.py:33-76 | the new filesystem state and the result are those of `LoadSpec` |
| `PathModel.ParsePath` | src/steps/load.py:56 | `Path(s)` gives a well-formed path: an optional root, then names without `/`, `.` or empty parts |
| `PathModel.PiecesNames` | src/steps/load.py:56 | every component read from a path string is a name: non-empty, not `.`, without `/` |
| `PathModel.Join` | src/steps/load.py:56 | `/` keeps paths well formed; a right-hand side starting with `/` gives exactly its own parsed path, and any other right-hand side appends its components to the left |
| `PathModel.JoinName` | src/steps/load.py:60 | joining a single name appends it |
| `PathModel.PiecesSplit` | src/pipeline.py:48 | parsing `a + "/" + b` gives the components of `a`, then those of `b` |
| `PathModel.ParseSplit` | src/pipeline.py:48 | `Path(a + "/" + b)` is the path of `a` extended by the components of `b`; with an empty `a` it is absolute |
| `PathModel.RenderRoundTrip` | src/steps/load.py:28-30 | parsing the `str()` of a well-formed path gives the path back |
| `FileSystem.MakeDirsKeepsConsistent` | src/steps/load.py:18-20 | creating directories keeps the filesystem's invariant |
| `FileSystem.MakeDirsIdempotent` | src/steps/load.py:18-20 | creating an existing directory again changes no directory and no file |
| `FileSystem.WriteKeepsConsistent` | src/steps/load.py:28-30 | writing a file keeps the filesystem's invariant |
| `FileSystem.WriteTwice` | src/lineage.py:28 | a file can be written again at once, and the second content replaces the first |
| `FileSystem.Store.constructor` | src/steps/load.py:18-20 | a store starts from the given directories and files with an empty journal |
| `FileSystem.Store.MakeDirs` | src/steps/load.py:18-20 | succeeds exactly when no file is in the way, then adds every ancestor as a directory |
| `FileSystem.Store.Write` | src/steps/load.py:28-30 | succeeds exactly when the parent is a directory and the path is not one, then replaces the file's content |
| `Timestamps.IsoFormatUtc` | src/lineage.py:25 | `isoformat()` of a UTC reading is 25 characters, or 32 with microseconds |
| `Timestamps.IsoRoundTrip` | tests/test_lineage.py:41 | `fromisoformat` of the rendered creation time gives back the same reading |
| `LineageRecord.BuildRunMetadata` | src/lineage.py:18-26 | every field of the record equals its argument, and the creation time parses back to the clock reading |
| `Lineage.RecordPath` | src/lineage.py:27 | the record's path is well formed and lies strictly inside the output root for every version, because the `run_` prefix keeps the name from being absolute |
| `Lineage.RecordPathLayout` | src/lineage.py:27 | for a version without `/`, the record is one file directly inside the output root |
| `Lineage.LineageOutcome` | src/lineage.py:27-28 | the write succeeds exactly when the filesystem accepts the record's path; a failure changes nothing |
| `Lineage.LineageFrame` | src/lineage.py:27-28 | a successful write sets the record's file and no other, creates no directory and logs one effect |
| `Lineage.LineageContent` | src/lineage.py:8-28 | the stored record carries env, input path, output root, version, `git_sha`, features and row counts unchanged, plus a parseable creation time |
| `Lineage.RecordNeedsRoot` | src/lineage.py:27-28 | when the output root is not a directory, the record's path cannot be written: for a version without `/`, or for any version in a consistent filesystem |
| `Lineage.LineageNeedsRoot` | src/lineage.py:27-28 | when the output root is not a directory, nothing is written and the write fails, for a version without `/` or for any version in a consistent filesystem |
| `Lineage.LineageLastWriteWins` | src/lineage.py:27-28 | a second record of the same version under the same root succeeds whenever the first did, and replaces it |
| `Lineage.LineageKeepsConsistent` | src/lineage.py:27-28 | the write keeps the filesystem's invariant |
| `Lineage.WriteRunMetadata` | src/lineage.py:8-28 | the new filesystem state and the result are those of `WriteRunMetadataSpec` |
| `Pipeline.GetEnv` | src/pipeline.py:13-18 | an absent `APP_ENV` means `dev`; a set value is returned exactly when it is `dev` or `prod`, and is otherwise named in the error |
| `Pipeline.GetEnvWithinSchema` | src/pipeline.py:13-18 | every accepted environment passes the schema, but `staging` passes the schema and is refused |
| `Pipeline.Limit` | src/pipeline.py:34-35 | `limit(n)` keeps the first `n` rows, or all of them when there are fewer |
| `Pipeline.SmokeBound` | src/pipeline.py:34-41 | a smoke run writes at most `max_rows_smoke` rows; without the filter they are the first input rows |
| `Pipeline.RowCounts` | src/pipeline.py:65 | the recorded counts have exactly the keys `input` and `output` |
| `Pipeline.DatasetRoot` | src/pipeline.py:48 | the dataset root, parsed as a path, is the silver directory followed by the dataset name's components (the name itself when it is one component); an empty silver setting puts it under the filesystem root |
| `Pipeline.RecordBesideVersions` | src/pipeline.py:48-62 | the run's record lands directly in the dataset root that `load_versioned` used, and is neither `LATEST` nor the data file |
| `Pipeline.PipelineRefusesNegativeLimit` | src/pipeline.py:34-35 | a smoke run with a negative limit fails before anything is written |
| `Pipeline.PipelineRecord` | src/pipeline.py:26-66 | on success, the record holds the configured env, the input path, the version id, `GIT_SHA` and the dumped flags; it counts all input rows, before any smoke limit, and the rows written |
| `Pipeline.PipelineOrder` | src/pipeline.py:48-66 | on success, the effects are root, version directory, data file, `LATEST`, and last the run's record |
| `Pipeline.PipelineRejectsFormat` | src/pipeline.py:49-54 | a non-parquet format fails the run with no file changed: no record, and `LATEST` untouched |
| `Pipeline.PipelineRecordFailsOnlyOnDirectory` | src/pipeline.py:58-66 | after a successful load, recording the run fails only if a directory already sits at the record's path |
| `Pipeline.RecordAfterLoad` | src/steps/load.py:53-57 | after a successful load, the dataset root is a directory, so the record can be written unless a directory is in its place |
| `Pipeline.DefaultRunCounts` | src/pipeline.py:31-45 | with default flags, three input rows with one negative are recorded as 3 input and 2 output |
| `Pipeline.RunPipeline` | src/pipeline.py:26-66 | the new filesystem state and the result are those of `RunPipelineSpec` |

## Left out

- Reading the input, `extract_csv`, is not modelled. The table is a parameter. A missing or malformed CSV is not modelled.
- Serialisation is not modelled. Parquet and JSON bytes are not produced. A file holds the table, the record, or the pointer's text as values.
- The clock is not modelled. `datetime.now()` readings are parameters: one for the version id, one for the version's timestamp, one for the record's creation time. `GIT_SHA` and `APP_ENV` are parameters too.
- Time zones are not modelled. The version id uses the local reading as given.
- Polars laziness, the query plan and the `Float64` cast are not modelled. `amount_eur` is modelled as the exact real value of the integer amount, with no rounding for huge integers, no nulls and no NaN.
- Rows are modelled as an integer amount plus a map of other columns. A row value whose column is called `amount_eur` or `amount_bucket` is not modelled as overwritten.
- `load_config` and `AppConfig.from_yaml` are not modelled. Their YAML reading is I/O. `Validate` models pydantic validation on a document already parsed.
- `main` is not modelled. This covers argparse, the `config/<env>.yaml` path, and all `print` output.
- `extract.py` is not part of this model. `generate_input.py` is not part of this model.
- Concurrency is not modelled. Neither are filesystem errors other than a path being occupied or a parent directory being missing: no permissions, no full disk, no partial writes. Failures are `StorageError` results, where Python raises.
- Paths are compared as written. There is no `..` resolution and there are no symbolic links. An absolute path never names the same file as a relative one, and the absolute root `/` is not required to be a directory.
- `Config.Validate` works on a typed document. `env`, `paths` and `dataset` are always present, a section is either present or omitted (never an explicit null), and every field already has its declared type. Validation errors for missing required fields, nulls or wrong types are not modelled, and neither is pydantic's lax coercion (such as `"200"` to `200`). The statement "succeeds exactly when …" holds on that domain.
- `LineageRecord.BuildRunMetadata` types `features` as a map from names to booleans, where the source accepts any values. Every caller passes the boolean feature flags.
- `PathModel.ParsePath` does not model POSIX's special double leading slash (`//x`). It is treated like a single `/`.
- `Load.NewVersionId` always pads the year to four digits. glibc's `strftime("%Y")` does not pad years below 1000.
- `Pipeline.PipelineRefusesNegativeLimit` does not model the exact polars error for a negative limit. Only its effect is modelled: the run stops before any write.
