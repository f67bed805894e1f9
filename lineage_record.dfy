/**
 * The lineage record of one run, as the nested dictionary that
 * `write_run_metadata` serialises; its text encoding is not modelled.
 */
module LineageRecord {
  import opened Wrappers
  import opened Timestamps

  datatype InputRef = InputRef(path: string)

  datatype OutputRef = OutputRef(dataset_root: string, version: string)

  datatype RunMetadata = RunMetadata(
    env: string,
    input: InputRef,
    output: OutputRef,
    git_sha: Option<string>,
    features: map<string, bool>,
    row_counts: map<string, int>,
    created_at_utc: string)

  /**
   * The record for one run: every field copied from its argument, an absent
   * `git_sha` kept absent (JSON null), and the creation instant rendered so
   * that it parses back to that instant.
   */
  function BuildRunMetadata(
    output_root: string, env: string, input_path: string, output_version: string,
    git_sha: Option<string>, features: map<string, bool>, row_counts: map<string, int>,
    now_utc: Timestamp): (m: RunMetadata)
    requires Valid(now_utc)
    ensures m.env == env && m.input.path == input_path
    ensures m.output.dataset_root == output_root && m.output.version == output_version
    ensures m.git_sha == git_sha && m.features == features && m.row_counts == row_counts
    ensures FromIsoFormatUtc(m.created_at_utc) == Some(now_utc)
  {
    IsoRoundTrip(now_utc);
    RunMetadata(
      env := env,
      input := InputRef(input_path),
      output := OutputRef(output_root, output_version),
      git_sha := git_sha,
      features := features,
      row_counts := row_counts,
      created_at_utc := IsoFormatUtc(now_utc))
  }
}
