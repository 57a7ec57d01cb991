/** The source's unit test of the EnvironmentFile writer, as lemmas. */
module EnvFileTests {
  import opened Optional
  import opened Ssm
  import opened FileStore
  import opened Errors
  import opened EnvFile

  /** The two rendered lines of the test's parameters, one after the other. */
  lemma TwoParametersRender()
    ensures Render([Parameter(Some("S1_TOKEN"), Some("S1_CRED")), Parameter(Some("S2_TOKEN"), Some("S2_CRED"))])
         == "S1_TOKEN='S1_CRED'\nS2_TOKEN='S2_CRED'\n"
  {
  }

  /** Writing the test's two parameters succeeds and leaves exactly their two
      lines in the target file. */
  lemma TwoParametersFile(path: Path, files: Files)
    ensures WriteEnvironmentFile(
              [Parameter(Some("S1_TOKEN"), Some("S1_CRED")), Parameter(Some("S2_TOKEN"), Some("S2_CRED"))],
              path, files, None)
         == (Ok(()), files[path := "S1_TOKEN='S1_CRED'\nS2_TOKEN='S2_CRED'\n"])
  {
    TwoParametersRender();
  }
}
