/** The program's entry point: fetch the requested parameters, and only if
    that succeeds, write them to the EnvironmentFile. Argument parsing and SDK
    configuration are not modelled; the outcome of the SDK call, the initial
    files and any write fault are inputs. */
module Pipeline {
  import opened Optional
  import opened Ssm
  import opened Errors
  import opened FileStore
  import opened Puller
  import opened EnvFile
  import opened EnvFileTests

  /** Inputs the entry point can run on without panicking: the fetch does not
      panic, and every parameter it hands on has a name and a value. */
  predicate Runnable(sent: SendResult) {
    && Usable(sent)
    && (sent.Responded? && !HasInvalid(sent.output) ==> AllComplete(sent.output.parameters.value))
  }

  /** The entry point: a fetch error returns before anything is written. */
  function Run(sent: SendResult, path: Path, files: Files, fault: Option<WriteFault>): (r: (Result<()>, Files))
    requires Runnable(sent)
    // Only the target path is ever touched.
    ensures r.1 - {path} == files - {path}
    // A failed fetch, of either kind, is returned and leaves every file as it was.
    ensures GetParameters(sent).Err? ==> r.0 == Err(GetParameters(sent).error) && r.1 == files
    // Success means the fetch succeeded and the write completed ...
    ensures r.0.Ok? <==> sent.Responded? && !HasInvalid(sent.output) && fault.None?
    // ... and then the target holds the rendering of the resolved parameters.
    ensures r.0.Ok? ==> r.1 == files[path := Render(sent.output.parameters.value)]
    ensures r.0.Err? && r.0.error.IO? ==> GetParameters(sent).Ok? && fault.Some?
    // A failed write after a successful fetch reports the OS error and leaves the
    // target as it was or holding a prefix of the rendering.
    ensures GetParameters(sent).Ok? && fault.Some? ==>
      && r.0 == Err(IO(fault.value.cause))
      && (r.1 == files || (path in r.1 && r.1[path] <= Render(sent.output.parameters.value)))
  {
    match GetParameters(sent)
    case Err(e) => (Err(e), files)
    case Ok(ps) => WriteEnvironmentFile(ps, path, files, fault)
  }

  /** After a successful run with plain parameters, the file reads back as the
      resolved parameters, in the order the store returned them. */
  lemma RunRoundTrip(sent: SendResult, path: Path, files: Files)
    requires Runnable(sent) && sent.Responded? && !HasInvalid(sent.output)
    requires AllPlain(sent.output.parameters.value)
    ensures Run(sent, path, files, None).0.Ok?
    ensures Parse(Run(sent, path, files, None).1[path]) == Some(sent.output.parameters.value)
  {
    ParseRender(sent.output.parameters.value);
  }

  /** Writing the same resolved set twice leaves byte-identical contents. */
  lemma WriteIdempotent(ps: seq<Parameter>, path: Path, files: Files)
    requires AllComplete(ps)
    ensures WriteEnvironmentFile(ps, path, WriteEnvironmentFile(ps, path, files, None).1, None).1
         == WriteEnvironmentFile(ps, path, files, None).1
  {
  }

  /** Both names resolve: the file holds both lines. */
  lemma BothResolveWritesFile(path: Path, files: Files)
    ensures var sent := Responded(GetParametersOutput(
              Some([Parameter(Some("S1_TOKEN"), Some("S1_CRED")), Parameter(Some("S2_TOKEN"), Some("S2_CRED"))]), Some([])));
            Run(sent, path, files, None) == (Ok(()), files[path := "S1_TOKEN='S1_CRED'\nS2_TOKEN='S2_CRED'\n"])
  {
    TwoParametersFile(path, files);
  }

  /** One name is invalid: that name is reported and no file is written, even
      though the other name resolved. */
  lemma InvalidNameWritesNothing(path: Path, files: Files, fault: Option<WriteFault>)
    ensures var sent := Responded(GetParametersOutput(
              Some([Parameter(Some("S1_TOKEN"), Some("S1_CRED"))]), Some(["BAD_NAME"])));
            Run(sent, path, files, fault) == (Err(InvalidParameter("BAD_NAME")), files)
  {
  }

  /** The call itself fails: a dependency error and no file written. */
  lemma SdkFailureWritesNothing(debug: string, path: Path, files: Files, fault: Option<WriteFault>)
    ensures Run(SdkFailure(debug), path, files, fault) == (Err(Dependency("Error calling SSM: " + debug)), files)
  {
  }

  /** No names requested: an empty response writes an empty file. */
  lemma EmptyRequestWritesEmptyFile(path: Path, files: Files)
    ensures Run(Responded(GetParametersOutput(Some([]), None)), path, files, None) == (Ok(()), files[path := ""])
  {
  }
}
