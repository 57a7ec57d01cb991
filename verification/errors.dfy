/** The puller's error type and the `Result` every fallible step returns. */
module Errors {
  import opened FileStore

  /** One variant per kind of failure the puller reports. */
  datatype PullerError =
    | Dependency(detail: string)      // the parameter-store call failed
    | InvalidParameter(name: string)  // the store could not resolve a requested name
    | IO(cause: IoError)              // the EnvironmentFile could not be written

  datatype Result<+T> = Ok(value: T) | Err(error: PullerError)

  const SdkErrorPrefix: string := "Error calling SSM: "

  /** The conversion applied when an SDK error is propagated: its debug text
      behind a fixed prefix. */
  function FromSdkError(debug: string): (e: PullerError)
    ensures e.Dependency?
    ensures |e.detail| == |SdkErrorPrefix| + |debug|
    ensures e.detail[..|SdkErrorPrefix|] == SdkErrorPrefix
    ensures e.detail[|SdkErrorPrefix|..] == debug
  {
    Dependency(SdkErrorPrefix + debug)
  }
}
