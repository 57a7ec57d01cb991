/** An abstract file system: the contents of each existing path. `Write`
    models a whole-file overwrite that first creates (or truncates) the file and
    then writes the bytes, so a failure part-way leaves a truncated file. */
module FileStore {
  import opened Optional

  type Path = string
  type Files = map<Path, string>

  /** An operating-system I/O error; only its description is kept. */
  datatype IoError = IoError(description: string)

  /** How a write can fail: before the file is touched, or after `written`
      characters of the new contents have reached it. */
  datatype WriteFault =
    | CreateFailed(cause: IoError)
    | WriteFailed(cause: IoError, written: nat)

  datatype WriteOutcome = WriteOutcome(error: Option<IoError>, files: Files)

  function Write(files: Files, path: Path, contents: string, fault: Option<WriteFault>): (r: WriteOutcome)
    // Only the target path can change.
    ensures r.files - {path} == files - {path}
    // The write reports an error exactly when the environment injects a fault.
    ensures r.error.Some? <==> fault.Some?
    ensures r.error.Some? ==> r.error.value == fault.value.cause
    // A completed write replaces the file's contents entirely, creating it if needed.
    ensures r.error.None? ==> path in r.files && r.files[path] == contents
    // Whatever happens, the target keeps its old state or holds a prefix of the new contents.
    ensures r.files == files || (path in r.files && r.files[path] <= contents)
  {
    match fault
    case None => WriteOutcome(None, files[path := contents])
    case Some(CreateFailed(cause)) => WriteOutcome(Some(cause), files)
    case Some(WriteFailed(cause, written)) =>
      var kept := if written < |contents| then written else |contents|;
      WriteOutcome(Some(cause), files[path := contents[..kept]])
  }
}
