# ssmpuller, modelled in Dafny

ssmpuller generates a systemd `EnvironmentFile=` from AWS Systems Manager
parameters: it asks the parameter store for a list of names with decryption,
refuses the whole request if the store reports any name as invalid, and writes
one line `NAME='VALUE'` per resolved parameter to the output path.

This project models the three pieces of that pipeline as pure functions:

- `Puller` — validation of a `GetParameters` response (all-or-nothing: the
  first invalid name fails the request; otherwise the resolved list is
  returned unchanged) and the conversion of an SDK failure into a
  `Dependency` error.
- `EnvFile` — the rendering of resolved parameters, a loop that collects the
  lines as the source does, and `Parse`, an inverse reader (split at the
  newline, then at the first `=`, then strip the quotes) that the rendering is
  proved against.
- `EnvFileTests` — the source's unit test of the writer, as lemmas.
- `Pipeline` — the entry point: a fetch error returns before anything is
  written; on success only the target path changes, and it holds the
  rendering.

Supporting modules: `Optional` (Rust's `Option`), `Ssm` (the SDK's
`Parameter`, the `GetParameters` response and the outcome of sending the
request), `Errors` (`PullerError` and `Result`), `FileStore` (an abstract
file system, a map from path to contents, with `fs::write` as a whole-file
overwrite that may fail before or part-way through) and `Text` (character
search and count).

Inputs that stand for the outside world: the outcome of the SDK call
(`SendResult`: a response, or an SDK error kept only as its debug text), the
initial files, and an optional write fault (`WriteFault`) that the operating
system may raise.

The output file is overwritten with a plain `fs::write` and is not atomic:
the file is created or truncated first, so a failure part-way leaves a
truncated file, which `FileStore.Write` approximates (see "## Left out").
Reading the file back needs names and values free of newlines and names free
of `=`; single quotes inside a value do not disturb the inverse reader, which
strips only the outermost pair.

## Model

| member | source | states |
|---|---|---|
| `Errors.FromSdkError` | src/main.rs:34-37 | an SDK error becomes a `Dependency` error whose detail is the fixed prefix `Error calling SSM: ` followed by the error's debug text |
| `Puller.Validate` | src/main.rs:65-72 | the response is accepted exactly when its invalid-name list is absent or empty; then the resolved list is returned unchanged; otherwise the error is `InvalidParameter` of the first invalid name |
| `Puller.GetParameters` | src/main.rs:52-73 | parameters are returned iff the call succeeded and no name was invalid, and then unchanged in content and order; an SDK failure gives the converted `Dependency` error; a response naming any invalid parameter gives `InvalidParameter` of the first name it lists; no partial set is ever returned |
| `FileStore.Write` | src/main.rs:91 | only the target path changes; an error is reported exactly when a fault occurs; a completed write replaces (or creates) the file with exactly the new contents; in every case the target keeps its old state or holds a prefix of the new contents |
| `EnvFile.Assignment` | src/main.rs:82-86 | one parameter's assignment is its name verbatim, then `=`, then its value verbatim between single quotes, with nothing escaped; it is three characters longer than name and value together |
| `EnvFile.Line` | src/main.rs:81-87 | one parameter's line is its assignment followed by a single newline |
| `EnvFile.Render` | src/main.rs:79-88 | the file is at least four characters per parameter and is empty exactly when there are no parameters (zero bytes for an empty set) |
| `EnvFile.RenderAppend` | src/main.rs:79-88 | rendering `a + b` is rendering `a` followed by rendering `b`: lines appear in input order |
| `EnvFile.CollectLines` | src/main.rs:79-88 | collecting the per-parameter lines one after another yields exactly the rendering |
| `EnvFile.ParseLine` | src/main.rs:83 | a line accepted by the reader gives a complete parameter whose name has no `=` and whose assignment is exactly the line read |
| `EnvFile.ParseAssignment` | src/main.rs:83 | splitting a plain parameter's assignment at the first `=` and stripping the quotes recovers its name and value |
| `EnvFile.Parse` | src/main.rs:79-88 | any text the reader accepts is the rendering of the plain parameters it returns |
| `EnvFile.ParseRender` | src/main.rs:79-88 | reading back the rendering of plain parameters recovers exactly those parameters in the same order |
| `EnvFile.RenderLineCount` | src/main.rs:83 | when no name or value contains a newline, the file has exactly one newline per parameter |
| `EnvFile.WriteEnvironmentFile` | src/main.rs:76-93 | only the target path changes; the call succeeds exactly when the write completes, and then the target holds the rendering; a failed write is an `IO` error carrying the OS error, leaving the old file or a prefix of the rendering |
| `Pipeline.Run` | src/main.rs:95-104 | a fetch error of either kind is returned with every file untouched; success happens exactly when the call succeeded, no name was invalid and the write completed, and then the files are the old ones with the target set to the rendering; a failed write after a successful fetch returns `IO` of the OS error and leaves the target as it was or holding a prefix of the rendering; an `IO` error only follows a successful fetch |
| `Pipeline.RunRoundTrip` | src/main.rs:101-103 | after a successful run with plain parameters, the written file reads back as the resolved parameters in the store's order |
| `Pipeline.WriteIdempotent` | src/main.rs:91 | writing the same resolved set twice gives the same files as writing it once |
| `EnvFileTests.TwoParametersRender` | src/main.rs:115-134 | `S1_TOKEN`/`S1_CRED` and `S2_TOKEN`/`S2_CRED` render to `S1_TOKEN='S1_CRED'\nS2_TOKEN='S2_CRED'\n` |
| `EnvFileTests.TwoParametersFile` | src/main.rs:115-134 | writing `S1_TOKEN`/`S1_CRED` and `S2_TOKEN`/`S2_CRED` succeeds and sets the target to `S1_TOKEN='S1_CRED'\nS2_TOKEN='S2_CRED'\n`, leaving other files alone |
| `Pipeline.BothResolveWritesFile` | src/main.rs:101-103 | when both names resolve, the run succeeds and the target holds both lines |
| `Pipeline.InvalidNameWritesNothing` | src/main.rs:66-69 | when `BAD_NAME` is reported invalid next to a resolved name, the run fails with `InvalidParameter("BAD_NAME")` and no file changes, whatever the write would have done |
| `Pipeline.SdkFailureWritesNothing` | src/main.rs:101 | when the call fails, the run fails with a `Dependency` error and no file changes |
| `Pipeline.EmptyRequestWritesEmptyFile` | src/main.rs:79-91 | an empty response with no invalid names writes an empty file |

## Left out

- The SDK client, request building and the awaited network call (src/main.rs:57-63): replaced by the `SendResult` input.
- The content of an SDK error's debug text (src/main.rs:36): kept as an opaque input string.
- The panics of `unwrap()` on a missing parameter list, name or value (src/main.rs:72, 84-85): stated as preconditions (`Puller.Usable`, `EnvFile.AllComplete`, `Pipeline.Runnable`) rather than modelled as behaviour.
- Real file-system I/O: `fs::write` is a whole-file overwrite on an abstract map; which paths can be written and when the OS fails is the `WriteFault` input. Crashes of the process during the write are not modelled beyond the truncated-file outcome of a fault.
- FileStore.Write: file contents are modelled as characters, not UTF-8 bytes, so a write that fails inside a multi-byte character (leaving a byte prefix that is no character prefix) has no model state; the truncated outcomes are character prefixes only.
- FileStore.Write: over-approximates the fault outcomes: a `WriteFailed` fault whose `written` count reaches the length of the contents reports an error after the whole file is written, which `fs::write` (create, then write all) never does; every outcome `fs::write` can produce at character granularity is still among the model's.
- The async runtime, SDK configuration loading and command-line parsing (src/main.rs:8-20, 95-98): bootstrapping with no logic; the path and the response are inputs of `Pipeline.Run`.
- The `Display` messages of `PullerError` (src/main.rs:24-30): only the variants and their payloads are modelled.
- The SDK `Parameter` fields other than name and value (type, version, ARN and so on): never read by the program.
- How systemd itself reads the file (its quoting and escaping rules): the inverse reader `EnvFile.Parse` is the simple split the rendering is designed for, not systemd's parser.
