# MediaFaceRedact, modelled in Dafny

MediaFaceRedact is a command-line sample for Azure Media Services. It takes a mode,
`redact` or `detect`, and a target. The target is either the id of an asset already in the
media store, marked by the prefix `nb:cid`, or the path of a local video file to upload.
The program then:

- looks up the latest version of the matching media processor: "Azure Media Redactor" or
  "Azure Media Face Detector";
- reads the mode's configuration file: `config.json` or `faceconfig.json`;
- submits one job with one task and waits for it to finish;
- downloads the output asset into `result_<job id>`.

This project models that core as pure functions over an abstract service. Every run of
`Main` becomes a value `Program.Execute(args, env, jobId)`. The value holds the ordered
observable effects of the run and the exception, if any, that ends it. The effects are
printed lines, uploads, the submitted job, the created directory and the downloads. The
service is a record holding:

- the asset store;
- the media processor registry;
- the local files;
- the id the store gives an upload;
- how the job ends: its final state, the task's error details, and the output asset. The
  final state is Finished, Error or Canceled (`Jobs.FinalState`), the states the wait
  returns in.

Modules, following the structure of the program:

- `Versions`: System.Version ordering. A version is two to four non-negative components,
  and an absent Build or Revision counts as -1.
- `Text`: String.Format with numbered placeholders, and the ordinal prefix test.
- `Paths`: Path.GetFileName, Path.Combine and Path.IsPathRooted with Windows separators.
- `Assets`: the asset store, GetAsset, and CreateAssetAndUploadSingleFile.
- `Processors`: GetLatestMediaProcessorByName. It keeps the entries with the name, sorts
  them stably by version (OrderBy), and takes the last (LastOrDefault).
- `Jobs`: job states, error details, the decision taken once the wait returns, and the
  error line.
- `Faults`: the exceptions a run can end in.
- `Program`: Main's argument dispatch, the two job routines and DownloadAsset.
- `Runs`: properties of whole runs, read one observable channel at a time (console,
  uploads, jobs, directories, downloads).

Some behaviour of the code is easy to miss. The model keeps it as written:

- A job that ends Canceled returns output asset 0, like every state other than Error
  (`Runs.OtherStatesDownloadOutput`).
- A job that ends in Error returns null, and Main still calls DownloadAsset on it. The
  result directory is created, then the loop over the null asset's files throws
  (`Runs.ErrorStateDownloadsNothing`).
- A two-argument command line with a mode other than `redact` or `detect` runs no job. It
  still reaches DownloadAsset(null): the directory is created and the run throws
  (`Runs.UnknownModeRunsNoJob`).
- A job in state Error whose first task has no error detail throws from `First()` before
  anything is printed.
- The unknown-processor exception carries the constant message "Unknown media processor",
  without the processor's name (`Processors.GetLatest`; see Findings).

## Model

| member | source | states |
|---|---|---|
| Versions.CompareTo | src/MediaFaceRedact/Program.cs:277 | Version.CompareTo answers -1, 0 or 1; what the sign means is stated by the lemmas below |
| Versions.CompareToZero | src/MediaFaceRedact/Program.cs:277 | Two versions compare equal exactly when they have the same components, as Version.Equals says |
| Versions.CompareToIsLex | src/MediaFaceRedact/Program.cs:277 | The four-field CompareTo cascade, with -1 for an absent field, is the lexicographic order on component lists in which a proper prefix is smaller |
| Versions.PrefixIsOlder | src/MediaFaceRedact/Program.cs:277 | A version written with fewer components than a version it is a prefix of is strictly older, e.g. 1.2 before 1.2.0 |
| Versions.CompareToFlip | src/MediaFaceRedact/Program.cs:277 | Swapping the two versions negates the comparison |
| Versions.CompareToTransitive | src/MediaFaceRedact/Program.cs:277 | "Not newer than" is transitive, and strict when either step is strict, so the sort key is a total preorder |
| Text.Format | src/MediaFaceRedact/Program.cs:178-180 | String.Format of an empty format is empty, and a format that does not open with a brace starts the output with its first character |
| Text.FormatLiteral | src/MediaFaceRedact/Program.cs:281-282 | A format string with no placeholder comes out of String.Format unchanged, whatever the arguments |
| Text.FormatPlaceholder | src/MediaFaceRedact/Program.cs:178-180 | A placeholder {k} naming an argument is replaced by argument k, and the rest of the format is formatted after it |
| Paths.GetFileName | src/MediaFaceRedact/Program.cs:257 | The file name is the longest suffix of the path with no separator: a suffix, separator-free, and preceded by a separator when shorter than the path |
| Paths.Combine | src/MediaFaceRedact/Program.cs:268 | The combined path ends with the second part; a rooted second part replaces the first; otherwise it starts with the first part; and two plain non-empty parts are joined by one backslash |
| Paths.FileNameRoundTrip | src/MediaFaceRedact/Program.cs:257-268 | GetFileName takes back exactly the separator-free name that Combine put under any directory |
| Assets.IsAssetId | src/MediaFaceRedact/Program.cs:45 | A target names an existing asset exactly when it is the prefix nb:cid followed by the rest of the target (the same test is at line 60) |
| Assets.GetAsset | src/MediaFaceRedact/Program.cs:106-117 | The lookup is null exactly when no asset has the id; otherwise it returns the asset at the first position with exactly that id |
| Assets.GetAssetIsFirst | src/MediaFaceRedact/Program.cs:106-117 | Conversely, the asset at the first position with the id is what the lookup returns |
| Assets.UploadSingleFile | src/MediaFaceRedact/Program.cs:253-261 | The new asset has the store's id and the given name, and one file named by the longest separator-free suffix of the local path, as Path.GetFileName returns it |
| Assets.UploadKeepsFileName | src/MediaFaceRedact/Program.cs:253-261 | Uploading dir\name stores one file called name, the name the download later puts under the result directory |
| Processors.Named | src/MediaFaceRedact/Program.cs:274-276 | An entry is in the filtered list exactly when it is a registry entry with the requested name |
| Processors.NamedKeepsOrder | src/MediaFaceRedact/Program.cs:274-276 | The filter keeps registry order and duplicates: the list is the entries at exactly the registry positions with the name, in increasing order |
| Processors.Insert | src/MediaFaceRedact/Program.cs:277 | One step of the stable sort is a permutation: the result holds the old entries plus the new one |
| Processors.InsertSorted | src/MediaFaceRedact/Program.cs:277 | Inserting into a version-sorted list keeps it sorted |
| Processors.OrderByVersion | src/MediaFaceRedact/Program.cs:277 | OrderBy by version is a permutation of its input |
| Processors.OrderByVersionSorted | src/MediaFaceRedact/Program.cs:277 | OrderBy by version leaves the list sorted by version |
| Processors.LastIsNewest | src/MediaFaceRedact/Program.cs:278 | The last entry of a version-sorted list is at least as new as every entry in it |
| Processors.LastOfInsert | src/MediaFaceRedact/Program.cs:277-278 | After a stable insertion the new entry is last unless the list already ended in something strictly newer, so ties go to the later entry |
| Processors.LastOfOrderedIsLatest | src/MediaFaceRedact/Program.cs:274-278 | The entry LastOrDefault picks is the reference "latest" position: newest version with the name, and the last in the registry among equals |
| Processors.LatestAtUnique | src/MediaFaceRedact/Program.cs:274-278 | At most one registry position is the latest for a name, so the query's answer is determined |
| Processors.GetLatest | src/MediaFaceRedact/Program.cs:272-285 | The lookup throws exactly when no entry has the name, and then with the constant message "Unknown media processor"; otherwise it returns a registry entry with the name and no entry with the name is newer |
| Processors.GetLatestIsLatestAt | src/MediaFaceRedact/Program.cs:272-285 | The lookup succeeds exactly when a latest position exists, and then it returns the entry at that position |
| Processors.UnknownProcessorMessageAsWritten | src/MediaFaceRedact/Program.cs:281-282 | As written, String.Format of a format without a placeholder yields the constant "Unknown media processor" whatever name was requested |
| Processors.AsWrittenMessageOmitsName | src/MediaFaceRedact/Program.cs:280-282 | For every requested name, the message as written differs from the message that names the processor |
| Processors.UnknownProcessorMessage | src/MediaFaceRedact/Program.cs:280-282 | The corrected message names the requested processor after "Unknown media processor "; the run model does not use it |
| Jobs.Decide | src/MediaFaceRedact/Program.cs:175-184 | After the wait, Error with an error detail fails with the first task's first detail; every other state, Canceled included, produces output asset 0; a missing detail or output throws |
| Jobs.ErrorLine | src/MediaFaceRedact/Program.cs:178-180 | The failure line String.Format builds reads "Error: " then the code, ". " and the message (the same line is at 244-246) |
| Program.Dispatch | src/MediaFaceRedact/Program.cs:28-79 | Usage exactly when there are not two arguments; redact and detect select their job kind and configuration file; the target is an asset id exactly when it has the asset id prefix; any other mode is unknown |
| Program.Provision | src/MediaFaceRedact/Program.cs:119-133 | A file target is uploaded once, as an asset with the store's new id and the mode's input asset name; an asset id target has no effect and yields the asset with that id from the store, or null exactly when none has it (redaction: 187-200) |
| Program.RunJobOnOutcome | src/MediaFaceRedact/Program.cs:136-185 | A missing processor throws the constant message before anything is submitted; a missing configuration or null input halts before submission; a job that returns was submitted on the input and returns null exactly when it ended in Error; a submitted job that halts ended in Error with no detail (redaction: 202-251) |
| Program.DownloadAsset | src/MediaFaceRedact/Program.cs:263-270 | The output directory is created first; a null asset throws right after that, and any other asset ends cleanly after one further effect per file of the asset, each a download as Program.DownloadFilesAt states |
| Program.Conclude | src/MediaFaceRedact/Program.cs:72-73 | The run's effects are the provisioning, then the job stage's; an exception in the job stage ends the run; a job that returns goes on to create the result directory and throws exactly when its result is null |
| Program.Execute | src/MediaFaceRedact/Program.cs:28-79 | A wrong argument count prints only the usage line and ends cleanly; a two-argument run that ends cleanly created the result directory |
| Program.DownloadFiles | src/MediaFaceRedact/Program.cs:266-269 | One download per file of the asset |
| Program.DownloadFilesAt | src/MediaFaceRedact/Program.cs:266-269 | The i-th download fetches the i-th file to the output directory combined with that file's name |
| Runs.ReadyIffSubmitsJob | src/MediaFaceRedact/Program.cs:119-165 | A known-mode run reaches job submission exactly when a processor has the mode's name, the configuration file exists, and an asset id target names an asset in the store |
| Runs.ConsoleOutput | src/MediaFaceRedact/Program.cs:28-79 | The console shows the usage line exactly for a wrong argument count, the error line of the first detail for a submitted job that ends in Error, and nothing else apart from the state-change handler's lines, which are not modelled |
| Runs.UsageExactlyOnWrongArgumentCount | src/MediaFaceRedact/Program.cs:30-78 | With a wrong argument count the usage line is the whole run; it is printed in no other run |
| Runs.UnknownModeRunsNoJob | src/MediaFaceRedact/Program.cs:43-73 | An unknown mode submits nothing: it only creates the result directory, then throws on the null download |
| Runs.SubmissionChannel | src/MediaFaceRedact/Program.cs:136-165 | Exactly one job is submitted when the run is ready and none otherwise |
| Runs.SubmittedJobFollowsArguments | src/MediaFaceRedact/Program.cs:136-159 | The submitted task runs the latest processor with the mode's name and carries the mode's configuration file text. Its input is the asset with the id given, or the upload of the file given |
| Runs.UploadChannel | src/MediaFaceRedact/Program.cs:119-127 | A file target of a known mode is uploaded exactly once; an asset id target and every other run upload nothing |
| Runs.UploadComesFirst | src/MediaFaceRedact/Program.cs:187-193 | A file target's upload is the run's first effect, before the processor lookup can fail; detection does the same at lines 119-127 |
| Runs.DownloadChannel | src/MediaFaceRedact/Program.cs:263-270 | Every output file is downloaded, in order, exactly when a job was submitted and did not end in Error |
| Runs.DirectoryChannel | src/MediaFaceRedact/Program.cs:263-265 | The result directory is created once exactly when the mode is unknown or a submitted job returned to Main, even with a null result |
| Runs.RunFault | src/MediaFaceRedact/Program.cs:28-79 | A run ends without an exception exactly on the usage path or after downloading a job that did not end in Error |
| Runs.FaultOfKnownRun | src/MediaFaceRedact/Program.cs:136-185 | Which exception ends a known-mode run: the lookup, configuration or null input failure before submission, the null download after Error, or a missing error detail |
| Runs.ErrorStateDownloadsNothing | src/MediaFaceRedact/Program.cs:241-250 | A job ending in Error downloads nothing; with a detail, the console shows its error line and the run throws on the null download; without one, it throws at First(); detection does the same at lines 175-184 |
| Runs.OtherStatesDownloadOutput | src/MediaFaceRedact/Program.cs:241-250 | A job ending in Finished or Canceled prints nothing apart from the state-change handler's lines, which are not modelled, downloads every output file and ends cleanly; detection does the same at lines 175-184 |
| Runs.DownloadTargetsKeepNames | src/MediaFaceRedact/Program.cs:263-270 | Each output file lands at result_<job id>\<name> and keeps its name there, for separator-free job ids and names |

## Left out

- Reading App.config, the Azure AD token credentials and the creation of the service context
  are left out. They are I/O and authentication; the model starts from an already-connected
  service.
- Guid.NewGuid is not modelled: the job id is a parameter of every run.
- Submit is one effect carrying the job. The job's remote execution, the
  GetExecutionProgressTask wait and the StateChanged handler are not modelled. The job's
  final state, task errors and output asset are inputs. The handler's progress lines
  (Program.cs:287-304) are not console effects of the model.
- The model assumes the wait returns. `progressJobTask.Wait()` (Program.cs:170 and 236) has
  no time-out, so a job that never reaches a terminal state hangs Main. No run of the model
  does that.
- PrintAssets is not modelled: nothing in Main calls it.
- The data transfer of an upload and a download is not modelled, and neither are their
  failures. Each transfer is one effect that succeeds.
- The Jobs.Create call that opens each job routine is not modelled. It has no visible
  effect unless the job is submitted.
- The processor's version is taken already parsed, as two to four non-negative components.
  Version string parsing and its FormatException are not modelled.
- Versions.CompareTo: its own contract states only the range -1 to 1. Its meaning is stated
  by Versions.CompareToIsLex, CompareToZero, CompareToFlip and CompareToTransitive.
- Text.Format: its own contract states only the empty and first-character cases. The
  placeholder and literal cases are stated by Text.FormatPlaceholder and Text.FormatLiteral.
- Text.Format: only placeholders {0} to {9} are modelled. Brace escapes, alignment and
  format specifiers are not, and neither is the FormatException for a malformed format.
  The program's two format strings need none of these.
- Paths.GetFileName and Paths.Combine do not model the invalid-path-character checks of
  the .NET Framework.
- Assets.IsAssetId: String.StartsWith without a StringComparison is culture-sensitive, and
  the model compares characters ordinally. The two agree when the target begins with
  `nb:cid:`, as every store id `nb:cid:UUID:…` does. They can differ for other targets. A
  culture comparison skips ignorable characters. It also joins a combining mark after the
  final `d` (as in `nb:cid` followed by U+0301) to that letter. Contractions such as
  Hungarian `dz` have the same effect.
- task.InputAssets.Add(null) happens when an asset id names no asset. The SDK's handling
  of it is not visible. The model ends the run there with a fault, before submission.
- The fault of an unknown mode or an Error job is modelled as a dedicated null-download
  fault. In the program it is the NullReferenceException from the loop in DownloadAsset.

## Findings

| source | as written | input that shows it | evidently intended | confidence | as-written member | corrected member |
|---|---|---|---|---|---|---|
| src/MediaFaceRedact/Program.cs:281-282 | The exception message is built with `string.Format("Unknown media processor", mediaProcessorName)`. The format has no `{0}`, so the name is dropped | Any registry with no entry named "Azure Media Redactor", with the arguments `redact x.mp4`: the message is "Unknown media processor" | The message names the processor that was not found, e.g. "Unknown media processor Azure Media Redactor" | high; not executed | Processors.AsWrittenMessageOmitsName | Processors.UnknownProcessorMessage |
