/**
 * The program's entry point as a pure function: from the command-line arguments, the state of
 * the media service and a fresh job id to the ordered effects of the run and the exception, if
 * any, that ends it.
 */
module Program {
  import opened Wrappers
  import opened Faults
  import opened Paths
  import opened Assets
  import opened Jobs
  import opened Processors

  /** The two kinds of job the program can run. */
  datatype JobKind = Detection | Redaction

  /** Where the job's input comes from: an asset already in the store, or a local file to upload. */
  datatype Source = ExistingAsset(assetId: string) | NewFile(path: string)

  /** What the command line asks for: the usage line, a job, or a mode the program does not know. */
  datatype Plan = Usage | RunJob(kind: JobKind, source: Source, configFile: string) | UnknownMode

  /** The service as the run sees it. The store assigns uploadId to an upload; the job ends as jobEnd says. */
  datatype Environment = Environment(
    assets: seq<Asset>,
    processors: seq<MediaProcessor>,
    files: map<string, string>,
    uploadId: string,
    jobEnd: JobEnd)

  /** The job as the wait leaves it: final state, its task's errors, its output asset's id and files. */
  datatype JobEnd = JobEnd(state: FinalState, errors: seq<ErrorDetail>, outputId: string, outputFiles: seq<AssetFile>)

  /** What a run does that can be observed outside it, in order. */
  datatype Effect =
    | Print(line: string)
    | Upload(localPath: string, asset: Asset)
    | Submit(job: JobSpec)
    | CreateDirectory(path: string)
    | Download(file: AssetFile, target: string)

  /** A whole run: its effects and the exception that ended it, if one did. */
  datatype Run = Run(effects: seq<Effect>, fault: Option<Fault>)

  /** How far a job got: halted by an exception, or returned an asset (None for null). */
  datatype JobRun = Halted(effects: seq<Effect>, fault: Fault) | Returned(effects: seq<Effect>, result: Option<Asset>)

  /** The usage line printed for a wrong argument count. */
  const UsageLine: string := "Invalid Usage: " + UsageSyntax

  const UsageSyntax: string := "MediaFaceRedact.exe [redact/detect] [existing uid/new video file name]"

  function ConfigFile(kind: JobKind): string
  {
    match kind
    case Redaction => "config.json"
    case Detection => "faceconfig.json"
  }

  function ProcessorName(kind: JobKind): string
  {
    match kind
    case Redaction => "Azure Media Redactor"
    case Detection => "Azure Media Face Detector"
  }

  /** The name of an uploaded input asset: detection names it by job id, redaction by file path. */
  function InputAssetName(kind: JobKind, jobId: string, path: string): string
  {
    match kind
    case Detection => "My Face Detection Input Asset " + jobId
    case Redaction => "My Face Redaction Input Asset " + path
  }

  function JobName(kind: JobKind, jobId: string): string
  {
    match kind
    case Detection => "My Face Detection Job New " + jobId
    case Redaction => "My Face Redaction Job New " + jobId
  }

  function TaskName(kind: JobKind, jobId: string): string
  {
    match kind
    case Detection => "My Face Detection Task New " + jobId
    case Redaction => "My Face Redaction Task New " + jobId
  }

  function OutputAssetName(kind: JobKind, jobId: string): string
  {
    match kind
    case Detection => "My Face Detection Output Asset New " + jobId
    case Redaction => "My Face Redaction Output Asset " + jobId
  }

  /** The directory the output files are downloaded into. */
  function ResultDirectory(jobId: string): string
  {
    "result_" + jobId
  }

  /** The command-line text a source was read from. */
  function Target(source: Source): string
  {
    match source
    case ExistingAsset(id) => id
    case NewFile(path) => path
  }

  /**
   * The argument check of Main: exactly two arguments, a mode of "redact" or "detect", and a
   * target that is an asset id when it carries the asset id prefix and a file path otherwise.
   */
  function Dispatch(args: seq<string>): (p: Plan)
    ensures p.Usage? <==> |args| != 2
    ensures p.UnknownMode? <==> |args| == 2 && args[0] != "redact" && args[0] != "detect"
    ensures p.RunJob? ==> (p.kind == Redaction <==> args[0] == "redact")
    ensures p.RunJob? ==> (p.kind == Detection <==> args[0] == "detect")
    ensures p.RunJob? ==> (p.source.ExistingAsset? <==> IsAssetId(args[1])) && Target(p.source) == args[1]
    ensures p.RunJob? ==> p.configFile == ConfigFile(p.kind)
  {
    if |args| != 2 then Usage
    else
      var source := if IsAssetId(args[1]) then ExistingAsset(args[1]) else NewFile(args[1]);
      if args[0] == "redact" then RunJob(Redaction, source, "config.json")
      else if args[0] == "detect" then RunJob(Detection, source, "faceconfig.json")
      else UnknownMode
  }

  /** The input of the job: the uploaded asset for a file, the looked-up asset (or null) for an id. */
  function Provision(kind: JobKind, source: Source, env: Environment, jobId: string): (r: (seq<Effect>, Option<Asset>))
    ensures source.NewFile? ==> r.1.Some? && r.0 == [Upload(source.path, r.1.value)]
    ensures source.NewFile? ==> r.1.value.id == env.uploadId && r.1.value.name == InputAssetName(kind, jobId, source.path)
    ensures source.ExistingAsset? ==> r.0 == []
    ensures source.ExistingAsset? ==> (r.1.None? <==> forall a :: a in env.assets ==> a.id != source.assetId)
    ensures source.ExistingAsset? && r.1.Some? ==> r.1.value in env.assets && r.1.value.id == source.assetId
  {
    match source
    case NewFile(path) =>
      var asset := UploadSingleFile(env.uploadId, path, InputAssetName(kind, jobId, path));
      ([Upload(path, asset)], Some(asset))
    case ExistingAsset(id) =>
      GetAssetFound(env.assets, id);
      ([], GetAsset(env.assets, id))
  }

  /**
   * RunFaceDetectionJob and RunFaceRedactionJob: resolve the processor, read the configuration,
   * build the one-task job on the input, submit it, and decide on the state the wait ends in.
   */
  function RunJobOn(kind: JobKind, input: Option<Asset>, configFile: string, env: Environment, jobId: string): JobRun
  {
    match GetLatest(env.processors, ProcessorName(kind))
    case Failure(fault) => Halted([], fault)
    case Success(processor) =>
      if configFile !in env.files then Halted([], ConfigurationNotFound(configFile))
      else if input.None? then Halted([], NullInputAsset)
      else
        var outputName := OutputAssetName(kind, jobId);
        var task := TaskSpec(TaskName(kind, jobId), processor, env.files[configFile], input.value, outputName);
        var submitted := Submit(JobSpec(JobName(kind, jobId), task));
        var output := Asset(env.jobEnd.outputId, outputName, env.jobEnd.outputFiles);
        match Decide(Completion(env.jobEnd.state, [env.jobEnd.errors], [output]))
        case Threw(fault) => Halted([submitted], fault)
        case Failed(error) => Returned([submitted, Print(ErrorLine(error))], None)
        case Produced(asset) => Returned([submitted], Some(asset))
  }

  /**
   * How a job stage ends: a missing processor throws the constant message, a missing
   * configuration or input asset halts before anything is submitted, and a job that returns was
   * submitted on the input and returns no asset exactly when it ended in state Error.
   */
  lemma RunJobOnOutcome(kind: JobKind, input: Option<Asset>, configFile: string, env: Environment, jobId: string)
    ensures GetLatest(env.processors, ProcessorName(kind)).Failure? ==>
              RunJobOn(kind, input, configFile, env, jobId) == Halted([], UnknownMediaProcessor("Unknown media processor"))
    ensures input.None? || configFile !in env.files ==>
              RunJobOn(kind, input, configFile, env, jobId).Halted? && RunJobOn(kind, input, configFile, env, jobId).effects == []
    ensures var j := RunJobOn(kind, input, configFile, env, jobId);
              j.Returned? ==> (j.result.None? <==> env.jobEnd.state == Error)
    ensures var j := RunJobOn(kind, input, configFile, env, jobId);
              j.Returned? ==> |j.effects| > 0 && j.effects[0].Submit? && j.effects[0].job.task.input == input.value
    ensures var j := RunJobOn(kind, input, configFile, env, jobId);
              j.Halted? && |j.effects| > 0 ==> j.fault == NoErrorDetail && env.jobEnd.state == Error && env.jobEnd.errors == []
  {
  }

  /** One download per file, in order, each to the directory joined with the file's name. */
  function DownloadFiles(files: seq<AssetFile>, directory: string): (r: seq<Effect>)
    ensures |r| == |files|
  {
    if |files| == 0 then []
    else [Download(files[0], Combine(directory, files[0].name))] + DownloadFiles(files[1..], directory)
  }

  /** The i-th download fetches the i-th file into the directory joined with that file's name. */
  lemma {:induction false} DownloadFilesAt(files: seq<AssetFile>, directory: string, i: int)
    requires 0 <= i < |files|
    ensures DownloadFiles(files, directory)[i] == Download(files[i], Combine(directory, files[i].name))
    decreases i
  {
    if i > 0 {
      DownloadFilesAt(files[1..], directory, i - 1);
    }
  }

  /**
   * DownloadAsset: create the directory, then fetch every file of the asset; a null asset
   * fails right after the directory is created.
   */
  function DownloadAsset(asset: Option<Asset>, directory: string): (r: Run)
    ensures |r.effects| > 0 && r.effects[0] == CreateDirectory(directory)
    ensures r.fault.Some? <==> asset.None?
    ensures asset.None? ==> |r.effects| == 1 && r.fault == Some(NullAssetDownload)
    ensures asset.Some? ==> |r.effects| == 1 + |asset.value.files|
  {
    if asset.None? then Run([CreateDirectory(directory)], Some(NullAssetDownload))
    else Run([CreateDirectory(directory)] + DownloadFiles(asset.value.files, directory), None)
  }

  /** The end of Main once the job stage is over: a halted job ends the run, a returned one is downloaded. */
  function Conclude(provisioned: seq<Effect>, job: JobRun, jobId: string): (r: Run)
    ensures |provisioned| + |job.effects| <= |r.effects|
    ensures job.Returned? ==> |provisioned| + |job.effects| < |r.effects|
    ensures r.effects[..|provisioned|] == provisioned && r.effects[|provisioned|..|provisioned| + |job.effects|] == job.effects
    ensures job.Halted? ==> |r.effects| == |provisioned| + |job.effects| && r.fault == Some(job.fault)
    ensures job.Returned? ==> r.effects[|provisioned| + |job.effects|] == CreateDirectory(ResultDirectory(jobId))
    ensures job.Returned? ==> (r.fault.Some? <==> job.result.None?)
  {
    match job
    case Halted(effects, fault) => Run(provisioned + effects, Some(fault))
    case Returned(effects, result) =>
      var download := DownloadAsset(result, ResultDirectory(jobId));
      Run(provisioned + effects + download.effects, download.fault)
  }

  /** Main: the usage line, or one job end to end followed by the download of its result. */
  function Execute(args: seq<string>, env: Environment, jobId: string): (r: Run)
    ensures |args| != 2 ==> r == Run([Print(UsageLine)], None)
    ensures |args| == 2 && r.fault.None? ==> CreateDirectory(ResultDirectory(jobId)) in r.effects
  {
    match Dispatch(args)
    case Usage => Run([Print(UsageLine)], None)
    case UnknownMode => DownloadAsset(None, ResultDirectory(jobId))
    case RunJob(kind, source, configFile) =>
      var (provisioned, input) := Provision(kind, source, env, jobId);
      Conclude(provisioned, RunJobOn(kind, input, configFile, env, jobId), jobId)
  }
}
