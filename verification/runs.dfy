/** Properties of whole runs of the program, read off one observable channel at a time. */
module Runs {
  import opened Wrappers
  import opened Faults
  import opened Paths
  import opened Assets
  import opened Jobs
  import opened Processors
  import opened Program

  /** The observable channels of a run. */
  datatype Channel = Console | Uploads | Jobs | Directories | Downloads

  function ChannelOf(e: Effect): Channel
  {
    match e
    case Print(_) => Console
    case Upload(_, _) => Uploads
    case Submit(_) => Jobs
    case CreateDirectory(_) => Directories
    case Download(_, _) => Downloads
  }

  /** The effects of a run on one channel, in order. */
  function On(c: Channel, effects: seq<Effect>): (r: seq<Effect>)
    ensures forall e :: e in r ==> e in effects && ChannelOf(e) == c
  {
    if |effects| == 0 then []
    else (if ChannelOf(effects[0]) == c then [effects[0]] else []) + On(c, effects[1..])
  }

  /** Reading a channel distributes over running one sequence of effects after another. */
  lemma {:induction false} OnConcat(c: Channel, a: seq<Effect>, b: seq<Effect>)
    ensures On(c, a + b) == On(c, a) + On(c, b)
    decreases |a|
  {
    if |a| > 0 {
      assert (a + b)[1..] == a[1..] + b;
      OnConcat(c, a[1..], b);
    } else {
      assert a + b == b;
    }
  }

  /** The mode named on a two-argument command line that the program recognises. */
  function KindOf(mode: string): JobKind
  {
    if mode == "redact" then Redaction else Detection
  }

  predicate KnownMode(args: seq<string>)
  {
    |args| == 2 && (args[0] == "redact" || args[0] == "detect")
  }

  /**
   * Reference condition for a job being submitted: a known mode, a processor registered under
   * the mode's name, the mode's configuration file present, and, for an asset id, an asset with it.
   */
  predicate SubmitsJob(args: seq<string>, env: Environment)
  {
    && KnownMode(args)
    && (exists p :: p in env.processors && p.name == ProcessorName(KindOf(args[0])))
    && ConfigFile(KindOf(args[0])) in env.files
    && (IsAssetId(args[1]) ==> exists a :: a in env.assets && a.id == args[1])
  }

  function SourceOf(target: string): Source
  {
    if IsAssetId(target) then ExistingAsset(target) else NewFile(target)
  }

  /** What a known-mode run provisions and how its job goes, before the result is downloaded. */
  function Provisioned(args: seq<string>, env: Environment, jobId: string): (seq<Effect>, Option<Asset>)
    requires KnownMode(args)
  {
    Provision(KindOf(args[0]), SourceOf(args[1]), env, jobId)
  }

  function JobOf(args: seq<string>, env: Environment, jobId: string): JobRun
    requires KnownMode(args)
  {
    RunJobOn(KindOf(args[0]), Provisioned(args, env, jobId).1, ConfigFile(KindOf(args[0])), env, jobId)
  }

  /** A known-mode run is its provisioning followed by the job stage and what Main does after it. */
  lemma RunShape(args: seq<string>, env: Environment, jobId: string)
    requires KnownMode(args)
    ensures Dispatch(args) == RunJob(KindOf(args[0]), SourceOf(args[1]), ConfigFile(KindOf(args[0])))
    ensures Execute(args, env, jobId) == Conclude(Provisioned(args, env, jobId).0, JobOf(args, env, jobId), jobId)
  {
  }

  /** The processor lookup, the configuration file and the input all succeeded, so the job goes out. */
  predicate Ready(args: seq<string>, env: Environment, jobId: string)
    requires KnownMode(args)
  {
    && GetLatest(env.processors, ProcessorName(KindOf(args[0]))).Success?
    && ConfigFile(KindOf(args[0])) in env.files
    && Provisioned(args, env, jobId).1.Some?
  }

  /** The job a ready run submits. */
  function SpecOf(args: seq<string>, env: Environment, jobId: string): JobSpec
    requires KnownMode(args) && Ready(args, env, jobId)
  {
    var kind := KindOf(args[0]);
    JobSpec(JobName(kind, jobId),
      TaskSpec(TaskName(kind, jobId), GetLatest(env.processors, ProcessorName(kind)).value,
        env.files[ConfigFile(kind)], Provisioned(args, env, jobId).1.value, OutputAssetName(kind, jobId)))
  }

  /** The output asset the job leaves behind. */
  function OutputOf(args: seq<string>, env: Environment, jobId: string): Asset
    requires KnownMode(args)
  {
    Asset(env.jobEnd.outputId, OutputAssetName(KindOf(args[0]), jobId), env.jobEnd.outputFiles)
  }

  /** The job stage returns to Main unless it halts on an exception; only Error returns null. */
  lemma JobStageReturns(args: seq<string>, env: Environment, jobId: string)
    requires KnownMode(args)
    ensures JobOf(args, env, jobId).Returned? <==>
              Ready(args, env, jobId) && (env.jobEnd.state != Error || |env.jobEnd.errors| > 0)
    ensures JobOf(args, env, jobId).Returned? ==>
              JobOf(args, env, jobId).result == (if env.jobEnd.state == Error then None else Some(OutputOf(args, env, jobId)))
  {
  }

  /** A job stage that is not ready does nothing and throws the first failure of lookup, file, input. */
  lemma JobStageNotReady(args: seq<string>, env: Environment, jobId: string)
    requires KnownMode(args) && !Ready(args, env, jobId)
    ensures JobOf(args, env, jobId) == Halted([],
              if GetLatest(env.processors, ProcessorName(KindOf(args[0]))).Failure?
              then UnknownMediaProcessor("Unknown media processor")
              else if ConfigFile(KindOf(args[0])) !in env.files then ConfigurationNotFound(ConfigFile(KindOf(args[0])))
              else NullInputAsset)
  {
  }

  /** A ready job stage submits its job and, in state Error with an error to show, prints it. */
  lemma JobStageReady(args: seq<string>, env: Environment, jobId: string)
    requires KnownMode(args) && Ready(args, env, jobId)
    ensures JobOf(args, env, jobId).effects ==
              [Submit(SpecOf(args, env, jobId))] +
              (if env.jobEnd.state == Error && |env.jobEnd.errors| > 0
               then [Print(ErrorLine(env.jobEnd.errors[0]))] else [])
    ensures JobOf(args, env, jobId).Halted? ==> JobOf(args, env, jobId).fault == NoErrorDetail
  {
    var kind := KindOf(args[0]);
    SubmittingJobStage(kind, Provisioned(args, env, jobId).1, ConfigFile(kind), env, jobId);
  }

  /** The job stage once the processor, the configuration file and the input are all at hand. */
  lemma SubmittingJobStage(kind: JobKind, input: Option<Asset>, configFile: string, env: Environment, jobId: string)
    requires GetLatest(env.processors, ProcessorName(kind)).Success?
    requires configFile in env.files && input.Some?
    ensures var task := TaskSpec(TaskName(kind, jobId), GetLatest(env.processors, ProcessorName(kind)).value,
                                 env.files[configFile], input.value, OutputAssetName(kind, jobId));
      RunJobOn(kind, input, configFile, env, jobId).effects ==
        [Submit(JobSpec(JobName(kind, jobId), task))] +
        (if env.jobEnd.state == Error && |env.jobEnd.errors| > 0 then [Print(ErrorLine(env.jobEnd.errors[0]))] else [])
    ensures RunJobOn(kind, input, configFile, env, jobId).Halted? ==>
              RunJobOn(kind, input, configFile, env, jobId).fault == NoErrorDetail
  {
    var output := Asset(env.jobEnd.outputId, OutputAssetName(kind, jobId), env.jobEnd.outputFiles);
    var d := Decide(Completion(env.jobEnd.state, [env.jobEnd.errors], [output]));
    if d.Failed? {
      assert d.error == env.jobEnd.errors[0];
    }
  }

  /** An upload is the only effect of provisioning, and only a file target is uploaded. */
  lemma ProvisionStage(args: seq<string>, env: Environment, jobId: string)
    requires KnownMode(args)
    ensures var asset := UploadSingleFile(env.uploadId, args[1], InputAssetName(KindOf(args[0]), jobId, args[1]));
      Provisioned(args, env, jobId) ==
        if IsAssetId(args[1]) then ([], GetAsset(env.assets, args[1])) else ([Upload(args[1], asset)], Some(asset))
  {
  }

  /** A known-mode run is ready exactly when the reference condition for submitting holds. */
  lemma ReadyIffSubmitsJob(args: seq<string>, env: Environment, jobId: string)
    requires KnownMode(args)
    ensures Ready(args, env, jobId) <==> SubmitsJob(args, env)
  {
    ProvisionStage(args, env, jobId);
  }

  /** Downloads of a file list appear on the downloads channel only. */
  lemma {:induction false} DownloadFilesChannel(c: Channel, files: seq<AssetFile>, directory: string)
    ensures On(c, DownloadFiles(files, directory)) == if c == Downloads then DownloadFiles(files, directory) else []
    decreases |files|
  {
    if |files| > 0 {
      var d := DownloadFiles(files, directory);
      assert d == [d[0]] + DownloadFiles(files[1..], directory);
      OnConcat(c, [d[0]], DownloadFiles(files[1..], directory));
      DownloadFilesChannel(c, files[1..], directory);
    }
  }

  /** DownloadAsset creates the directory, then downloads every file of a non-null asset. */
  lemma DownloadChannels(c: Channel, asset: Option<Asset>, directory: string)
    ensures On(c, DownloadAsset(asset, directory).effects) ==
              (if c == Directories then [CreateDirectory(directory)] else []) +
              (if c == Downloads && asset.Some? then DownloadFiles(asset.value.files, directory) else [])
  {
    var created := [CreateDirectory(directory)];
    var fetched := if asset.Some? then DownloadFiles(asset.value.files, directory) else [];
    assert DownloadAsset(asset, directory).effects == created + fetched;
    OnConcat(c, created, fetched);
    assert On(c, created) == (if c == Directories then created else []) by {
      assert created[1..] == [];
    }
    assert On(c, fetched) == (if c == Downloads then fetched else []) by {
      if asset.Some? { DownloadFilesChannel(c, asset.value.files, directory); }
    }
  }

  /** DownloadAsset touches only the directories and downloads channels. */
  lemma DownloadQuiet(c: Channel, asset: Option<Asset>, directory: string)
    requires c != Directories && c != Downloads
    ensures On(c, DownloadAsset(asset, directory).effects) == []
  {
    DownloadChannels(c, asset, directory);
  }

  /** A channel of the end of a run: provisioning's part, the job's part, then the download's part. */
  lemma ConcludeChannel(c: Channel, provisioned: seq<Effect>, job: JobRun, jobId: string)
    ensures On(c, Conclude(provisioned, job, jobId).effects) ==
              On(c, provisioned) + On(c, job.effects) +
              (if job.Returned? then On(c, DownloadAsset(job.result, ResultDirectory(jobId)).effects) else [])
  {
    OnConcat(c, provisioned, job.effects);
    if job.Returned? {
      OnConcat(c, provisioned + job.effects, DownloadAsset(job.result, ResultDirectory(jobId)).effects);
    } else {
      assert On(c, provisioned + job.effects) + [] == On(c, provisioned + job.effects);
    }
  }

  /** A channel of a known-mode run. */
  lemma KnownRunChannel(c: Channel, args: seq<string>, env: Environment, jobId: string)
    requires KnownMode(args)
    ensures var job := JobOf(args, env, jobId);
      On(c, Execute(args, env, jobId).effects) ==
        On(c, Provisioned(args, env, jobId).0) + On(c, job.effects) +
        (if job.Returned? then On(c, DownloadAsset(job.result, ResultDirectory(jobId)).effects) else [])
  {
    RunShape(args, env, jobId);
    ConcludeChannel(c, Provisioned(args, env, jobId).0, JobOf(args, env, jobId), jobId);
  }

  /** The asset a file target is uploaded as. */
  function UploadedAsset(args: seq<string>, env: Environment, jobId: string): Asset
    requires KnownMode(args)
  {
    UploadSingleFile(env.uploadId, args[1], InputAssetName(KindOf(args[0]), jobId, args[1]))
  }

  /** Provisioning shows on the uploads channel only, and only for a file target. */
  lemma ProvisionChannel(c: Channel, args: seq<string>, env: Environment, jobId: string)
    requires KnownMode(args)
    ensures On(c, Provisioned(args, env, jobId).0) ==
              if c == Uploads && !IsAssetId(args[1]) then [Upload(args[1], UploadedAsset(args, env, jobId))] else []
  {
    ProvisionStage(args, env, jobId);
  }

  /** A submission, possibly followed by a console line, read on one channel. */
  lemma SubmitThenPrint(c: Channel, job: JobSpec, printed: bool, line: string)
    ensures On(c, [Submit(job)] + (if printed then [Print(line)] else [])) ==
              (if c == Jobs then [Submit(job)] else []) + (if c == Console && printed then [Print(line)] else [])
  {
    OnConcat(c, [Submit(job)], if printed then [Print(line)] else []);
  }

  /** Provisioning touches only the uploads channel. */
  lemma ProvisionQuiet(c: Channel, args: seq<string>, env: Environment, jobId: string)
    requires KnownMode(args) && c != Uploads
    ensures On(c, Provisioned(args, env, jobId).0) == []
  {
    ProvisionChannel(c, args, env, jobId);
  }

  /** The job stage shows its submission on the jobs channel and its error line on the console. */
  lemma JobChannel(c: Channel, args: seq<string>, env: Environment, jobId: string)
    requires KnownMode(args)
    ensures On(c, JobOf(args, env, jobId).effects) ==
              (if c == Jobs && Ready(args, env, jobId) then [Submit(SpecOf(args, env, jobId))] else []) +
              (if c == Console && Ready(args, env, jobId) && env.jobEnd.state == Error && |env.jobEnd.errors| > 0
               then [Print(ErrorLine(env.jobEnd.errors[0]))] else [])
  {
    if Ready(args, env, jobId) {
      JobStageReady(args, env, jobId);
      var printed := env.jobEnd.state == Error && |env.jobEnd.errors| > 0;
      SubmitThenPrint(c, SpecOf(args, env, jobId), printed, if printed then ErrorLine(env.jobEnd.errors[0]) else "");
    } else {
      JobStageNotReady(args, env, jobId);
    }
  }

  /** The console of a known-mode run shows the first error of a job that ended in Error, and nothing else. */
  lemma ConsoleOfKnownRun(args: seq<string>, env: Environment, jobId: string)
    requires KnownMode(args)
    ensures On(Console, Execute(args, env, jobId).effects) ==
              if Ready(args, env, jobId) && env.jobEnd.state == Error && |env.jobEnd.errors| > 0
              then [Print(ErrorLine(env.jobEnd.errors[0]))]
              else []
  {
    var job := JobOf(args, env, jobId);
    var before := On(Console, Provisioned(args, env, jobId).0);
    var during := On(Console, job.effects);
    var after := if job.Returned? then On(Console, DownloadAsset(job.result, ResultDirectory(jobId)).effects) else [];
    KnownRunChannel(Console, args, env, jobId);
    assert before == [] by { ProvisionQuiet(Console, args, env, jobId); }
    assert after == [] by {
      if job.Returned? { DownloadQuiet(Console, job.result, ResultDirectory(jobId)); }
    }
    assert during ==
      (if Ready(args, env, jobId) && env.jobEnd.state == Error && |env.jobEnd.errors| > 0
       then [Print(ErrorLine(env.jobEnd.errors[0]))] else [])
    by { JobChannel(Console, args, env, jobId); }
    OnlyMiddle(before, during, after);
  }

  /**
   * The console shows the usage line exactly when the argument count is not two, the first
   * error of a job that ended in Error, and nothing else. The progress lines the job's
   * state-change handler prints while the run waits are not effects of this model.
   */
  lemma ConsoleOutput(args: seq<string>, env: Environment, jobId: string)
    ensures On(Console, Execute(args, env, jobId).effects) ==
              if |args| != 2 then [Print(UsageLine)]
              else if KnownMode(args) && Ready(args, env, jobId) && env.jobEnd.state == Error && |env.jobEnd.errors| > 0
              then [Print(ErrorLine(env.jobEnd.errors[0]))]
              else []
  {
    if KnownMode(args) {
      ConsoleOfKnownRun(args, env, jobId);
    }
  }

  /** No error line can be mistaken for the usage line. */
  lemma ErrorLineIsNotUsage(e: ErrorDetail)
    ensures ErrorLine(e) != UsageLine
  {
    var line := "Error: " + e.code + ". " + e.message;
    assert line[0] == 'E';
    assert UsageLine[0] == "Invalid Usage: "[0] == 'I';
  }

  /** With two arguments the usage line is never printed. */
  lemma NoUsageWithTwoArguments(args: seq<string>, env: Environment, jobId: string)
    requires |args| == 2
    ensures Print(UsageLine) !in Execute(args, env, jobId).effects
  {
    var effects := Execute(args, env, jobId).effects;
    ConsoleOutput(args, env, jobId);
    if Print(UsageLine) in effects {
      OnKeeps(Console, effects, Print(UsageLine));
      ErrorLineIsNotUsage(env.jobEnd.errors[0]);
    }
  }

  /** The usage line is printed, and is the run's only effect, exactly when there are not two arguments. */
  lemma UsageExactlyOnWrongArgumentCount(args: seq<string>, env: Environment, jobId: string)
    ensures |args| != 2 ==> Execute(args, env, jobId) == Run([Print(UsageLine)], None)
    ensures Print(UsageLine) in Execute(args, env, jobId).effects <==> |args| != 2
  {
    if |args| == 2 {
      NoUsageWithTwoArguments(args, env, jobId);
    }
  }

  /** Every effect of a channel shows in the channel's reading. */
  lemma {:induction false} OnKeeps(c: Channel, effects: seq<Effect>, e: Effect)
    requires e in effects && ChannelOf(e) == c
    ensures e in On(c, effects)
    decreases |effects|
  {
    if effects[0] != e {
      OnKeeps(c, effects[1..], e);
    }
  }

  /** An unknown mode runs no job: the result directory is created and the null download throws. */
  lemma UnknownModeRunsNoJob(args: seq<string>, env: Environment, jobId: string)
    requires |args| == 2 && args[0] != "redact" && args[0] != "detect"
    ensures Execute(args, env, jobId) == Run([CreateDirectory(ResultDirectory(jobId))], Some(NullAssetDownload))
  {
  }

  /** A run submits one job when it is ready and none otherwise. */
  lemma SubmissionChannel(args: seq<string>, env: Environment, jobId: string)
    ensures On(Jobs, Execute(args, env, jobId).effects) ==
              if KnownMode(args) && Ready(args, env, jobId) then [Submit(SpecOf(args, env, jobId))] else []
  {
    if KnownMode(args) {
      SubmissionOfKnownRun(args, env, jobId);
    }
  }

  lemma SubmissionOfKnownRun(args: seq<string>, env: Environment, jobId: string)
    requires KnownMode(args)
    ensures On(Jobs, Execute(args, env, jobId).effects) ==
              if Ready(args, env, jobId) then [Submit(SpecOf(args, env, jobId))] else []
  {
    if Ready(args, env, jobId) {
      SubmissionOfReadyRun(args, env, jobId);
    } else {
      NoSubmissionUnlessReady(args, env, jobId);
    }
  }

  lemma SubmissionOfReadyRun(args: seq<string>, env: Environment, jobId: string)
    requires KnownMode(args) && Ready(args, env, jobId)
    ensures On(Jobs, Execute(args, env, jobId).effects) == [Submit(SpecOf(args, env, jobId))]
  {
    var job := JobOf(args, env, jobId);
    var before := On(Jobs, Provisioned(args, env, jobId).0);
    var during := On(Jobs, job.effects);
    var after := if job.Returned? then On(Jobs, DownloadAsset(job.result, ResultDirectory(jobId)).effects) else [];
    KnownRunChannel(Jobs, args, env, jobId);
    assert before == [] by { ProvisionQuiet(Jobs, args, env, jobId); }
    assert after == [] by {
      if job.Returned? { DownloadQuiet(Jobs, job.result, ResultDirectory(jobId)); }
    }
    assert during == [Submit(SpecOf(args, env, jobId))] by { JobChannel(Jobs, args, env, jobId); }
    OnlyMiddle(before, during, after);
  }

  /*
   * The three lemmas below are sequence identities. They are stated apart so that the run
   * lemmas prove them outside their large contexts: asserted inline, those proofs approach or
   * exceed the solver's budget.
   */

  /** A channel whose first and last parts are empty shows only its middle part. */
  lemma OnlyMiddle(before: seq<Effect>, during: seq<Effect>, after: seq<Effect>)
    requires before == [] && after == []
    ensures before + during + after == during
  {
  }

  /** A channel whose last two parts are empty shows only its first part. */
  lemma OnlyFirst(before: seq<Effect>, during: seq<Effect>, after: seq<Effect>)
    requires during == [] && after == []
    ensures before + during + after == before
  {
    assert before + [] == before;
  }

  /** A channel whose first two parts are empty shows only its last part. */
  lemma OnlyLast(before: seq<Effect>, during: seq<Effect>, after: seq<Effect>)
    requires before == [] && during == []
    ensures before + during + after == after
  {
  }

  lemma NoSubmissionUnlessReady(args: seq<string>, env: Environment, jobId: string)
    requires KnownMode(args) && !Ready(args, env, jobId)
    ensures On(Jobs, Execute(args, env, jobId).effects) == []
  {
    KnownRunChannel(Jobs, args, env, jobId);
    JobStageReturns(args, env, jobId);
    ProvisionQuiet(Jobs, args, env, jobId);
    JobChannel(Jobs, args, env, jobId);
  }

  /**
   * The submitted job runs the latest processor with the mode's name, carries the text of the
   * mode's configuration file, and takes as input the asset the target names or the upload of it.
   */
  lemma SubmittedJobFollowsArguments(args: seq<string>, env: Environment, jobId: string)
    requires KnownMode(args) && Ready(args, env, jobId)
    ensures var task := SpecOf(args, env, jobId).task;
      && task.processor.name == ProcessorName(KindOf(args[0]))
      && (exists i :: IsLatestAt(env.processors, ProcessorName(KindOf(args[0])), i) && env.processors[i] == task.processor)
      && task.configuration == env.files[ConfigFile(KindOf(args[0]))]
      && (args[0] == "redact" ==> ConfigFile(KindOf(args[0])) == "config.json")
      && (args[0] == "detect" ==> ConfigFile(KindOf(args[0])) == "faceconfig.json")
      && (IsAssetId(args[1]) ==> task.input.id == args[1] && GetAsset(env.assets, args[1]) == Some(task.input))
      && (!IsAssetId(args[1]) ==> task.input == UploadedAsset(args, env, jobId))
  {
    var name := ProcessorName(KindOf(args[0]));
    GetLatestIsLatestAt(env.processors, name);
    ProvisionStage(args, env, jobId);
    if IsAssetId(args[1]) {
      var r := GetAsset(env.assets, args[1]);
    }
  }

  /** A file target of a known mode is uploaded once, as the run's first effect. */
  lemma UploadOfKnownRun(args: seq<string>, env: Environment, jobId: string)
    requires KnownMode(args)
    ensures On(Uploads, Execute(args, env, jobId).effects) ==
              if IsAssetId(args[1]) then [] else [Upload(args[1], UploadedAsset(args, env, jobId))]
  {
    var job := JobOf(args, env, jobId);
    var before := On(Uploads, Provisioned(args, env, jobId).0);
    var during := On(Uploads, job.effects);
    var after := if job.Returned? then On(Uploads, DownloadAsset(job.result, ResultDirectory(jobId)).effects) else [];
    KnownRunChannel(Uploads, args, env, jobId);
    assert after == [] by {
      if job.Returned? { DownloadQuiet(Uploads, job.result, ResultDirectory(jobId)); }
    }
    assert during == [] by { JobChannel(Uploads, args, env, jobId); }
    assert before == (if IsAssetId(args[1]) then [] else [Upload(args[1], UploadedAsset(args, env, jobId))])
    by { ProvisionChannel(Uploads, args, env, jobId); }
    OnlyFirst(before, during, after);
  }

  /** Provisioning comes first: a file target's upload precedes everything else the run does. */
  lemma UploadComesFirst(args: seq<string>, env: Environment, jobId: string)
    requires KnownMode(args) && !IsAssetId(args[1])
    ensures Execute(args, env, jobId).effects[0] == Upload(args[1], UploadedAsset(args, env, jobId))
  {
    RunShape(args, env, jobId);
    ProvisionStage(args, env, jobId);
  }

  /** A file target is uploaded exactly once and an asset id never is; nothing else uploads. */
  lemma UploadChannel(args: seq<string>, env: Environment, jobId: string)
    ensures On(Uploads, Execute(args, env, jobId).effects) ==
              if KnownMode(args) && !IsAssetId(args[1]) then [Upload(args[1], UploadedAsset(args, env, jobId))] else []
  {
    if KnownMode(args) {
      UploadOfKnownRun(args, env, jobId);
    }
  }

  /** A known-mode run downloads every output file exactly when its job is ready and did not end in Error. */
  lemma DownloadsOfKnownRun(args: seq<string>, env: Environment, jobId: string)
    requires KnownMode(args)
    ensures On(Downloads, Execute(args, env, jobId).effects) ==
              if Ready(args, env, jobId) && env.jobEnd.state != Error
              then DownloadFiles(env.jobEnd.outputFiles, ResultDirectory(jobId))
              else []
  {
    var job := JobOf(args, env, jobId);
    var before := On(Downloads, Provisioned(args, env, jobId).0);
    var during := On(Downloads, job.effects);
    var after := if job.Returned? then On(Downloads, DownloadAsset(job.result, ResultDirectory(jobId)).effects) else [];
    KnownRunChannel(Downloads, args, env, jobId);
    assert before == [] by { ProvisionQuiet(Downloads, args, env, jobId); }
    assert during == [] by { JobChannel(Downloads, args, env, jobId); }
    assert after ==
      (if Ready(args, env, jobId) && env.jobEnd.state != Error
       then DownloadFiles(env.jobEnd.outputFiles, ResultDirectory(jobId)) else [])
    by {
      JobStageReturns(args, env, jobId);
      if job.Returned? { DownloadChannels(Downloads, job.result, ResultDirectory(jobId)); }
    }
    OnlyLast(before, during, after);
  }

  /**
   * The output files are downloaded, one by one and in order, exactly when a job was submitted
   * and did not end in Error; Canceled and Finished alike download.
   */
  lemma DownloadChannel(args: seq<string>, env: Environment, jobId: string)
    ensures On(Downloads, Execute(args, env, jobId).effects) ==
              if KnownMode(args) && Ready(args, env, jobId) && env.jobEnd.state != Error
              then DownloadFiles(env.jobEnd.outputFiles, ResultDirectory(jobId))
              else []
  {
    if KnownMode(args) {
      DownloadsOfKnownRun(args, env, jobId);
    }
  }

  /** A known-mode run creates the result directory exactly when its job returned to Main. */
  lemma DirectoriesOfKnownRun(args: seq<string>, env: Environment, jobId: string)
    requires KnownMode(args)
    ensures On(Directories, Execute(args, env, jobId).effects) ==
              if Ready(args, env, jobId) && (env.jobEnd.state != Error || |env.jobEnd.errors| > 0)
              then [CreateDirectory(ResultDirectory(jobId))]
              else []
  {
    var job := JobOf(args, env, jobId);
    var before := On(Directories, Provisioned(args, env, jobId).0);
    var during := On(Directories, job.effects);
    var after := if job.Returned? then On(Directories, DownloadAsset(job.result, ResultDirectory(jobId)).effects) else [];
    KnownRunChannel(Directories, args, env, jobId);
    assert before == [] by { ProvisionQuiet(Directories, args, env, jobId); }
    assert during == [] by { JobChannel(Directories, args, env, jobId); }
    assert after ==
      (if Ready(args, env, jobId) && (env.jobEnd.state != Error || |env.jobEnd.errors| > 0)
       then [CreateDirectory(ResultDirectory(jobId))] else [])
    by {
      JobStageReturns(args, env, jobId);
      if job.Returned? { DownloadChannels(Directories, job.result, ResultDirectory(jobId)); }
    }
    OnlyLast(before, during, after);
  }

  /**
   * The result directory is created, once, when the mode is unknown or the job returned to Main,
   * even when what it returned is null.
   */
  lemma DirectoryChannel(args: seq<string>, env: Environment, jobId: string)
    ensures On(Directories, Execute(args, env, jobId).effects) ==
              if (|args| == 2 && !KnownMode(args))
                 || (KnownMode(args) && Ready(args, env, jobId) && (env.jobEnd.state != Error || |env.jobEnd.errors| > 0))
              then [CreateDirectory(ResultDirectory(jobId))]
              else []
  {
    if KnownMode(args) {
      DirectoriesOfKnownRun(args, env, jobId);
    }
  }

  /** How a known-mode run ends: the first failure before submission, or what the job's end leads to. */
  lemma FaultOfKnownRun(args: seq<string>, env: Environment, jobId: string)
    requires KnownMode(args)
    ensures Execute(args, env, jobId).fault ==
              if !Ready(args, env, jobId) then
                Some(if GetLatest(env.processors, ProcessorName(KindOf(args[0]))).Failure?
                     then UnknownMediaProcessor("Unknown media processor")
                     else if ConfigFile(KindOf(args[0])) !in env.files then ConfigurationNotFound(ConfigFile(KindOf(args[0])))
                     else NullInputAsset)
              else if env.jobEnd.state == Error then
                Some(if |env.jobEnd.errors| > 0 then NullAssetDownload else NoErrorDetail)
              else None
  {
    RunShape(args, env, jobId);
    JobStageReturns(args, env, jobId);
    if Ready(args, env, jobId) {
      JobStageReady(args, env, jobId);
    } else {
      JobStageNotReady(args, env, jobId);
    }
  }

  /**
   * A run ends cleanly only on the usage path or after downloading a job that did not end in
   * Error; every other run ends in an exception.
   */
  lemma RunFault(args: seq<string>, env: Environment, jobId: string)
    ensures Execute(args, env, jobId).fault.None? <==>
              |args| != 2 || (KnownMode(args) && Ready(args, env, jobId) && env.jobEnd.state != Error)
    ensures |args| == 2 && !KnownMode(args) ==> Execute(args, env, jobId).fault == Some(NullAssetDownload)
  {
    if KnownMode(args) {
      FaultOfKnownRun(args, env, jobId);
    }
  }

  /**
   * Once the wait returns in state Error, nothing is downloaded: the first error of the task is
   * printed, and the null result then makes the download throw.
   */
  lemma ErrorStateDownloadsNothing(args: seq<string>, env: Environment, jobId: string)
    requires KnownMode(args) && Ready(args, env, jobId) && env.jobEnd.state == Error
    ensures On(Downloads, Execute(args, env, jobId).effects) == []
    ensures |env.jobEnd.errors| > 0 ==>
              && On(Console, Execute(args, env, jobId).effects) == [Print(ErrorLine(env.jobEnd.errors[0]))]
              && Execute(args, env, jobId).fault == Some(NullAssetDownload)
    ensures |env.jobEnd.errors| == 0 ==> Execute(args, env, jobId).fault == Some(NoErrorDetail)
  {
    DownloadsOfKnownRun(args, env, jobId);
    ConsoleOfKnownRun(args, env, jobId);
    FaultOfKnownRun(args, env, jobId);
  }

  /**
   * In every other final state, Canceled included, the run prints nothing, downloads every file
   * of the output asset into the result directory, and ends cleanly.
   */
  lemma OtherStatesDownloadOutput(args: seq<string>, env: Environment, jobId: string)
    requires KnownMode(args) && Ready(args, env, jobId) && env.jobEnd.state != Error
    ensures On(Downloads, Execute(args, env, jobId).effects) == DownloadFiles(env.jobEnd.outputFiles, ResultDirectory(jobId))
    ensures On(Console, Execute(args, env, jobId).effects) == []
    ensures Execute(args, env, jobId).fault == None
  {
    DownloadsOfKnownRun(args, env, jobId);
    ConsoleOfKnownRun(args, env, jobId);
    FaultOfKnownRun(args, env, jobId);
  }

  /**
   * Each output file lands at result_<job id>\<file name>, and the local file keeps the remote
   * file's name, when the name is not empty and holds no separator.
   */
  lemma DownloadTargetsKeepNames(files: seq<AssetFile>, jobId: string, i: int)
    requires 0 <= i < |files| && |files[i].name| > 0 && NoSeparator(files[i].name)
    requires NoSeparator(jobId)
    ensures DownloadFiles(files, ResultDirectory(jobId))[i] == Download(files[i], ResultDirectory(jobId) + "\\" + files[i].name)
    ensures GetFileName(ResultDirectory(jobId) + "\\" + files[i].name) == files[i].name
  {
    var dir := ResultDirectory(jobId);
    var name := files[i].name;
    DownloadFilesAt(files, dir, i);
    assert !IsSeparator(dir[|dir| - 1]) by {
      if |jobId| > 0 {
        assert dir[|dir| - 1] == jobId[|jobId| - 1];
      }
    }
    assert !IsPathRooted(name) by {
      assert !IsSeparator(name[0]);
      if |name| >= 2 { assert !IsSeparator(name[1]); }
    }
    FileNameRoundTrip(dir, name);
  }
}
