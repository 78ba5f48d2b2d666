/** Jobs as submitted, and the decision the program takes once the wait for a job returns. */
module Jobs {
  import opened Text
  import opened Faults
  import opened Assets
  import Processors

  /** The states the job scheduler reports. */
  datatype JobState = Queued | Scheduled | Processing | Finished | Error | Canceled | Canceling

  /** Terminal states: the wait returns once the job reaches one of them. */
  predicate IsTerminal(s: JobState)
  {
    s == Finished || s == Error || s == Canceled
  }

  /** The states a job can be in once the wait for it has returned. */
  type FinalState = s: JobState | IsTerminal(s) witness Finished

  /** An error a task reports when it fails. */
  datatype ErrorDetail = ErrorDetail(code: string, message: string)

  /** The single task a job carries: its processor, configuration text, input and output asset name. */
  datatype TaskSpec = TaskSpec(
    name: string,
    processor: Processors.MediaProcessor,
    configuration: string,
    input: Asset,
    outputAssetName: string)

  /** A job as handed to Submit. */
  datatype JobSpec = JobSpec(name: string, task: TaskSpec)

  /** What the program reads back from a job after the wait: state, per-task errors, output assets. */
  datatype Completion = Completion(state: JobState, taskErrors: seq<seq<ErrorDetail>>, outputs: seq<Asset>)

  /** The outcome of a job: a reported error, an output asset to download, or an exception. */
  datatype Decision = Failed(error: ErrorDetail) | Produced(output: Asset) | Threw(fault: Fault)

  /**
   * The post-wait check: in state Error, the first error of the first task is reported and no
   * asset is returned; in every other state, Canceled included, output asset 0 is returned.
   */
  function Decide(c: Completion): (d: Decision)
    ensures d.Failed? <==> c.state == Error && |c.taskErrors| > 0 && |c.taskErrors[0]| > 0
    ensures d.Failed? ==> d.error == c.taskErrors[0][0]
    ensures d.Produced? <==> c.state != Error && |c.outputs| > 0
    ensures d.Produced? ==> d.output == c.outputs[0]
    ensures d.Threw? ==> d.fault == (if c.state == Error then NoErrorDetail else NoOutputAsset)
  {
    if c.state == Error then
      if |c.taskErrors| == 0 || |c.taskErrors[0]| == 0 then Threw(NoErrorDetail)
      else Failed(c.taskErrors[0][0])
    else if |c.outputs| == 0 then Threw(NoOutputAsset)
    else Produced(c.outputs[0])
  }

  /** The format of the console line for a failed job. */
  const ErrorFormat: string := "Error: {0}. {1}"

  /** The console line for a failed job, as String.Format builds it: "Error: <code>. <message>". */
  function ErrorLine(e: ErrorDetail): (r: string)
    ensures r == "Error: " + e.code + ". " + e.message
  {
    var args := [e.code, e.message];
    ErrorFormatHead(args);
    ErrorFormatCode(args);
    ErrorFormatMessage(args);
    SeqAssoc("Error: ", e.code, ". " + e.message);
    SeqAssoc("Error: " + e.code, ". ", e.message);
    Format(ErrorFormat, args)
  }

  lemma ErrorFormatHead(args: seq<string>)
    ensures Format(ErrorFormat, args) == "Error: " + Format("{0}. {1}", args)
  {
    assert ErrorFormat == "Error: " + "{0}. {1}";
    assert Literal("Error: ");
    FormatLiteralPrefix("Error: ", "{0}. {1}", args);
  }

  lemma ErrorFormatCode(args: seq<string>)
    requires |args| == 2
    ensures Format("{0}. {1}", args) == args[0] + Format(". {1}", args)
  {
    assert "{0}. {1}" == ['{', ('0' as int + 0) as char, '}'] + ". {1}";
    FormatPlaceholder(0, ". {1}", args);
  }

  lemma ErrorFormatMessage(args: seq<string>)
    requires |args| == 2
    ensures Format(". {1}", args) == ". " + args[1]
  {
    assert ". {1}" == ". " + "{1}";
    assert Literal(". ");
    FormatLiteralPrefix(". ", "{1}", args);
    assert "{1}" == ['{', ('0' as int + 1) as char, '}'] + "";
    FormatPlaceholder(1, "", args);
  }

  /**
   * Associativity of concatenation, stated apart so that ErrorLine's proof does not search for
   * it among all its other facts; asserted inline the proof nears the solver's budget.
   */
  lemma SeqAssoc(a: string, b: string, c: string)
    ensures a + (b + c) == (a + b) + c
  {
  }
}
