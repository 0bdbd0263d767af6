/** The life of one job (executeJob in pkg/executor/executor.go): the goroutine as a machine
    whose every runtime call may be answered in any way, with its stack of deferred calls. */
module JobLifecycle {
  import opened Options
  import opened Redaction
  import opened Output
  import LogBuffer

  // ---------------------------------------------------------------- runtime calls

  type Error = Option<string>

  /** A call to the container runtime, with the image or container it is about, together with
      its answer.  `expired` says whether the context of the call had run out when it
      returned. */
  datatype Call =
    | ImageExists(image: string, found: bool, err: Error)
    | PullImage(image: string, expired: bool, err: Error)
    | CreateContainer(image: string, containerId: string, err: Error)
    | StartContainer(on: string, err: Error)
    | WaitContainer(on: string, code: int, expired: bool, err: Error)
    | StopContainer(on: string, err: Error)
    | KillContainer(on: string, err: Error)
    | GetLogs(on: string, stdout: string, stderr: string, err: Error)
    | RemoveContainer(on: string, err: Error)

  /** One answer for each kind of call: what an arbitrary runtime does to one job.  All calls
      are about one image, and about the container its creation answers with. */
  datatype Script = Script(
    exists_: Call, pull: Call, create: Call, start: Call, wait: Call,
    stop: Call, kill: Call, logs: Call, remove: Call)
  {
    predicate Proper() {
      && exists_.ImageExists? && pull.PullImage? && create.CreateContainer? && start.StartContainer?
      && wait.WaitContainer? && stop.StopContainer? && kill.KillContainer? && logs.GetLogs?
      && remove.RemoveContainer?
      && pull.image == exists_.image && create.image == exists_.image
      && start.on == wait.on == stop.on == kill.on == logs.on == remove.on == create.containerId
    }

    predicate About(image: string)
      requires Proper()
    {
      exists_.image == image
    }

    predicate NeedsPull()
      requires Proper()
    {
      exists_.err.None? && !exists_.found
    }

    predicate HasImage()
      requires Proper()
    {
      exists_.err.None? && (exists_.found || pull.err.None?)
    }

    predicate Created()
      requires Proper()
    {
      HasImage() && create.err.None?
    }

    predicate Started()
      requires Proper()
    {
      Created() && start.err.None?
    }

    predicate TimedOut()
      requires Proper()
    {
      Started() && wait.err.Some? && wait.expired
    }
  }

  function SomeScript(image: string): (s: Script)
    ensures s.Proper() && s.About(image)
  {
    Script(
      ImageExists(image, true, None), PullImage(image, false, None), CreateContainer(image, "c", None),
      StartContainer("c", None), WaitContainer("c", 0, false, None), StopContainer("c", None),
      KillContainer("c", None), GetLogs("c", "", "", None), RemoveContainer("c", None))
  }

  /** The call traces: the image, then the container, cut at the first fatal failure, and the
      removal of whatever was created. */
  function ImageCalls(s: Script): seq<Call>
    requires s.Proper()
  {
    [s.exists_] + if s.NeedsPull() then [s.pull] else []
  }

  function ShutdownCalls(s: Script): seq<Call>
    requires s.Proper()
  {
    if !s.TimedOut() then [] else [s.stop] + if s.stop.err.Some? then [s.kill] else []
  }

  function BodyCalls(s: Script): seq<Call>
    requires s.Proper()
  {
    if !s.HasImage() then ImageCalls(s)
    else if !s.Created() then ImageCalls(s) + [s.create]
    else if !s.Started() then ImageCalls(s) + [s.create, s.start]
    else ImageCalls(s) + [s.create, s.start, s.wait] + ShutdownCalls(s) + [s.logs]
  }

  function Trace(s: Script): seq<Call>
    requires s.Proper()
  {
    BodyCalls(s) + if s.Created() then [s.remove] else []
  }

  // ---------------------------------------------------------------- results

  datatype Request = Request(image: string, secrets: seq<Secret>, timeoutSeconds: Option<int>)

  /** Times in nanoseconds; MaxOutputBytes is not checked when the configuration is loaded,
      and must not be negative.  `pullTimeoutText` is the image pull timeout in print. */
  datatype Config = Config(maxOutputBytes: nat, defaultTimeout: int, maxTimeout: int, imagePullTimeout: int,
                           pullTimeoutText: string)

  datatype Result = Result(
    jobId: string, status: string, exitCode: Option<int>, stdout: string, stderr: string,
    stdoutTruncated: bool, stderrTruncated: bool, error: string)

  const PULL_FAILED := "image pull failed: "
  const CHECK_FAILED := "checking image existence: "
  const PULL_TIMED_OUT := "image pull timed out after "
  const CREATE_FAILED := "container create failed: "
  const START_FAILED := "container start failed: "
  const WAIT_FAILED := "container wait failed: "

  function ErrorResult(id: string, message: string): Result {
    Result(id, "error", None, "", "", false, false, message)
  }

  function CollectedResult(id: string, req: Request, cfg: Config, stdout: string, stderr: string,
                           timedOut: bool, waitErr: Error, exitCode: int): Result {
    var (outStr, errStr, outTruncated, errTruncated) := CaptureOutput(stdout, stderr, cfg.maxOutputBytes);
    var o := Redact(outStr, req.secrets, PLACEHOLDER);
    var e := Redact(errStr, req.secrets, PLACEHOLDER);
    if timedOut then Result(id, "timeout", Some(exitCode), o, e, outTruncated, errTruncated, "")
    else if waitErr.Some? then
      Result(id, "error", None, o, e, outTruncated, errTruncated, WAIT_FAILED + waitErr.value)
    else if exitCode == 0 then Result(id, "success", Some(exitCode), o, e, outTruncated, errTruncated, "")
    else Result(id, "failed", Some(exitCode), o, e, outTruncated, errTruncated, "")
  }

  // ---------------------------------------------------------------- the machine

  datatype Point =
    | Entry | Checking | Pulling | Creating | Starting | Running | Stopping | Killing | Collecting
    | Returning   // unwinding the deferred calls
    | Exited

  datatype Deferred = CloseDone | CloseLog | CancelJob | CancelTimeout | Remove(containerId: string) | CancelCollect

  /** The log streaming goroutine started beside the job. */
  datatype Streamer =
    | NotStarted
    | Fetching
    | WritingOut(out: string, err: string)
    | WritingErr(err: string)
    | Finished

  datatype Job = Job(
    id: string, req: Request,
    at: Point, defers: seq<Deferred>, calls: seq<Call>,
    containerId: string, exitCode: int, waitErr: Error, timedOut: bool,
    result: Option<Result>, done: bool, cancelled: bool,
    log: LogBuffer.State, streamer: Streamer)
  {
    function Defer(d: Deferred): Job { this.(defers := defers + [d]) }

    function Fail(message: string): Job {
      this.(result := Some(ErrorResult(id, message)), at := Returning)
    }

    function Top(): Deferred
      requires defers != []
    {
      defers[|defers| - 1]
    }

    function Pop(): Job
      requires defers != []
    {
      this.(defers := defers[..|defers| - 1])
    }
  }

  function NewJob(id: string, req: Request): Job {
    Job(id, req, Entry, [], [], "", 0, None, false, None, false, false, LogBuffer.INITIAL, NotStarted)
  }

  /** Is `c` the runtime call the goroutine is blocked in, with its arguments? */
  predicate CanCall(j: Job, c: Call) {
    match j.at
    case Checking => c.ImageExists? && c.image == j.req.image
    case Pulling => c.PullImage? && c.image == j.req.image
    case Creating => c.CreateContainer? && c.image == j.req.image
    case Starting => c.StartContainer? && c.on == j.containerId
    case Running => c.WaitContainer? && c.on == j.containerId
    case Stopping => c.StopContainer? && c.on == j.containerId
    case Killing => c.KillContainer? && c.on == j.containerId
    case Collecting => c.GetLogs? && c.on == j.containerId
    case Returning => j.defers != [] && j.Top().Remove? && c.RemoveContainer? && c.on == j.Top().containerId
    case _ => false
  }

  function PullMessage(c: Call, cfg: Config): string
    requires c.PullImage? && c.err.Some?
  {
    if c.expired then PULL_TIMED_OUT + cfg.pullTimeoutText else c.err.value
  }

  /** `defer logCancel()` precedes the second GetLogs. */
  function Collect(j: Job): Job {
    j.Defer(CancelCollect).(at := Collecting)
  }

  function AfterCall(j0: Job, c: Call, cfg: Config): Job
    requires CanCall(j0, c)
  {
    var j := j0.(calls := j0.calls + [c]);
    match c
    case ImageExists(_, found, err) =>
      if err.Some? then j.Fail(PULL_FAILED + CHECK_FAILED + err.value)
      else if found then j.(at := Creating) else j.(at := Pulling)
    case PullImage(_, _, err) =>
      if err.Some? then j.Fail(PULL_FAILED + PullMessage(c, cfg)) else j.(at := Creating)
    case CreateContainer(_, containerId, err) =>
      if err.Some? then j.Fail(CREATE_FAILED + err.value)
      else j.Defer(Remove(containerId)).(containerId := containerId, at := Starting)
    case StartContainer(_, err) =>
      if err.Some? then j.Fail(START_FAILED + err.value)
      else j.(at := Running, streamer := Fetching)
    case WaitContainer(_, code, expired, err) =>
      var w := j.(exitCode := code, waitErr := err);
      if err.Some? && expired then w.(timedOut := true, at := Stopping) else Collect(w)
    case StopContainer(_, err) => if err.Some? then j.(at := Killing) else Collect(j)
    case KillContainer(_, _) => Collect(j)
    case GetLogs(_, stdout, stderr, _) =>
      j.(result := Some(CollectedResult(j.id, j.req, cfg, stdout, stderr, j.timedOut, j.waitErr, j.exitCode)),
         at := Returning)
    case RemoveContainer(_, _) => j.Pop()
  }

  /** Steps without a runtime call: setting up, and running a deferred function. */
  predicate CanProceed(j: Job) {
    j.at == Entry || (j.at == Returning && j.defers != [] && !j.Top().Remove?)
  }

  function Proceed(j: Job): Job
    requires CanProceed(j)
  {
    if j.at == Entry then
      j.Defer(CloseDone).Defer(CloseLog).Defer(CancelJob).Defer(CancelTimeout).(at := Checking)
    else match j.Top()
      case CancelCollect => j.Pop()
      case CancelTimeout => j.Pop()
      case CancelJob => j.Pop().(cancelled := true)
      case CloseLog => j.Pop().(log := LogBuffer.Next(j.log, LogBuffer.Close))
      case CloseDone => j.Pop().(done := true, at := Exited)
      case Remove(_) => assert false; j
  }

  // ---------------------------------------------------------------- what a script makes of a job

  /** The result, told from the answers alone. */
  function ResultOf(id: string, req: Request, cfg: Config, s: Script): Result
    requires s.Proper()
  {
    if s.exists_.err.Some? then ErrorResult(id, PULL_FAILED + CHECK_FAILED + s.exists_.err.value)
    else if !s.HasImage() then ErrorResult(id, PULL_FAILED + PullMessage(s.pull, cfg))
    else if !s.Created() then ErrorResult(id, CREATE_FAILED + s.create.err.value)
    else if !s.Started() then ErrorResult(id, START_FAILED + s.start.err.value)
    else CollectedResult(id, req, cfg, s.logs.stdout, s.logs.stderr, s.TimedOut(), s.wait.err, s.wait.code)
  }

  const BASE := [CloseDone, CloseLog, CancelJob, CancelTimeout]

  function AllDefers(s: Script): seq<Deferred>
    requires s.Proper()
  {
    BASE + (if s.Created() then [Remove(s.create.containerId)] else [])
         + (if s.Started() then [CancelCollect] else [])
  }

  /** The calls made when the goroutine stands at a point before returning. */
  function CallsAt(p: Point, s: Script): seq<Call>
    requires s.Proper()
  {
    match p
    case Pulling => [s.exists_]
    case Creating => ImageCalls(s)
    case Starting => ImageCalls(s) + [s.create]
    case Running => ImageCalls(s) + [s.create, s.start]
    case Stopping => ImageCalls(s) + [s.create, s.start, s.wait]
    case Killing => ImageCalls(s) + [s.create, s.start, s.wait, s.stop]
    case Collecting => ImageCalls(s) + [s.create, s.start, s.wait] + ShutdownCalls(s)
    case _ => []
  }

  predicate Fits(p: Point, s: Script)
    requires s.Proper()
  {
    match p
    case Pulling => s.NeedsPull()
    case Creating => s.HasImage()
    case Starting => s.Created()
    case Running => s.Started()
    case Stopping => s.TimedOut()
    case Killing => s.TimedOut() && s.stop.err.Some?
    case Collecting => s.Started()
    case _ => true
  }

  predicate Unwinding(j: Job) {
    j.at == Returning || j.at == Exited
  }

  /** The goroutine has set its result and runs its deferred calls, last one first. */
  ghost predicate UnwindingInv(j: Job, cfg: Config, s: Script)
    requires s.Proper()
  {
    && j.result == Some(ResultOf(j.id, j.req, cfg, s))
    && j.defers <= AllDefers(s)
    && (j.defers == [] <==> j.at == Exited)
    && j.calls == BodyCalls(s) + (if s.Created() && |j.defers| <= 4 then [s.remove] else [])
    && (j.log.buffer.closed <==> |j.defers| < 2)
    && (j.cancelled <==> |j.defers| < 3)
    && (j.streamer != NotStarted ==> s.Started())
  }

  function DefersAt(p: Point, s: Script): seq<Deferred>
    requires s.Proper()
  {
    match p
    case Entry => []
    case Checking => BASE
    case Pulling => BASE
    case Creating => BASE
    case Collecting => BASE + [Remove(s.create.containerId), CancelCollect]
    case _ => BASE + [Remove(s.create.containerId)]
  }

  predicate HasWaited(p: Point) {
    p == Stopping || p == Killing || p == Collecting
  }

  ghost predicate WorkingInv(j: Job, s: Script)
    requires s.Proper()
  {
    && Fits(j.at, s)
    && j.calls == CallsAt(j.at, s)
    && j.defers == DefersAt(j.at, s)
    && !j.log.buffer.closed && !j.cancelled
    && (j.at in {Starting, Running} || HasWaited(j.at) ==> j.containerId == s.create.containerId)
    && (HasWaited(j.at) ==> j.waitErr == s.wait.err && j.exitCode == s.wait.code)
    && j.timedOut == (HasWaited(j.at) && s.TimedOut())
    && (j.streamer != NotStarted ==> HasWaited(j.at) || j.at == Running)
  }

  ghost predicate JobInv(j: Job, cfg: Config, s: Script) {
    && s.Proper() && s.About(j.req.image)
    && LogBuffer.Inv(j.log)
    && (j.done <==> j.at == Exited)
    && (j.result.Some? <==> Unwinding(j))
    && if Unwinding(j) then UnwindingInv(j, cfg, s) else WorkingInv(j, s)
  }

  /** What is known of the runtime's answers after one more call. */
  function Learn(s: Script, c: Call): Script
    requires s.Proper()
  {
    match c
    case ImageExists(_, _, _) => s.(exists_ := c)
    case PullImage(_, _, _) => s.(pull := c)
    case CreateContainer(_, id, _) =>
      s.(create := c, start := StartContainer(id, s.start.err),
         wait := WaitContainer(id, s.wait.code, s.wait.expired, s.wait.err), stop := StopContainer(id, s.stop.err),
         kill := KillContainer(id, s.kill.err), logs := GetLogs(id, s.logs.stdout, s.logs.stderr, s.logs.err),
         remove := RemoveContainer(id, s.remove.err))
    case StartContainer(_, _) => s.(start := c)
    case WaitContainer(_, _, _, _) => s.(wait := c)
    case StopContainer(_, _) => s.(stop := c)
    case KillContainer(_, _) => s.(kill := c)
    case GetLogs(_, _, _, _) => s.(logs := c)
    case RemoveContainer(_, _) => s.(remove := c)
  }

  lemma DefersByIndex(s: Script)
    requires s.Proper()
    ensures var d := AllDefers(s);
            && |d| == 4 + (if s.Created() then 1 else 0) + (if s.Started() then 1 else 0)
            && d[0] == CloseDone && d[1] == CloseLog && d[2] == CancelJob && d[3] == CancelTimeout
            && (s.Created() ==> d[4] == Remove(s.create.containerId))
            && (s.Started() ==> d[5] == CancelCollect)
  {
  }

  lemma LearnCreate(s: Script, c: Call)
    requires s.Proper() && c.CreateContainer? && s.About(c.image)
    ensures var s' := Learn(s, c);
            && s'.Proper() && s'.About(c.image) && s'.exists_ == s.exists_ && s'.pull == s.pull && s'.create == c
            && (s'.HasImage() <==> s.HasImage()) && ImageCalls(s') == ImageCalls(s)
  {
  }

  lemma CreateKeepsInv(j: Job, c: Call, cfg: Config, s: Script)
    requires JobInv(j, cfg, s) && CanCall(j, c) && j.at == Creating
    ensures JobInv(AfterCall(j, c, cfg), cfg, Learn(s, c))
  {
    LearnCreate(s, c);
    DefersByIndex(Learn(s, c));
  }

  lemma ImageCallsKeepInv(j: Job, c: Call, cfg: Config, s: Script)
    requires JobInv(j, cfg, s) && CanCall(j, c) && j.at in {Checking, Pulling}
    ensures JobInv(AfterCall(j, c, cfg), cfg, Learn(s, c))
  {
    DefersByIndex(Learn(s, c));
  }

  lemma StartKeepsInv(j: Job, c: Call, cfg: Config, s: Script)
    requires JobInv(j, cfg, s) && CanCall(j, c) && j.at == Starting
    ensures JobInv(AfterCall(j, c, cfg), cfg, Learn(s, c))
  {
    DefersByIndex(Learn(s, c));
  }

  lemma WaitKeepsInv(j: Job, c: Call, cfg: Config, s: Script)
    requires JobInv(j, cfg, s) && CanCall(j, c) && j.at == Running
    ensures JobInv(AfterCall(j, c, cfg), cfg, Learn(s, c))
  {
  }

  lemma ShutdownKeepsInv(j: Job, c: Call, cfg: Config, s: Script)
    requires JobInv(j, cfg, s) && CanCall(j, c) && j.at in {Stopping, Killing}
    ensures JobInv(AfterCall(j, c, cfg), cfg, Learn(s, c))
  {
  }

  lemma CollectKeepsInv(j: Job, c: Call, cfg: Config, s: Script)
    requires JobInv(j, cfg, s) && CanCall(j, c) && j.at == Collecting
    ensures JobInv(AfterCall(j, c, cfg), cfg, Learn(s, c))
  {
    DefersByIndex(s);
  }

  lemma RemoveKeepsInv(j: Job, c: Call, cfg: Config, s: Script)
    requires JobInv(j, cfg, s) && CanCall(j, c) && j.at == Returning
    ensures JobInv(AfterCall(j, c, cfg), cfg, Learn(s, c))
  {
    DefersByIndex(Learn(s, c));
    DefersByIndex(s);
  }

  lemma CallKeepsInv(j: Job, c: Call, cfg: Config, s: Script)
    requires JobInv(j, cfg, s) && CanCall(j, c)
    ensures JobInv(AfterCall(j, c, cfg), cfg, Learn(s, c))
  {
    if j.at in {Checking, Pulling} {
      ImageCallsKeepInv(j, c, cfg, s);
    } else if j.at == Creating {
      CreateKeepsInv(j, c, cfg, s);
    } else if j.at == Collecting {
      CollectKeepsInv(j, c, cfg, s);
    } else if j.at == Returning {
      RemoveKeepsInv(j, c, cfg, s);
    } else if j.at == Starting {
      StartKeepsInv(j, c, cfg, s);
    } else if j.at == Running {
      WaitKeepsInv(j, c, cfg, s);
    } else {
      ShutdownKeepsInv(j, c, cfg, s);
    }
  }

  lemma DeferKeepsInv(j: Job, cfg: Config, s: Script)
    requires JobInv(j, cfg, s) && CanProceed(j) && j.at == Returning
    ensures JobInv(Proceed(j), cfg, s)
  {
    DefersByIndex(s);
    var d, n := AllDefers(s), |j.defers|;
    assert j.Top() == d[n - 1];
    assert j.Pop().defers == d[..n - 1];
    if n == 2 {
      LogBuffer.InvNext(j.log, LogBuffer.Close);
    }
  }

  lemma ProceedKeepsInv(j: Job, cfg: Config, s: Script)
    requires JobInv(j, cfg, s) && CanProceed(j)
    ensures JobInv(Proceed(j), cfg, s)
  {
    if j.at == Returning {
      DeferKeepsInv(j, cfg, s);
    } else {
      assert Proceed(j).defers == BASE;
    }
  }

  // ---------------------------------------------------------------- the streaming goroutine

  /** Its own GetLogs call returns. */
  function AfterFetch(j: Job, stdout: string, stderr: string, failed: bool): Job {
    j.(streamer := if failed then Finished else WritingOut(stdout, stderr))
  }

  predicate CanWrite(j: Job) {
    j.streamer.WritingOut? || j.streamer.WritingErr?
  }

  function LinesOf(stream: string, data: string): seq<LogBuffer.Line> {
    if data == "" then [] else [LogBuffer.Line(stream, data)]
  }

  function WriteUnlessEmpty(log: LogBuffer.State, stream: string, data: string): LogBuffer.State {
    if data == "" then log else LogBuffer.Next(log, LogBuffer.Write(LogBuffer.Line(stream, data)))
  }

  function AfterWrite(j: Job): Job
    requires CanWrite(j)
  {
    match j.streamer
    case WritingOut(out, err) => j.(log := WriteUnlessEmpty(j.log, "stdout", out), streamer := WritingErr(err))
    case WritingErr(err) => j.(log := WriteUnlessEmpty(j.log, "stderr", err), streamer := Finished)
  }

  /** Whatever else happens to the log does not concern the job's goroutine. */
  lemma OthersKeepInv(j: Job, log: LogBuffer.State, streamer: Streamer, cfg: Config, s: Script)
    requires JobInv(j, cfg, s) && LogBuffer.Inv(log) && log.buffer.closed == j.log.buffer.closed
    requires streamer == j.streamer || j.streamer != NotStarted
    ensures JobInv(j.(log := log, streamer := streamer), cfg, s)
  {
  }

  lemma FetchKeepsInv(j: Job, stdout: string, stderr: string, failed: bool, cfg: Config, s: Script)
    requires JobInv(j, cfg, s) && j.streamer == Fetching
    ensures JobInv(AfterFetch(j, stdout, stderr, failed), cfg, s)
  {
    OthersKeepInv(j, j.log, AfterFetch(j, stdout, stderr, failed).streamer, cfg, s);
  }

  lemma WriteKeepsInv(j: Job, cfg: Config, s: Script)
    requires JobInv(j, cfg, s) && CanWrite(j)
    ensures JobInv(AfterWrite(j), cfg, s)
  {
    var j' := AfterWrite(j);
    if j'.log != j.log {
      var stream := if j.streamer.WritingOut? then "stdout" else "stderr";
      var data := if j.streamer.WritingOut? then j.streamer.out else j.streamer.err;
      LogBuffer.InvNext(j.log, LogBuffer.Write(LogBuffer.Line(stream, data)));
    }
    OthersKeepInv(j, j'.log, j'.streamer, cfg, s);
  }
}
