/** Which runtime calls a job makes, what they say about its result, and that it ends. */
module JobTraces {
  import opened Options
  import opened Strings
  import opened Output
  import opened Redaction
  import opened RedactionProofs
  import opened JobLifecycle

  // ---------------------------------------------------------------- progress

  function Rank(j: Job): nat {
    match j.at
    case Entry => 20
    case Checking => 19
    case Pulling => 18
    case Creating => 17
    case Starting => 16
    case Running => 15
    case Stopping => 14
    case Killing => 13
    case Collecting => 12
    case Returning => |j.defers|
    case Exited => 0
  }

  /** A step of the job's goroutine. */
  ghost predicate Steps(j: Job, j': Job, cfg: Config) {
    || (CanProceed(j) && j' == Proceed(j))
    || exists c :: CanCall(j, c) && j' == AfterCall(j, c, cfg)
  }

  lemma LastCallDecreases(j: Job, c: Call, cfg: Config, s: Script)
    requires JobInv(j, cfg, s) && CanCall(j, c) && j.at in {Collecting, Returning}
    ensures Rank(AfterCall(j, c, cfg)) < Rank(j)
  {
    DefersByIndex(s);
  }

  /** The other calls that can fail for good. */
  lemma FailingCallDecreases(j: Job, c: Call, cfg: Config, s: Script)
    requires JobInv(j, cfg, s) && CanCall(j, c) && j.at in {Checking, Pulling, Creating, Starting}
    ensures Rank(AfterCall(j, c, cfg)) < Rank(j)
  {
  }

  lemma CallDecreases(j: Job, c: Call, cfg: Config, s: Script)
    requires JobInv(j, cfg, s) && CanCall(j, c)
    ensures Rank(AfterCall(j, c, cfg)) < Rank(j)
  {
    if j.at in {Collecting, Returning} {
      LastCallDecreases(j, c, cfg, s);
    } else if j.at in {Checking, Pulling, Creating, Starting} {
      FailingCallDecreases(j, c, cfg, s);
    }
  }

  /** The script's answer to the call the job waits for. */
  function Asked(j: Job, cfg: Config, s: Script): (c: Call)
    requires JobInv(j, cfg, s) && j.at != Exited && !CanProceed(j)
    ensures CanCall(j, c) && Learn(s, c) == s
  {
    DefersByIndex(s);
    match j.at
    case Checking => s.exists_
    case Pulling => s.pull
    case Creating => s.create
    case Starting => s.start
    case Running => s.wait
    case Stopping => s.stop
    case Killing => s.kill
    case Collecting => s.logs
    case Returning => s.remove
  }

  /** Every step brings the job closer to its end, whatever the runtime answers, and until it
      has ended there is a step to take. */
  lemma JobProgresses(j: Job, cfg: Config, s: Script)
    requires JobInv(j, cfg, s)
    ensures forall j' | Steps(j, j', cfg) :: Rank(j') < Rank(j)
    ensures j.at != Exited ==> exists j' :: Steps(j, j', cfg)
  {
    forall j' | Steps(j, j', cfg) ensures Rank(j') < Rank(j) {
      if !(CanProceed(j) && j' == Proceed(j)) {
        var c :| CanCall(j, c) && j' == AfterCall(j, c, cfg);
        CallDecreases(j, c, cfg, s);
      }
    }
    if j.at != Exited {
      if CanProceed(j) {
        assert Steps(j, Proceed(j), cfg);
      } else {
        assert Steps(j, AfterCall(j, Asked(j, cfg, s), cfg), cfg);
      }
    }
  }

  // ---------------------------------------------------------------- exactly these traces

  ghost predicate GoroutineRun(run: seq<Job>, cfg: Config) {
    run != [] && forall k | 0 <= k < |run| - 1 :: Steps(run[k], run[k + 1], cfg)
  }

  /** A runtime that answers by a script drives the job to its end along that script. */
  lemma {:induction false} Drive(j: Job, cfg: Config, s: Script) returns (run: seq<Job>)
    requires JobInv(j, cfg, s)
    ensures GoroutineRun(run, cfg) && run[0] == j
    ensures run[|run| - 1].at == Exited && JobInv(run[|run| - 1], cfg, s)
    decreases Rank(j)
  {
    if j.at == Exited {
      run := [j];
    } else {
      var j';
      if CanProceed(j) {
        j' := Proceed(j);
        ProceedKeepsInv(j, cfg, s);
      } else {
        j' := AfterCall(j, Asked(j, cfg, s), cfg);
        CallKeepsInv(j, Asked(j, cfg, s), cfg, s);
      }
      assert Steps(j, j', cfg);
      JobProgresses(j, cfg, s);
      var rest := Drive(j', cfg, s);
      run := [j] + rest;
    }
  }

  lemma {:induction false} RunHasScript(run: seq<Job>, cfg: Config, s: Script) returns (s': Script)
    requires GoroutineRun(run, cfg) && JobInv(run[0], cfg, s)
    ensures JobInv(run[|run| - 1], cfg, s')
    decreases |run|
  {
    s' := s;
    if |run| > 1 {
      var j := run[0];
      assert Steps(run[0], run[0 + 1], cfg);
      if CanProceed(j) && run[1] == Proceed(j) {
        ProceedKeepsInv(j, cfg, s);
      } else {
        var c :| CanCall(j, c) && run[1] == AfterCall(j, c, cfg);
        CallKeepsInv(j, c, cfg, s);
        s' := Learn(s, c);
      }
      s' := RunHasScript(run[1..], cfg, s');
    }
  }

  lemma ExitedTrace(j: Job, cfg: Config, s: Script)
    requires JobInv(j, cfg, s) && j.at == Exited
    ensures j.calls == Trace(s)
  {
  }

  lemma NewJobInv(id: string, req: Request, cfg: Config, s: Script)
    requires s.Proper() && s.About(req.image)
    ensures JobInv(NewJob(id, req), cfg, s)
  {
  }

  ghost predicate Makes(id: string, req: Request, cfg: Config, calls: seq<Call>, run: seq<Job>) {
    && GoroutineRun(run, cfg) && run[0] == NewJob(id, req)
    && run[|run| - 1].at == Exited && run[|run| - 1].calls == calls
  }

  lemma CallKeepsRequest(j: Job, c: Call, cfg: Config)
    requires CanCall(j, c)
    ensures AfterCall(j, c, cfg).id == j.id && AfterCall(j, c, cfg).req == j.req
  {
  }

  lemma StepKeepsRequest(j: Job, j': Job, cfg: Config)
    requires Steps(j, j', cfg)
    ensures j'.id == j.id && j'.req == j.req
  {
    if !(CanProceed(j) && j' == Proceed(j)) {
      var c :| CanCall(j, c) && j' == AfterCall(j, c, cfg);
      CallKeepsRequest(j, c, cfg);
    }
  }

  lemma {:induction false} RunKeepsRequest(run: seq<Job>, cfg: Config)
    requires GoroutineRun(run, cfg)
    ensures run[|run| - 1].id == run[0].id && run[|run| - 1].req == run[0].req
    decreases |run|
  {
    if |run| > 1 {
      assert Steps(run[0], run[0 + 1], cfg);
      StepKeepsRequest(run[0], run[1], cfg);
      RunKeepsRequest(run[1..], cfg);
    }
  }

  ghost predicate TraceOf(s: Script, image: string, calls: seq<Call>) {
    s.Proper() && s.About(image) && calls == Trace(s)
  }

  lemma MadeIsTrace(id: string, req: Request, cfg: Config, calls: seq<Call>, run: seq<Job>) returns (s: Script)
    requires Makes(id, req, cfg, calls, run)
    ensures TraceOf(s, req.image, calls)
  {
    NewJobInv(id, req, cfg, SomeScript(req.image));
    s := RunHasScript(run, cfg, SomeScript(req.image));
    ExitedTrace(run[|run| - 1], cfg, s);
    RunKeepsRequest(run, cfg);
  }

  lemma TraceIsMade(id: string, req: Request, cfg: Config, calls: seq<Call>, s: Script) returns (run: seq<Job>)
    requires TraceOf(s, req.image, calls)
    ensures Makes(id, req, cfg, calls, run)
  {
    NewJobInv(id, req, cfg, s);
    run := Drive(NewJob(id, req), cfg, s);
    ExitedTrace(run[|run| - 1], cfg, s);
  }

  /** MAIN RESULT.  A finished job can have made a sequence of calls if and only if the
      sequence is the trace of some script about the image requested. */
  lemma TracesAreExact(id: string, req: Request, cfg: Config, calls: seq<Call>)
    ensures (exists run :: Makes(id, req, cfg, calls, run)) <==> (exists s :: TraceOf(s, req.image, calls))
  {
    if exists run :: Makes(id, req, cfg, calls, run) {
      var run :| Makes(id, req, cfg, calls, run);
      var s := MadeIsTrace(id, req, cfg, calls, run);
    }
    if exists s :: TraceOf(s, req.image, calls) {
      var s :| TraceOf(s, req.image, calls);
      var run := TraceIsMade(id, req, cfg, calls, s);
    }
  }

  // ---------------------------------------------------------------- the shape of a trace

  function Stage(c: Call): nat {
    match c
    case ImageExists(_, _, _) => 0
    case PullImage(_, _, _) => 1
    case CreateContainer(_, _, _) => 2
    case StartContainer(_, _) => 3
    case WaitContainer(_, _, _, _) => 4
    case StopContainer(_, _) => 5
    case KillContainer(_, _) => 6
    case GetLogs(_, _, _, _) => 7
    case RemoveContainer(_, _) => 8
  }

  ghost predicate Ordered(calls: seq<Call>) {
    forall i, k | 0 <= i < k < |calls| :: Stage(calls[i]) < Stage(calls[k])
  }

  /** Ordered, with all stages in lo .. hi. */
  ghost predicate OrderedIn(calls: seq<Call>, lo: nat, hi: nat) {
    Ordered(calls) && forall k | 0 <= k < |calls| :: lo <= Stage(calls[k]) < hi
  }

  lemma OrderedConcat(a: seq<Call>, b: seq<Call>, lo: nat, mid: nat, hi: nat)
    requires OrderedIn(a, lo, mid) && OrderedIn(b, mid, hi) && lo <= mid <= hi
    ensures OrderedIn(a + b, lo, hi)
  {
  }

  /** A trace is a concatenation of parts that lie in consecutive stages. */
  lemma PartsAreOrdered(image: seq<Call>, middle: seq<Call>, shutdown: seq<Call>, logs: seq<Call>, remove: seq<Call>)
    requires OrderedIn(image, 0, 2) && OrderedIn(middle, 2, 5) && OrderedIn(shutdown, 5, 7)
    requires OrderedIn(logs, 7, 8) && OrderedIn(remove, 8, 9)
    ensures Ordered(image + middle + shutdown + logs + remove)
  {
    OrderedConcat(image, middle, 0, 2, 5);
    OrderedConcat(image + middle, shutdown, 0, 5, 7);
    OrderedConcat(image + middle + shutdown, logs, 0, 7, 8);
    OrderedConcat(image + middle + shutdown + logs, remove, 0, 8, 9);
  }

  /** The calls between the image and the end of the wait. */
  function Middle(s: Script): seq<Call>
    requires s.Proper()
  {
    if !s.HasImage() then [] else if !s.Created() then [s.create]
    else if !s.Started() then [s.create, s.start] else [s.create, s.start, s.wait]
  }

  lemma PartStages(s: Script)
    requires s.Proper()
    ensures OrderedIn(ImageCalls(s), 0, 2) && OrderedIn(Middle(s), 2, 5) && OrderedIn(ShutdownCalls(s), 5, 7)
  {
  }

  lemma TraceParts(s: Script)
    requires s.Proper()
    ensures BodyCalls(s) == ImageCalls(s) + Middle(s) + ShutdownCalls(s) + if s.Started() then [s.logs] else []
  {
  }

  lemma TraceIsOrdered(s: Script)
    requires s.Proper()
    ensures Ordered(Trace(s))
  {
    PartStages(s);
    TraceParts(s);
    PartsAreOrdered(ImageCalls(s), Middle(s), ShutdownCalls(s),
                    if s.Started() then [s.logs] else [], if s.Created() then [s.remove] else []);
  }

  ghost predicate Made(calls: seq<Call>, stage: nat, failed: bool) {
    exists c :: c in calls && Stage(c) == stage && c.err.Some? == failed
  }

  ghost predicate Called(calls: seq<Call>, stage: nat) {
    Made(calls, stage, false) || Made(calls, stage, true)
  }

  /** The part a call plays in a script, and whether it comes to that. */
  ghost predicate Happens(s: Script, c: Call)
    requires s.Proper()
  {
    || c == s.exists_
    || (c == s.pull && s.NeedsPull())
    || (c == s.create && s.HasImage())
    || (c == s.start && s.Created())
    || (c == s.wait && s.Started())
    || (c == s.stop && s.TimedOut())
    || (c == s.kill && s.TimedOut() && s.stop.err.Some?)
    || (c == s.logs && s.Started())
    || (c == s.remove && s.Created())
  }

  lemma BodyHas(s: Script, c: Call)
    requires s.Proper()
    ensures c in BodyCalls(s) <==> Happens(s, c) && c != s.remove
  {
    assert c in ImageCalls(s) <==> c == s.exists_ || (c == s.pull && s.NeedsPull());
    assert c in ShutdownCalls(s) <==> s.TimedOut() && (c == s.stop || (c == s.kill && s.stop.err.Some?));
  }

  lemma TraceHas(s: Script, c: Call)
    requires s.Proper()
    ensures c in Trace(s) <==> Happens(s, c)
  {
    BodyHas(s, c);
  }

  function Slot(s: Script, stage: nat): (c: Call)
    requires s.Proper() && stage <= 8
    ensures Stage(c) == stage
  {
    if stage == 0 then s.exists_ else if stage == 1 then s.pull else if stage == 2 then s.create
    else if stage == 3 then s.start else if stage == 4 then s.wait else if stage == 5 then s.stop
    else if stage == 6 then s.kill else if stage == 7 then s.logs else s.remove
  }

  lemma HappensInSlot(s: Script, c: Call)
    requires s.Proper() && Happens(s, c)
    ensures Stage(c) <= 8 && c == Slot(s, Stage(c))
  {
  }

  lemma MadeIff(s: Script, stage: nat, failed: bool)
    requires s.Proper() && stage <= 8
    ensures Made(Trace(s), stage, failed) <==> Happens(s, Slot(s, stage)) && Slot(s, stage).err.Some? == failed
  {
    TraceHas(s, Slot(s, stage));
    if Made(Trace(s), stage, failed) {
      var c :| c in Trace(s) && Stage(c) == stage && c.err.Some? == failed;
      TraceHas(s, c);
      HappensInSlot(s, c);
    }
  }

  lemma CalledIff(s: Script, stage: nat)
    requires s.Proper() && stage <= 8
    ensures Called(Trace(s), stage) <==> Happens(s, Slot(s, stage))
  {
    MadeIff(s, stage, false);
    MadeIff(s, stage, true);
  }

  lemma WaitExpiredIff(s: Script)
    requires s.Proper()
    ensures (exists c :: c in Trace(s) && c.WaitContainer? && c.err.Some? && c.expired) <==> s.TimedOut()
  {
    TraceHas(s, s.wait);
    forall c | c in Trace(s) && c.WaitContainer? ensures c == s.wait && s.Started() {
      TraceHas(s, c);
    }
  }

  predicate OnImage(c: Call) {
    c.ImageExists? || c.PullImage? || c.CreateContainer?
  }

  ghost predicate Creates(calls: seq<Call>, id: string) {
    exists d :: d in calls && d.CreateContainer? && d.err.None? && d.containerId == id
  }

  /** All calls about an image are about this one, and all others about a container that one
      of the calls created. */
  ghost predicate OneContainer(calls: seq<Call>, image: string) {
    forall c | c in calls :: if OnImage(c) then c.image == image else Creates(calls, c.on)
  }

  /** MAIN RESULT.  No call of a job ever goes to another image than the one requested, or to
      another container than the one that was created, of which an ordered trace has one at
      most. */
  lemma CallsConcernOneContainer(s: Script)
    requires s.Proper()
    ensures OneContainer(Trace(s), s.exists_.image)
    ensures forall c, d | c in Trace(s) && d in Trace(s) && c.CreateContainer? && d.CreateContainer? :: c == d
  {
    forall c | c in Trace(s)
      ensures if OnImage(c) then c.image == s.exists_.image else Creates(Trace(s), c.on)
      ensures c.CreateContainer? ==> c == s.create
    {
      TraceHas(s, c);
      TraceHas(s, s.create);
    }
  }

  /** In any trace every kind of call occurs at most once and in the fixed order; a container
      is created if and only if the image was found or pulled, and the image is pulled if and
      only if it was looked for and not there; a container is removed if and only if it was
      created, as the very last call; it is stopped if and only if waiting for it failed with
      the context expired, and killed if and only if stopping it failed; its output is
      collected if and only if it was started. */
  lemma TraceShape(s: Script)
    requires s.Proper()
    ensures Ordered(Trace(s))
    ensures Called(Trace(s), 8) <==> Made(Trace(s), 2, false)
    ensures Called(Trace(s), 8) ==> Trace(s)[|Trace(s)| - 1].RemoveContainer?
    ensures Called(Trace(s), 6) <==> Made(Trace(s), 5, true)
    ensures Called(Trace(s), 7) <==> Made(Trace(s), 3, false)
    ensures Called(Trace(s), 5) <==> exists c :: c in Trace(s) && c.WaitContainer? && c.err.Some? && c.expired
    ensures Called(Trace(s), 4) <==> Made(Trace(s), 3, false)
    ensures Called(Trace(s), 3) <==> Made(Trace(s), 2, false)
    ensures Called(Trace(s), 2) <==> Made(Trace(s), 1, false) || ImageExists(s.exists_.image, true, None) in Trace(s)
    ensures Called(Trace(s), 1) <==> ImageExists(s.exists_.image, false, None) in Trace(s)
  {
    TraceIsOrdered(s);
    CalledIff(s, 8);
    MadeIff(s, 2, false);
    CalledIff(s, 6);
    MadeIff(s, 5, true);
    CalledIff(s, 7);
    MadeIff(s, 3, false);
    CalledIff(s, 5);
    CalledIff(s, 4);
    CalledIff(s, 3);
    CalledIff(s, 2);
    MadeIff(s, 1, false);
    CalledIff(s, 1);
    WaitExpiredIff(s);
    TraceHas(s, ImageExists(s.exists_.image, false, None));
    TraceHas(s, ImageExists(s.exists_.image, true, None));
    assert s.Created() ==> Trace(s)[|Trace(s)| - 1] == s.remove;
  }

  // ---------------------------------------------------------------- the result

  lemma MessagesAreNotEmpty(tail: string)
    ensures PULL_FAILED + tail != "" && CREATE_FAILED + tail != "" && START_FAILED + tail != ""
    ensures WAIT_FAILED + tail != "" && PULL_FAILED + CHECK_FAILED + tail != ""
  {
    assert |PULL_FAILED| > 0 && |CREATE_FAILED| > 0 && |START_FAILED| > 0 && |WAIT_FAILED| > 0;
  }

  lemma ResultStatus(id: string, req: Request, cfg: Config, s: Script)
    requires s.Proper()
    ensures var r := ResultOf(id, req, cfg, s);
            && r.jobId == id
            && r.status in {"success", "failed", "timeout", "error"}
            && (r.exitCode.Some? <==> r.status in {"success", "failed", "timeout"})
            && (r.error != "" <==> r.status == "error")
            && (r.status == "success" ==> r.exitCode == Some(0))
            && (r.status == "failed" ==> r.exitCode != Some(0))
            && (r.status == "timeout" <==> s.TimedOut())
            && (r.status == "success" || r.status == "failed" <==> s.Started() && s.wait.err.None?)
  {
    if s.exists_.err.Some? {
      MessagesAreNotEmpty(s.exists_.err.value);
    } else if !s.HasImage() {
      MessagesAreNotEmpty(PullMessage(s.pull, cfg));
    } else if !s.Created() {
      MessagesAreNotEmpty(s.create.err.value);
    } else if !s.Started() {
      MessagesAreNotEmpty(s.start.err.value);
    } else if s.wait.err.Some? {
      MessagesAreNotEmpty(s.wait.err.value);
    }
  }

  lemma ResultOutputs(id: string, req: Request, cfg: Config, s: Script)
    requires s.Proper()
    ensures var r := ResultOf(id, req, cfg, s);
            && r.stdout == (if s.Started() then Published(s.logs.stdout, cfg.maxOutputBytes, req.secrets) else "")
            && r.stderr == (if s.Started() then Published(s.logs.stderr, cfg.maxOutputBytes, req.secrets) else "")
            && (r.stdoutTruncated <==> s.Started() && |s.logs.stdout| > cfg.maxOutputBytes)
            && (r.stderrTruncated <==> s.Started() && |s.logs.stderr| > cfg.maxOutputBytes)
  {
  }

  /** MAIN RESULT.  Status, exit code and error message go together, for every way the runtime
      can behave; and the published output is that of the collected streams or nothing. */
  lemma ResultShape(id: string, req: Request, cfg: Config, s: Script)
    requires s.Proper()
    ensures var r := ResultOf(id, req, cfg, s);
            && r.jobId == id
            && r.status in {"success", "failed", "timeout", "error"}
            && (r.exitCode.Some? <==> r.status in {"success", "failed", "timeout"})
            && (r.error != "" <==> r.status == "error")
            && (r.status == "success" ==> r.exitCode == Some(0))
            && (r.status == "failed" ==> r.exitCode != Some(0))
            && (r.status == "timeout" <==> Called(Trace(s), 5))
            && (r.status == "success" || r.status == "failed" <==> Made(Trace(s), 4, false))
            && r.stdout == (if s.Started() then Published(s.logs.stdout, cfg.maxOutputBytes, req.secrets) else "")
            && r.stderr == (if s.Started() then Published(s.logs.stderr, cfg.maxOutputBytes, req.secrets) else "")
            && (r.stdoutTruncated <==> s.Started() && |s.logs.stdout| > cfg.maxOutputBytes)
            && (r.stderrTruncated <==> s.Started() && |s.logs.stderr| > cfg.maxOutputBytes)
  {
    CalledIff(s, 5);
    MadeIff(s, 4, false);
    ResultStatus(id, req, cfg, s);
    ResultOutputs(id, req, cfg, s);
  }

  /** What each call says about the result, the text of its message included. */
  ghost predicate CallExplains(c: Call, r: Result, req: Request, cfg: Config) {
    match c
    case ImageExists(_, _, Some(e)) =>
      r.status == "error" && r.error == "image pull failed: " + "checking image existence: " + e
    case PullImage(_, true, Some(_)) =>
      r.status == "error" && r.error == "image pull failed: " + "image pull timed out after " + cfg.pullTimeoutText
    case PullImage(_, false, Some(e)) => r.status == "error" && r.error == "image pull failed: " + e
    case CreateContainer(_, _, Some(e)) => r.status == "error" && r.error == "container create failed: " + e
    case StartContainer(_, Some(e)) => r.status == "error" && r.error == "container start failed: " + e
    case WaitContainer(_, code, _, None) =>
      r.status == (if code == 0 then "success" else "failed") && r.exitCode == Some(code) && r.error == ""
    case WaitContainer(_, code, true, Some(_)) => r.status == "timeout" && r.exitCode == Some(code) && r.error == ""
    case WaitContainer(_, _, false, Some(e)) =>
      r.status == "error" && r.exitCode == None && r.error == "container wait failed: " + e
    case GetLogs(_, stdout, stderr, _) =>
      && r.stdout == Published(stdout, cfg.maxOutputBytes, req.secrets)
      && r.stderr == Published(stderr, cfg.maxOutputBytes, req.secrets)
      && (r.stdoutTruncated <==> |stdout| > cfg.maxOutputBytes)
      && (r.stderrTruncated <==> |stderr| > cfg.maxOutputBytes)
    case _ => true
  }

  lemma CallsSay(id: string, req: Request, cfg: Config, s: Script, c: Call)
    requires s.Proper() && Happens(s, c)
    ensures CallExplains(c, ResultOf(id, req, cfg, s), req, cfg)
  {
    ResultOutputs(id, req, cfg, s);
  }

  /** The whole result, told from the calls: besides what they say, no output without GetLogs. */
  ghost predicate Explains(calls: seq<Call>, r: Result, req: Request, cfg: Config) {
    && (forall c | c in calls :: CallExplains(c, r, req, cfg))
    && (Called(calls, 7) || (r.stdout == "" && r.stderr == "" && !r.stdoutTruncated && !r.stderrTruncated))
  }

  /** MAIN RESULT.  Whatever the runtime answers, the result says what the calls made say: the
      exit code is that of the wait, "success" means zero, "timeout" a stopped container, and
      an error message repeats the words of the call that failed. */
  lemma CallsExplainResult(id: string, req: Request, cfg: Config, s: Script)
    requires s.Proper()
    ensures Explains(Trace(s), ResultOf(id, req, cfg, s), req, cfg)
  {
    ResultShape(id, req, cfg, s);
    forall c | c in Trace(s) ensures CallExplains(c, ResultOf(id, req, cfg, s), req, cfg) {
      TraceHas(s, c);
      CallsSay(id, req, cfg, s, c);
    }
    CalledIff(s, 7);
  }

  lemma MessagesDiffer(tail: string)
    ensures !(PULL_FAILED <= CREATE_FAILED + tail) && !(PULL_FAILED <= START_FAILED + tail)
    ensures !(PULL_FAILED <= WAIT_FAILED + tail) && !(CREATE_FAILED <= PULL_FAILED + tail)
    ensures !(CREATE_FAILED <= START_FAILED + tail) && !(CREATE_FAILED <= WAIT_FAILED + tail)
    ensures !(START_FAILED <= PULL_FAILED + tail) && !(START_FAILED <= CREATE_FAILED + tail)
    ensures !(START_FAILED <= WAIT_FAILED + tail) && !(WAIT_FAILED <= PULL_FAILED + tail)
    ensures !(WAIT_FAILED <= CREATE_FAILED + tail) && !(WAIT_FAILED <= START_FAILED + tail)
    ensures !(PULL_FAILED <= "" || CREATE_FAILED <= "" || START_FAILED <= "" || WAIT_FAILED <= "")
  {
    assert PULL_FAILED[0] == 'i' && CREATE_FAILED[0] == START_FAILED[0] == WAIT_FAILED[0] == 'c';
    assert CREATE_FAILED[10] == 'c' && START_FAILED[10] == 's' && WAIT_FAILED[10] == 'w';
  }

  function ErrorTail(s: Script, cfg: Config): string
    requires s.Proper()
  {
    if s.exists_.err.Some? then CHECK_FAILED + s.exists_.err.value
    else if !s.HasImage() then PullMessage(s.pull, cfg)
    else if s.create.err.Some? then s.create.err.value
    else if s.start.err.Some? then s.start.err.value
    else if s.wait.err.Some? then s.wait.err.value
    else ""
  }

  /** The prefix of the message, by the first call that fails. */
  lemma ErrorPrefix(id: string, req: Request, cfg: Config, s: Script)
    requires s.Proper()
    ensures ResultOf(id, req, cfg, s).error ==
              if !s.HasImage() then PULL_FAILED + ErrorTail(s, cfg)
              else if !s.Created() then CREATE_FAILED + ErrorTail(s, cfg)
              else if !s.Started() then START_FAILED + ErrorTail(s, cfg)
              else if s.wait.err.Some? && !s.TimedOut() then WAIT_FAILED + ErrorTail(s, cfg)
              else ""
  {
    var e := s.exists_.err.GetOr("");
    assert PULL_FAILED + (CHECK_FAILED + e) == PULL_FAILED + CHECK_FAILED + e;
  }

  lemma ErrorNamesOutcome(id: string, req: Request, cfg: Config, s: Script)
    requires s.Proper()
    ensures var m := ResultOf(id, req, cfg, s).error;
            && (PULL_FAILED <= m <==> !s.HasImage())
            && (CREATE_FAILED <= m <==> s.HasImage() && !s.Created())
            && (START_FAILED <= m <==> s.Created() && !s.Started())
            && (WAIT_FAILED <= m <==> s.Started() && s.wait.err.Some? && !s.TimedOut())
  {
    ErrorPrefix(id, req, cfg, s);
    MessagesDiffer(ErrorTail(s, cfg));
  }

  /** The error message names the step that failed, as the calls show it. */
  lemma ErrorNamesStep(id: string, req: Request, cfg: Config, s: Script)
    requires s.Proper()
    ensures var m := ResultOf(id, req, cfg, s).error;
            && (PULL_FAILED <= m <==> !Called(Trace(s), 2))
            && (CREATE_FAILED <= m <==> Made(Trace(s), 2, true))
            && (START_FAILED <= m <==> Made(Trace(s), 3, true))
            && (WAIT_FAILED <= m <==> Made(Trace(s), 4, true) && !Called(Trace(s), 5))
  {
    CalledIff(s, 2);
    MadeIff(s, 2, true);
    MadeIff(s, 3, true);
    MadeIff(s, 4, true);
    CalledIff(s, 5);
    ErrorNamesOutcome(id, req, cfg, s);
  }

  /** Secrets that cannot overlap the placeholder in agreement never reach the two output
      streams of a result, nor its error message if there was no error. */
  lemma ResultIsClean(id: string, req: Request, cfg: Config, s: Script)
    requires s.Proper() && AllOverlapFree(req.secrets, PLACEHOLDER)
    ensures Clean(ResultOf(id, req, cfg, s).stdout, req.secrets)
    ensures Clean(ResultOf(id, req, cfg, s).stderr, req.secrets)
    ensures ResultOf(id, req, cfg, s).status != "error" ==> Clean(ResultOf(id, req, cfg, s).error, req.secrets)
  {
    ResultShape(id, req, cfg, s);
    if s.Started() {
      PublishedIsClean(s.logs.stdout, cfg.maxOutputBytes, req.secrets);
      PublishedIsClean(s.logs.stderr, cfg.maxOutputBytes, req.secrets);
    }
    assert Clean("", req.secrets);
  }

  /** The runtime refuses to create a container and says why in these words. */
  function RefusingScript(image: string, text: string): (s: Script)
    ensures s.Proper() && s.About(image)
  {
    SomeScript(image).(create := CreateContainer(image, "c", Some(text)))
  }

  /** The runtime's words reach the error message unredacted. */
  lemma ErrorRepeatsRuntime(id: string, req: Request, cfg: Config, text: string)
    ensures var r := ResultOf(id, req, cfg, RefusingScript(req.image, text));
            r.status == "error" && r.error == CREATE_FAILED + text && Occurs(text, r.error)
  {
    assert OccursAt(text, CREATE_FAILED + text, |CREATE_FAILED|);
  }

  /** MAIN RESULT.  So error messages are free of secrets, for every way the runtime can
      behave, if and only if the job has no secret to speak of. */
  lemma ErrorsAreCleanIff(id: string, req: Request, cfg: Config)
    ensures (forall s: Script | s.Proper() && s.About(req.image) :: Clean(ResultOf(id, req, cfg, s).error, req.secrets))
       <==> forall x | x in req.secrets :: x.value == ""
  {
    forall x | x in req.secrets && x.value != ""
      ensures exists s: Script :: s.Proper() && s.About(req.image)
                && !Clean(ResultOf(id, req, cfg, s).error, req.secrets)
    {
      var s := RefusingScript(req.image, x.value);
      ErrorRepeatsRuntime(id, req, cfg, x.value);
      assert s.Proper() && s.About(req.image) && !Clean(ResultOf(id, req, cfg, s).error, req.secrets);
    }
  }
}
