/** The executor as the objects of pkg/executor/executor.go: each caller's critical section,
    and the job goroutine from start to end against a runtime that answers at will. */
module ExecutorObject {
  import opened Options
  import opened JobLifecycle
  import opened JobTraces
  import opened Redaction
  import opened Output
  import LogBuffer
  import System = Executor

  /** The container runtime: any answer to any call; it keeps a record of them. */
  class Runtime {
    var calls: seq<Call>

    method Record(c: Call)
      modifies this
      ensures calls == old(calls) + [c]
    {
      calls := calls + [c];
    }

    method ImageExists(image: string) returns (c: Call)
      modifies this
      ensures c.ImageExists? && c.image == image && calls == old(calls) + [c]
    {
      var found: bool := *;
      var err: Error := *;
      c := Call.ImageExists(image, found, err);
      Record(c);
    }

    method PullImage(image: string) returns (c: Call)
      modifies this
      ensures c.PullImage? && c.image == image && calls == old(calls) + [c]
    {
      var expired: bool := *;
      var err: Error := *;
      c := Call.PullImage(image, expired, err);
      Record(c);
    }

    method CreateContainer(image: string) returns (c: Call)
      modifies this
      ensures c.CreateContainer? && c.image == image && calls == old(calls) + [c]
    {
      var containerId: string := *;
      var err: Error := *;
      c := Call.CreateContainer(image, containerId, err);
      Record(c);
    }

    method StartContainer(containerId: string) returns (c: Call)
      modifies this
      ensures c.StartContainer? && c.on == containerId && calls == old(calls) + [c]
    {
      var err: Error := *;
      c := Call.StartContainer(containerId, err);
      Record(c);
    }

    method WaitContainer(containerId: string) returns (c: Call)
      modifies this
      ensures c.WaitContainer? && c.on == containerId && calls == old(calls) + [c]
    {
      var code: int := *;
      var expired: bool := *;
      var err: Error := *;
      c := Call.WaitContainer(containerId, code, expired, err);
      Record(c);
    }

    method StopContainer(containerId: string) returns (c: Call)
      modifies this
      ensures c.StopContainer? && c.on == containerId && calls == old(calls) + [c]
    {
      var err: Error := *;
      c := Call.StopContainer(containerId, err);
      Record(c);
    }

    method KillContainer(containerId: string) returns (c: Call)
      modifies this
      ensures c.KillContainer? && c.on == containerId && calls == old(calls) + [c]
    {
      var err: Error := *;
      c := Call.KillContainer(containerId, err);
      Record(c);
    }

    method GetLogs(containerId: string) returns (c: Call)
      modifies this
      ensures c.GetLogs? && c.on == containerId && calls == old(calls) + [c]
    {
      var stdout: string := *;
      var stderr: string := *;
      var err: Error := *;
      c := Call.GetLogs(containerId, stdout, stderr, err);
      Record(c);
    }

    method RemoveContainer(containerId: string) returns (c: Call)
      modifies this
      ensures c.RemoveContainer? && c.on == containerId && calls == old(calls) + [c]
    {
      var err: Error := *;
      c := Call.RemoveContainer(containerId, err);
      Record(c);
    }
  }

  class RunningJob {
    const id: string
    const req: Request
    const log: LogBuffer.SharedLog
    var result: Option<Result>
    var done: bool
    var cancelled: bool

    ghost var unwound: seq<Deferred>   // the deferred calls run so far

    /** The object is in the state of this job of the transition system, as far as callers
        can see. */
    ghost predicate Stands(j: Job)
      reads this, log, log.notify
    {
      && j.id == id && j.req == req && j.result == result && j.done == done && j.cancelled == cancelled
      && log.Valid() && j.log.buffer == log.Abs()
    }

    constructor (id: string, req: Request)
      ensures this.id == id && this.req == req && result == None && !done && !cancelled && unwound == []
      ensures fresh(log) && fresh(log.notify) && log.Valid() && log.Abs() == LogBuffer.INITIAL.buffer
    {
      this.id, this.req := id, req;
      result, done, cancelled, unwound := None, false, false, [];
      log := new LogBuffer.SharedLog();
    }
  }

  function Reversed(d: seq<Deferred>): seq<Deferred> {
    if d == [] then [] else [d[|d| - 1]] + Reversed(d[..|d| - 1])
  }

  /** The calls about the container, its removal aside. */
  function ContainerCalls(s: Script): seq<Call>
    requires s.Proper() && s.HasImage()
  {
    if !s.Created() then [s.create]
    else if !s.Started() then [s.create, s.start]
    else [s.create, s.start, s.wait] + ShutdownCalls(s) + [s.logs]
  }

  /** Has `d` been run when the first n deferred calls of a job are left? */
  ghost predicate Ran(s: Script, n: nat, d: Deferred)
    requires s.Proper() && n <= |AllDefers(s)|
  {
    d in AllDefers(s)[n..]
  }

  /** The state of the unwinding, as values: `s` is `s0` with the answer to the removal. */
  ghost predicate Unwound(s0: Script, s: Script, n: nat, unwound: seq<Deferred>, made: seq<Call>)
    requires s0.Proper() && n <= |AllDefers(s0)|
  {
    && s.Proper() && s == s0.(remove := s.remove)
    && unwound + Reversed(AllDefers(s0)[..n]) == Reversed(AllDefers(s0))
    && made == if s0.Created() && n <= 4 then [s.remove] else []
  }

  lemma NothingUnwound(s: Script)
    requires s.Proper()
    ensures Unwound(s, s, |AllDefers(s)|, [], [])
    ensures forall d :: !Ran(s, |AllDefers(s)|, d)
  {
    assert AllDefers(s)[..|AllDefers(s)|] == AllDefers(s);
    DefersByIndex(s);
  }

  lemma OneMoreUnwound(s0: Script, s: Script, n: nat, unwound: seq<Deferred>, made: seq<Call>, r: Call)
    requires s0.Proper() && n < |AllDefers(s0)| && Unwound(s0, s, n + 1, unwound, made)
    requires r.RemoveContainer? && (AllDefers(s0)[n].Remove? ==> r.on == AllDefers(s0)[n].containerId)
    ensures var d := AllDefers(s0)[n];
            && Unwound(s0, if d.Remove? then s.(remove := r) else s, n, unwound + [d],
                       if d.Remove? then made + [r] else made)
            && forall e :: Ran(s0, n, e) <==> e == d || Ran(s0, n + 1, e)
  {
    var all := AllDefers(s0);
    DefersByIndex(s0);
    assert all[..n + 1][..n] == all[..n];
    assert all[n..] == [all[n]] + all[n + 1..];
    assert unwound + ([all[n]] + Reversed(all[..n])) == unwound + [all[n]] + Reversed(all[..n]);
  }

  lemma AllUnwound(s0: Script, s: Script, unwound: seq<Deferred>, made: seq<Call>)
    requires s0.Proper() && Unwound(s0, s, 0, unwound, made)
    ensures unwound == Reversed(AllDefers(s0)) && s.Created() == s0.Created()
    ensures made == if s.Created() then [s.remove] else []
    ensures Ran(s0, 0, CloseDone) && Ran(s0, 0, CancelJob) && Ran(s0, 0, CloseLog)
  {
    DefersByIndex(s0);
    var all := AllDefers(s0);
    assert all[0..] == all && all[0] in all && all[1] in all && all[2] in all;
    assert Reversed(all[..0]) == [];
  }

  /** The clean-up of a job: the container is removed first, then the contexts are cancelled,
      the log is closed, and Done last. */
  function CleanUp(s: Script): seq<Deferred>
    requires s.Proper()
  {
    (if s.Started() then [CancelCollect] else []) + (if s.Created() then [Remove(s.create.containerId)] else [])
    + [CancelTimeout, CancelJob, CloseLog, CloseDone]
  }

  lemma {:induction false} ReversedConcat(a: seq<Deferred>, b: seq<Deferred>)
    ensures Reversed(a + b) == Reversed(b) + Reversed(a)
  {
    if b == [] {
      assert a + b == a;
    } else {
      assert (a + b)[..|a + b| - 1] == a + b[..|b| - 1];
      ReversedConcat(a, b[..|b| - 1]);
    }
  }

  lemma ReversedPair(d: Deferred, e: Deferred)
    ensures Reversed([d, e]) == [e, d] && Reversed([d]) == [d] && Reversed([]) == []
  {
    var one, two := [d], [d, e];
    assert one[..|one| - 1] == [] && two[..|two| - 1] == one;
    assert Reversed(one) == [d] + Reversed([]) && Reversed(two) == [e] + Reversed(one);
  }

  lemma CleanUpIsReversed(s: Script)
    requires s.Proper()
    ensures Reversed(AllDefers(s)) == CleanUp(s)
  {
    var removal := if s.Created() then [Remove(s.create.containerId)] else [];
    var collect := if s.Started() then [CancelCollect] else [];
    ReversedConcat(BASE + removal, collect);
    ReversedConcat(BASE, removal);
    ReversedPair(CloseDone, CloseLog);
    ReversedPair(CancelJob, CancelTimeout);
    assert BASE == [CloseDone, CloseLog] + [CancelJob, CancelTimeout];
    ReversedConcat([CloseDone, CloseLog], [CancelJob, CancelTimeout]);
    assert Reversed(removal) == removal && Reversed(collect) == collect;
  }

  /** A job whose image cannot be had ends there. */
  lemma NoImage(id: string, req: Request, cfg: Config, s: Script, e: string)
    requires s.Proper() && !s.HasImage()
    requires s.exists_.err.Some? ==> e == CHECK_FAILED + s.exists_.err.value
    requires s.exists_.err.None? ==> e == PullMessage(s.pull, cfg)
    ensures ResultOf(id, req, cfg, s) == ErrorResult(id, PULL_FAILED + e)
    ensures AllDefers(s) == BASE && BodyCalls(s) == ImageCalls(s)
  {
    if s.exists_.err.Some? {
      assert PULL_FAILED + (CHECK_FAILED + s.exists_.err.value) == PULL_FAILED + CHECK_FAILED + s.exists_.err.value;
    }
  }

  /** The calls made since `before` are those of the trace, and explain its result. */
  lemma TraceIsExplained(id: string, req: Request, cfg: Config, s: Script, before: seq<Call>, after: seq<Call>)
    requires s.Proper() && s.About(req.image) && after == before + Trace(s)
    ensures OneContainer(after[|before|..], req.image)
    ensures Explains(after[|before|..], ResultOf(id, req, cfg, s), req, cfg)
  {
    CallsConcernOneContainer(s);
    CallsExplainResult(id, req, cfg, s);
    assert after[|before|..] == Trace(s);
  }

  /** A job of the transition system at its end. */
  ghost function FinishedJob(id: string, req: Request, cfg: Config, s: Script, b: LogBuffer.Buffer): (j: Job)
    requires s.Proper() && s.About(req.image) && b.closed
    ensures JobInv(j, cfg, s) && j.at == Exited && j.calls == Trace(s) && j.log.buffer == b
    ensures j.id == id && j.req == req && j.result == Some(ResultOf(id, req, cfg, s)) && j.done && j.cancelled
  {
    Job(id, req, Exited, [], Trace(s), s.create.containerId, s.wait.code, s.wait.err, s.TimedOut(),
        Some(ResultOf(id, req, cfg, s)), true, true, LogBuffer.State(b, []), NotStarted)
  }

  /** What the streaming goroutine of a job makes of the answer to its call. */
  ghost function AfterStreaming(j: Job, c: Call): Job
    requires c.GetLogs?
  {
    var fetched := AfterFetch(j, c.stdout, c.stderr, c.err.Some?);
    if c.err.Some? then fetched else AfterWrite(AfterWrite(fetched))
  }

  /** A finished job of a reachable state has its result. */
  lemma DoneHasResult(w: System.World)
    ensures forall cfg | System.WorldInv(w, cfg) ::
              forall k | 0 <= k < |w.jobs| && w.jobs[k].done ::
                w.jobs[k].result.Some? && w.jobs[k].result.value.jobId == w.jobs[k].id
  {
    forall cfg, k | System.WorldInv(w, cfg) && 0 <= k < |w.jobs| && w.jobs[k].done
      ensures w.jobs[k].result.Some? && w.jobs[k].result.value.jobId == w.jobs[k].id
    {
      assert System.JobOk(w.jobs[k], cfg);
      var s :| JobInv(w.jobs[k], cfg, s);
      ResultShape(w.jobs[k].id, w.jobs[k].req, cfg, s);
    }
  }

  /** The answer to the removal bears on nothing else. */
  lemma RemovalIsOutside(s: Script, s': Script)
    requires s.Proper() && s' == s.(remove := s'.remove) && s'.Proper()
    ensures BodyCalls(s') == BodyCalls(s) && AllDefers(s') == AllDefers(s) && s'.Created() == s.Created()
    ensures forall id, req, cfg :: ResultOf(id, req, cfg, s') == ResultOf(id, req, cfg, s)
  {
  }

  class Executor {
    var current: RunningJob?
    const cfg: Config

    constructor (cfg: Config)
      ensures current == null && this.cfg == cfg
    {
      this.cfg := cfg;
      current := null;
    }

    /** The executor is in this state of the transition system: its current job is the last
        one ever accepted. */
    ghost predicate Represents(w: System.World)
      reads this, current
      reads if current == null then {} else {current.log, current.log.notify}
    {
      if current == null then w.jobs == []
      else w.jobs != [] && current.Stands(w.jobs[|w.jobs| - 1])
    }

    /** One Submit step of the transition system.  Accepted exactly when all jobs are done; a
        refusal changes nothing. */
    method Submit(id: string, req: Request, ghost w: System.World) returns (accepted: bool)
      requires Represents(w)
      modifies this
      ensures Represents(System.Next(w, System.Submit(id, req), cfg))
      ensures accepted <==> System.IsReady(w)
      ensures System.WorldInv(w, cfg) ==> (accepted <==> forall k | 0 <= k < |w.jobs| :: w.jobs[k].done)
      ensures !accepted ==> current == old(current)
      ensures accepted ==> current != null && fresh(current) && !current.done && current.unwound == []
                           && !current.cancelled && !current.log.closed
    {
      if current != null && !current.done {
        return false;
      }
      current := new RunningJob(id, req);
      return true;
    }

    /** Both halves of GetResult in one state of the transition system.  In a reachable state
        the result is there exactly when the job asked for is current and done, and it
        carries that job's identifier. */
    method GetResult(id: string, ghost w: System.World) returns (result: Option<Result>, found: bool)
      requires Represents(w)
      ensures result == System.Outcome(w, System.Lookup(w, id)) && (found <==> result.Some?)
      ensures System.WorldInv(w, cfg) ==>
                (found <==> System.Lookup(w, id).Some? && w.jobs[|w.jobs| - 1].done)
      ensures System.WorldInv(w, cfg) && found ==> result.value.jobId == id
    {
      DoneHasResult(w);
      var job := current;
      if job == null || job.id != id {
        return None, false;
      }
      if job.done {
        return job.result, job.result != None;
      }
      return None, false;
    }

    /** The answer of the transition system: in a reachable state, that every job ever
        accepted is done. */
    method IsReady(ghost w: System.World) returns (ready: bool)
      requires Represents(w)
      ensures ready <==> System.IsReady(w)
      ensures System.WorldInv(w, cfg) ==> (ready <==> forall k | 0 <= k < |w.jobs| :: w.jobs[k].done)
    {
      if current == null {
        return true;
      }
      return current.done;
    }

    // ---------------------------------------------------------------- the goroutine

    method PullImageIfNeeded(rt: Runtime, image: string, ghost s0: Script) returns (err: Error, ghost s: Script)
      requires s0.Proper() && s0.About(image)
      modifies rt
      ensures s.Proper() && s.About(image) && rt.calls == old(rt.calls) + ImageCalls(s)
      ensures err.None? <==> s.HasImage()
      ensures s.exists_.err.Some? ==> err == Some("checking image existence: " + s.exists_.err.value)
      ensures s.NeedsPull() && s.pull.err.Some? && s.pull.expired ==>
                err == Some("image pull timed out after " + cfg.pullTimeoutText)
      ensures s.NeedsPull() && s.pull.err.Some? && !s.pull.expired ==> err == s.pull.err
    {
      var e := rt.ImageExists(image);
      s := s0.(exists_ := e);
      if e.err.Some? {
        return Some(CHECK_FAILED + e.err.value), s;
      }
      if e.found {
        return None, s;
      }
      var p := rt.PullImage(image);
      s := s.(pull := p);
      if p.err.Some? {
        if p.expired {
          return Some(PULL_TIMED_OUT + cfg.pullTimeoutText), s;
        }
        return p.err, s;
      }
      return None, s;
    }

    method HandleTimeout(rt: Runtime, containerId: string, ghost s0: Script) returns (ghost s: Script)
      requires s0.Proper() && s0.TimedOut() && s0.create.containerId == containerId
      modifies rt
      ensures s.Proper() && s.TimedOut() && s == s0.(stop := s.stop, kill := s.kill)
      ensures rt.calls == old(rt.calls) + ShutdownCalls(s)
    {
      var t := rt.StopContainer(containerId);
      s := s0.(stop := t);
      if t.err.Some? {
        var k := rt.KillContainer(containerId);
        s := s.(kill := k);
      }
    }

    /** Steps 8 to 10: truncation, redaction, and the fields of the result. */
    method BuildResult(id: string, req: Request, stdout: string, stderr: string, timedOut: bool, waitErr: Error,
                       exitCode: int) returns (result: Result)
      ensures result == CollectedResult(id, req, cfg, stdout, stderr, timedOut, waitErr, exitCode)
      ensures timedOut ==> result.status == "timeout" && result.exitCode == Some(exitCode)
      ensures !timedOut && waitErr.None? ==>
                result.status == (if exitCode == 0 then "success" else "failed") && result.exitCode == Some(exitCode)
      ensures !timedOut && waitErr.Some? ==>
                && result.status == "error" && result.exitCode == None
                && result.error == "container wait failed: " + waitErr.value
    {
      var (outStr, errStr, outTruncated, errTruncated) := CaptureOutput(stdout, stderr, cfg.maxOutputBytes);
      outStr := RedactSecrets(outStr, req.secrets, PLACEHOLDER);
      errStr := RedactSecrets(errStr, req.secrets, PLACEHOLDER);
      result := Result(id, "", None, outStr, errStr, outTruncated, errTruncated, "");
      if timedOut {
        result := result.(status := "timeout", exitCode := Some(exitCode));
      } else if waitErr.Some? {
        result := result.(status := "error", error := WAIT_FAILED + waitErr.value);
      } else {
        result := result.(exitCode := Some(exitCode));
        if exitCode == 0 {
          result := result.(status := "success");
        } else {
          result := result.(status := "failed");
        }
      }
    }

    method WaitAndCollect(job: RunningJob, rt: Runtime, containerId: string, ghost s0: Script)
      returns (logs: Call, ghost s: Script)
      requires s0.Proper() && s0.Started() && s0.create.containerId == containerId
      modifies job`result, rt
      ensures s.Proper() && s.Started() && s == s0.(wait := s.wait, stop := s.stop, kill := s.kill, logs := s.logs)
      ensures logs == s.logs && job.result == Some(ResultOf(job.id, job.req, cfg, s))
      ensures rt.calls == old(rt.calls) + [s.wait] + ShutdownCalls(s) + [s.logs]
    {
      var w := rt.WaitContainer(containerId);
      s := s0.(wait := w);
      var timedOut := false;
      if w.err.Some? && w.expired {
        timedOut := true;
        s := HandleTimeout(rt, containerId, s);
      }
      logs := rt.GetLogs(containerId);
      s := s.(logs := logs);
      var result := BuildResult(job.id, job.req, logs.stdout, logs.stderr, timedOut, w.err, w.code);
      job.result := Some(result);
    }

    method CreateAndRun(job: RunningJob, rt: Runtime, pending: seq<Deferred>, ghost s0: Script)
      returns (defers: seq<Deferred>, ghost s: Script)
      requires pending == BASE && s0.Proper() && s0.About(job.req.image) && s0.HasImage()
      modifies job`result, rt
      ensures s.Proper() && s.exists_ == s0.exists_ && s.pull == s0.pull && defers == AllDefers(s)
      ensures job.result == Some(ResultOf(job.id, job.req, cfg, s))
      ensures ImageCalls(s) == ImageCalls(s0) && BodyCalls(s) == ImageCalls(s0) + ContainerCalls(s)
      ensures rt.calls == old(rt.calls) + ContainerCalls(s)
    {
      var c := rt.CreateContainer(job.req.image);
      s := Learn(s0, c);
      defers := pending;
      if c.err.Some? {
        job.result := Some(ErrorResult(job.id, CREATE_FAILED + c.err.value));
        return;
      }
      defers := defers + [Remove(c.containerId)];
      var b := rt.StartContainer(c.containerId);
      s := s.(start := b);
      if b.err.Some? {
        job.result := Some(ErrorResult(job.id, START_FAILED + b.err.value));
        return;
      }
      var logs;
      logs, s := WaitAndCollect(job, rt, c.containerId, s);
      defers := defers + [CancelCollect];
    }

    /** Everything up to the return statement; yields the deferred calls then pending. */
    method RunContainer(job: RunningJob, rt: Runtime, pending: seq<Deferred>, ghost s0: Script)
      returns (defers: seq<Deferred>, ghost s: Script)
      requires pending == BASE && s0.Proper() && s0.About(job.req.image)
      modifies job`result, rt
      ensures s.Proper() && s.About(job.req.image) && defers == AllDefers(s)
      ensures job.result == Some(ResultOf(job.id, job.req, cfg, s))
      ensures rt.calls == old(rt.calls) + BodyCalls(s)
    {
      var pullErr;
      pullErr, s := PullImageIfNeeded(rt, job.req.image, s0);
      if pullErr.Some? {
        job.result := Some(ErrorResult(job.id, PULL_FAILED + pullErr.value));
        defers := pending;
        NoImage(job.id, job.req, cfg, s, pullErr.value);
      } else {
        defers, s := CreateAndRun(job, rt, pending, s);
      }
    }

    /** The streaming goroutine: one more GetLogs call, and a write for each stream that is not
        empty, none of which reaches a log closed meanwhile. */
    method StreamContainerLogs(rt: Runtime, containerId: string, buf: LogBuffer.SharedLog) returns (ghost c: Call)
      requires buf.Valid()
      modifies rt, buf, buf.notify
      ensures c.GetLogs? && c.on == containerId && rt.calls == old(rt.calls) + [c]
      ensures buf.Valid() && forall j: Job | j.log.buffer == old(buf.Abs()) ::
                buf.Abs() == AfterStreaming(j, c).log.buffer
      ensures buf.lines == old(buf.lines) + if c.err.Some? || old(buf.closed) then []
                                            else LinesOf("stdout", c.stdout) + LinesOf("stderr", c.stderr)
      ensures buf.closed == old(buf.closed)
    {
      var logs := rt.GetLogs(containerId);
      c := logs;
      if logs.err.Some? {
        return;
      }
      if |logs.stdout| > 0 {
        buf.Write("stdout", logs.stdout);
      }
      if |logs.stderr| > 0 {
        buf.Write("stderr", logs.stderr);
      }
    }

    method RunDeferred(job: RunningJob, rt: Runtime, d: Deferred) returns (ghost r: Call)
      requires job.log.Valid()
      modifies job`done, job`cancelled, job`unwound, job.log, job.log.notify, rt
      ensures job.log.Valid() && r.RemoveContainer? && (d.Remove? ==> r.on == d.containerId)
      ensures job.log.Abs() == if d == CloseLog then LogBuffer.CloseBuffer(old(job.log.Abs())) else old(job.log.Abs())
      ensures job.done == (old(job.done) || d == CloseDone)
      ensures job.cancelled == (old(job.cancelled) || d == CancelJob)
      ensures job.unwound == old(job.unwound) + [d]
      ensures rt.calls == old(rt.calls) + if d.Remove? then [r] else []
    {
      job.unwound := job.unwound + [d];
      r := Call.RemoveContainer("", None);
      match d
      case CloseDone => job.done := true;
      case CloseLog => job.log.Close();
      case CancelJob => job.cancelled := true;
      case CancelTimeout =>
      case CancelCollect =>
      case Remove(containerId) =>
        var c := rt.RemoveContainer(containerId);
        r := c;
    }

    /** Runs the deferred calls, the last one first. */
    method Unwind(job: RunningJob, rt: Runtime, all: seq<Deferred>, ghost s0: Script) returns (ghost s: Script)
      requires s0.Proper() && all == AllDefers(s0)
      requires !job.done && !job.cancelled && job.unwound == [] && job.log.Valid() && !job.log.closed
      modifies job`done, job`cancelled, job`unwound, job.log, job.log.notify, rt
      ensures s == s0.(remove := s.remove) && s.Proper() && s.remove.on == s0.create.containerId
      ensures rt.calls == old(rt.calls) + if s.Created() then [s.remove] else []
      ensures job.done && job.cancelled && job.unwound == Reversed(all)
      ensures job.log.Valid() && job.log.Abs() == LogBuffer.CloseBuffer(old(job.log.Abs()))
    {
      var n := |all|;
      s := s0;
      ghost var made := [];
      ghost var log := job.log.Abs();
      NothingUnwound(s0);
      while n > 0
        invariant 0 <= n <= |all| && job.log.Valid() && s0.Proper()
        invariant Unwound(s0, s, n, job.unwound, made)
        invariant rt.calls == old(rt.calls) + made
        invariant job.done == Ran(s0, n, CloseDone) && job.cancelled == Ran(s0, n, CancelJob)
        invariant job.log.Abs() == if Ran(s0, n, CloseLog) then LogBuffer.CloseBuffer(log) else log
      {
        n := n - 1;
        var r := RunDeferred(job, rt, all[n]);
        OneMoreUnwound(s0, s, n, job.unwound[..|job.unwound| - 1], made, r);
        if all[n].Remove? {
          s, made := s.(remove := r), made + [r];
        }
      }
      AllUnwound(s0, s, job.unwound, made);
    }

    /** The whole life of a job: for every way the runtime can answer, the calls are a trace,
        the result is the one that trace calls for, no call concerns another image or container
        than the job's own, and the clean-up ran in reverse order, so that Done was closed
        last, after the log, after the removal.  The object is left in the state in which the
        transition system leaves a finished job. */
    method ExecuteJob(job: RunningJob, rt: Runtime) returns (ghost s: Script, ghost j: Job)
      requires !job.done && !job.cancelled && job.unwound == [] && job.log.Valid() && !job.log.closed
      modifies job, job.log, job.log.notify, rt
      ensures s.Proper() && rt.calls == old(rt.calls) + Trace(s)
      ensures OneContainer(rt.calls[|old(rt.calls)|..], job.req.image)
      ensures job.result.Some? && Explains(rt.calls[|old(rt.calls)|..], job.result.value, job.req, cfg)
      ensures job.result == Some(ResultOf(job.id, job.req, cfg, s))
      ensures job.done && job.cancelled && job.unwound == CleanUp(s)
      ensures job.log.Valid() && job.log.Abs() == LogBuffer.CloseBuffer(old(job.log.Abs()))
      ensures job.Stands(j) && JobInv(j, cfg, s) && j.at == Exited && rt.calls == old(rt.calls) + j.calls
    {
      var defers := [CloseDone, CloseLog, CancelJob, CancelTimeout];
      defers, s := RunContainer(job, rt, defers, SomeScript(job.req.image));
      ghost var before := s;
      s := Unwind(job, rt, defers, s);
      RemovalIsOutside(before, s);
      CleanUpIsReversed(s);
      TraceIsExplained(job.id, job.req, cfg, s, old(rt.calls), rt.calls);
      j := FinishedJob(job.id, job.req, cfg, s, job.log.Abs());
    }
  }

  /** Reversed is what its name says. */
  lemma {:induction false} ReversedAt(d: seq<Deferred>, k: nat)
    requires k < |d|
    ensures |Reversed(d)| == |d| && Reversed(d)[k] == d[|d| - 1 - k]
  {
    if k > 0 {
      ReversedAt(d[..|d| - 1], k - 1);
    } else if |d| > 1 {
      ReversedAt(d[..|d| - 1], 0);
    }
  }
}
