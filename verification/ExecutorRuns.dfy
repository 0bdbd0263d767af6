/** What holds over whole runs of the executor, whatever its callers and the runtime do. */
module ExecutorRuns {
  import opened Options
  import opened JobLifecycle
  import opened JobTraces
  import opened Executor
  import LogBuffer
  import opened Strings
  import RedactionProofs
  import Redaction

  // ---------------------------------------------------------------- one job at a time

  /** A container was created for the job and its removal has not been attempted. */
  ghost predicate Outstanding(j: Job) {
    Made(j.calls, 2, false) && !Called(j.calls, 8)
  }

  lemma DoneIsComplete(j: Job, cfg: Config) returns (s: Script)
    requires JobOk(j, cfg) && j.done
    ensures JobInv(j, cfg, s) && s.About(j.req.image) && j.calls == Trace(s) && !Outstanding(j)
    ensures j.result == Some(ResultOf(j.id, j.req, cfg, s)) && j.log.buffer.closed
  {
    s :| JobInv(j, cfg, s);
    ExitedTrace(j, cfg, s);
    TraceShape(s);
  }

  lemma FinishedIsRemoved(tr: seq<World>, acts: seq<Action>, cfg: Config, n: nat, k: nat)
    requires Behavior(tr, acts, cfg) && n < |tr| && k < |tr[n].jobs|
    ensures k < |tr[n].jobs| - 1 ==> tr[n].jobs[k].done
    ensures tr[n].jobs[k].done ==> !Outstanding(tr[n].jobs[k])
  {
    InvRun(tr, acts, cfg, n);
    if tr[n].jobs[k].done {
      var s := DoneIsComplete(tr[n].jobs[k], cfg);
    }
  }

  lemma DoneIsExplained(j: Job, cfg: Config)
    requires JobOk(j, cfg) && j.done
    ensures j.result.Some? && j.result.value.jobId == j.id && j.result.value.status != UNKNOWN.status
    ensures Explains(j.calls, j.result.value, j.req, cfg) && OneContainer(j.calls, j.req.image)
  {
    var s := DoneIsComplete(j, cfg);
    ResultShape(j.id, j.req, cfg, s);
    CallsExplainResult(j.id, j.req, cfg, s);
    CallsConcernOneContainer(s);
  }

  /** MAIN RESULT.  In every run at most one job is unfinished, at most one container awaits
      removal, and the executor reports itself ready exactly when all accepted jobs are done. */
  lemma OneJobAtATime(tr: seq<World>, acts: seq<Action>, cfg: Config, n: nat)
    requires Behavior(tr, acts, cfg) && n < |tr|
    ensures forall i, k | 0 <= i < |tr[n].jobs| && 0 <= k < |tr[n].jobs| ::
              !tr[n].jobs[i].done && !tr[n].jobs[k].done ==> i == k
    ensures forall i, k | 0 <= i < |tr[n].jobs| && 0 <= k < |tr[n].jobs| ::
              Outstanding(tr[n].jobs[i]) && Outstanding(tr[n].jobs[k]) ==> i == k
    ensures IsReady(tr[n]) <==> forall k | 0 <= k < |tr[n].jobs| :: tr[n].jobs[k].done
  {
    forall k | 0 <= k < |tr[n].jobs|
      ensures k < |tr[n].jobs| - 1 ==> tr[n].jobs[k].done
      ensures tr[n].jobs[k].done ==> !Outstanding(tr[n].jobs[k])
    {
      FinishedIsRemoved(tr, acts, cfg, n, k);
    }
  }

  // ---------------------------------------------------------------- submissions and completions

  predicate IsAccepted(w: World, a: Action) {
    a.Submit? && IsReady(w)
  }

  /** A step that closes the Done channel of a job. */
  ghost predicate IsCompletion(w: World, w': World) {
    exists k | 0 <= k < |w.jobs| && k < |w'.jobs| :: w'.jobs[k].done && !w.jobs[k].done
  }

  function Accepted(tr: seq<World>, acts: seq<Action>, m: nat, n: nat): nat
    requires m <= n <= |acts| < |tr|
  {
    if m == n then 0 else Accepted(tr, acts, m, n - 1) + if IsAccepted(tr[n - 1], acts[n - 1]) then 1 else 0
  }

  ghost function Completed(tr: seq<World>, m: nat, n: nat): nat
    requires m <= n < |tr|
  {
    if m == n then 0 else Completed(tr, m, n - 1) + if IsCompletion(tr[n - 1], tr[n]) then 1 else 0
  }

  function Busy(w: World): nat {
    if IsReady(w) then 0 else 1
  }

  predicate OwnMove(a: Action, k: nat) {
    (a.RuntimeCall? || a.Advance?) && a.k == k
  }

  /** Other actions leave the goroutine of the job where it is. */
  lemma OtherMoves(j: Job, j': Job, a: Action, cfg: Config, k: nat)
    requires JobMoves(j, j', a, k, cfg) && !OwnMove(a, k)
    ensures j'.at == j.at && j'.defers == j.defers && j'.done == j.done
  {
  }

  lemma DoneMoves(j: Job, j': Job, a: Action, cfg: Config, k: nat)
    requires JobOk(j, cfg) && JobMoves(j, j', a, k, cfg)
    ensures a == Advance(k) ==> !j.done
    ensures j'.done <==> j.done || (a == Advance(k) && Proceed(j).done)
  {
    if !OwnMove(a, k) {
      OtherMoves(j, j', a, cfg, k);
    } else {
      var s :| JobInv(j, cfg, s);
      if a.RuntimeCall? {
        CallGrows(j, a.call, cfg, s);
        CallKeepsInv(j, a.call, cfg, s);
      }
    }
  }

  lemma DoneNext(w: World, a: Action, cfg: Config, k: nat)
    requires WorldInv(w, cfg) && Enabled(w, a) && k < |w.jobs|
    ensures k < |Next(w, a, cfg).jobs|
    ensures a == Advance(k) ==> !w.jobs[k].done
    ensures Next(w, a, cfg).jobs[k].done <==> w.jobs[k].done || (a == Advance(k) && Proceed(w.jobs[k]).done)
  {
    NextMoves(w, a, cfg, k);
    DoneMoves(w.jobs[k], Next(w, a, cfg).jobs[k], a, cfg, k);
  }

  lemma JobsAfter(w: World, a: Action, cfg: Config)
    requires Enabled(w, a)
    ensures |Next(w, a, cfg).jobs| == |w.jobs| + if IsAccepted(w, a) then 1 else 0
    ensures IsAccepted(w, a) ==> !Next(w, a, cfg).jobs[|w.jobs|].done
  {
  }

  lemma OnlyLastCompletes(w: World, w': World)
    requires |w.jobs| <= |w'.jobs| && forall k | 0 <= k < |w.jobs| - 1 :: w.jobs[k].done
    ensures IsCompletion(w, w') <==> w.jobs != [] && !w.jobs[|w.jobs| - 1].done && w'.jobs[|w.jobs| - 1].done
  {
  }

  /** Only the latest job can be unfinished, so only its completion is ever to come. */
  lemma CompletionOfLast(w: World, a: Action, cfg: Config)
    requires WorldInv(w, cfg) && Enabled(w, a)
    ensures var w' := Next(w, a, cfg);
            && |w.jobs| <= |w'.jobs|
            && (IsCompletion(w, w') <==>
                  w.jobs != [] && !w.jobs[|w.jobs| - 1].done && w'.jobs[|w.jobs| - 1].done)
            && (IsCompletion(w, w') ==> a.Advance?)
  {
    JobsAfter(w, a, cfg);
    if w.jobs != [] {
      DoneNext(w, a, cfg, |w.jobs| - 1);
    }
    OnlyLastCompletes(w, Next(w, a, cfg));
  }

  /** The flag follows from the number of jobs and the state of the latest. */
  lemma BusyChange(w: World, w': World, accepted: bool, completed: bool)
    requires |w'.jobs| == |w.jobs| + if accepted then 1 else 0
    requires accepted ==> IsReady(w) && !completed && !w'.jobs[|w.jobs|].done
    requires !accepted && w.jobs != [] ==>
               (w'.jobs[|w.jobs| - 1].done <==> w.jobs[|w.jobs| - 1].done || completed)
    requires completed ==> w.jobs != [] && !w.jobs[|w.jobs| - 1].done
    ensures Busy(w') - Busy(w) == (if accepted then 1 else 0) - (if completed then 1 else 0)
  {
  }

  lemma BusyNext(w: World, w': World, a: Action, cfg: Config)
    requires WorldInv(w, cfg) && Enabled(w, a) && w' == Next(w, a, cfg)
    ensures Busy(w') - Busy(w) == (if IsAccepted(w, a) then 1 else 0) - (if IsCompletion(w, w') then 1 else 0)
  {
    JobsAfter(w, a, cfg);
    CompletionOfLast(w, a, cfg);
    if w.jobs != [] {
      DoneNext(w, a, cfg, |w.jobs| - 1);
    }
    BusyChange(w, w', IsAccepted(w, a), IsCompletion(w, w'));
  }

  lemma BusyStep(tr: seq<World>, acts: seq<Action>, cfg: Config, n: nat)
    requires Behavior(tr, acts, cfg) && n < |acts|
    ensures Busy(tr[n + 1]) - Busy(tr[n]) ==
            (if IsAccepted(tr[n], acts[n]) then 1 else 0) - (if IsCompletion(tr[n], tr[n + 1]) then 1 else 0)
  {
    InvRun(tr, acts, cfg, n);
    assert Moves(tr[n], acts[n], tr[n + 1], cfg);
    BusyNext(tr[n], tr[n + 1], acts[n], cfg);
  }

  /** MAIN RESULT.  Acceptances and completions balance over every stretch of every run: their
      difference is the change of the busy flag.  So between two completions there is at most
      one acceptance, and between two acceptances at least one completion. */
  lemma {:induction false} SubmissionsBalance(tr: seq<World>, acts: seq<Action>, cfg: Config, m: nat, n: nat)
    requires Behavior(tr, acts, cfg) && m <= n <= |acts|
    ensures Accepted(tr, acts, m, n) - Completed(tr, m, n) == Busy(tr[n]) - Busy(tr[m])
    ensures Accepted(tr, acts, m, n) <= Completed(tr, m, n) + 1
    decreases n - m
  {
    if m < n {
      SubmissionsBalance(tr, acts, cfg, m, n - 1);
      BusyStep(tr, acts, cfg, n - 1);
    }
  }

  lemma {:induction false} LastAccepted(tr: seq<World>, acts: seq<Action>, m: nat, n: nat) returns (i: nat)
    requires m <= n <= |acts| < |tr| && Accepted(tr, acts, m, n) >= 1
    ensures m <= i < n && IsAccepted(tr[i], acts[i])
  {
    i := n - 1;
    if !IsAccepted(tr[i], acts[i]) {
      i := LastAccepted(tr, acts, m, i);
    }
  }

  /** Once ready, the executor stays so until it accepts: a submission that is refused after
      a positive readiness check lost to another one that was accepted in between. */
  lemma RefusedOnlyByRace(tr: seq<World>, acts: seq<Action>, cfg: Config, m: nat, n: nat)
    requires Behavior(tr, acts, cfg) && m <= n <= |acts| && IsReady(tr[m]) && !IsReady(tr[n])
    ensures Accepted(tr, acts, m, n) >= 1
    ensures exists i | m <= i < n :: IsAccepted(tr[i], acts[i])
  {
    SubmissionsBalance(tr, acts, cfg, m, n);
    var i := LastAccepted(tr, acts, m, n);
  }

  // ---------------------------------------------------------------- publication

  lemma NoRemovalAtWork(j: Job, cfg: Config, s: Script)
    requires JobInv(j, cfg, s) && !Unwinding(j)
    ensures !Called(j.calls, 8)
  {
  }

  lemma RemovalInUnwinding(j: Job, cfg: Config, s: Script)
    requires JobInv(j, cfg, s) && Unwinding(j) && |j.defers| <= 4
    ensures !Outstanding(j)
  {
    assert j.calls == Trace(s);
    TraceShape(s);
  }

  /** MAIN RESULT.  Once the Done channel of a job is closed its result is there and is the
      one its runtime calls call for, these calls are about the image requested and the one
      container created, its log is closed, and a created container has been removed or its
      removal attempted; none of this changes later. */
  lemma DoneIsPublished(tr: seq<World>, acts: seq<Action>, cfg: Config, n: nat, m: nat, k: nat) returns (s: Script)
    requires Behavior(tr, acts, cfg) && n <= m < |tr| && k < |tr[n].jobs| && tr[n].jobs[k].done
    ensures k < |tr[m].jobs|
    ensures var j := tr[m].jobs[k];
            && s.Proper() && j.calls == Trace(s)
            && j.result == tr[n].jobs[k].result == Some(ResultOf(j.id, j.req, cfg, s))
            && j.result.value.jobId == j.id == tr[n].jobs[k].id
            && Explains(j.calls, j.result.value, j.req, cfg) && OneContainer(j.calls, j.req.image)
            && j.log.buffer.closed && j.log.buffer.lines == tr[n].jobs[k].log.buffer.lines
            && (Made(j.calls, 2, false) ==> Called(j.calls, 8))
  {
    InvRun(tr, acts, cfg, n);
    s := DoneIsComplete(tr[n].jobs[k], cfg);
    GrowsRun(tr, acts, cfg, n, m);
    assert Grows(tr[n].jobs[k], tr[m].jobs[k]);
    DoneIsExplained(tr[n].jobs[k], cfg);
  }

  /** MAIN RESULT.  The order of the clean-up, at every moment of every run: Done is closed only
      after the log, the log only after the context was cancelled, and that only after the
      result was set and the removal of a created container attempted. */
  lemma CleanUpOrder(tr: seq<World>, acts: seq<Action>, cfg: Config, n: nat, k: nat)
    requires Behavior(tr, acts, cfg) && n < |tr| && k < |tr[n].jobs|
    ensures var j := tr[n].jobs[k];
            && (j.done ==> j.log.buffer.closed) && (j.log.buffer.closed ==> j.cancelled)
            && (j.cancelled ==> j.result.Some? && !Outstanding(j))
            && (Called(j.calls, 8) ==> j.result.Some?)
  {
    InvRun(tr, acts, cfg, n);
    var j := tr[n].jobs[k];
    assert JobOk(j, cfg);
    var s :| JobInv(j, cfg, s);
    if Unwinding(j) {
      if |j.defers| <= 4 {
        RemovalInUnwinding(j, cfg, s);
      }
    } else {
      NoRemovalAtWork(j, cfg, s);
    }
  }

  /** GetResult, whose two halves happen at moments n and m. */
  function GetResult(tr: seq<World>, n: nat, m: nat, id: string): Option<Result>
    requires n <= m < |tr| && |tr[n].jobs| <= |tr[m].jobs|
  {
    Outcome(tr[m], Lookup(tr[n], id))
  }

  /** MAIN RESULT.  GetResult finds a result exactly when the identifier is the current one at
      its first half and that job is done at its second; and as long as no further submission
      is accepted, every later call returns the same. */
  lemma GetResultIff(tr: seq<World>, acts: seq<Action>, cfg: Config, n: nat, m: nat, id: string)
    requires Behavior(tr, acts, cfg) && n <= m < |tr|
    ensures |tr[n].jobs| <= |tr[m].jobs|
    ensures GetResult(tr, n, m, id).Some? <==>
              Current(tr[n]).Some? && Current(tr[n]).value.id == id && tr[m].jobs[|tr[n].jobs| - 1].done
    ensures GetResult(tr, n, m, id).Some? ==> GetResult(tr, n, m, id).value.jobId == id
  {
    GrowsRun(tr, acts, cfg, n, m);
    InvRun(tr, acts, cfg, m);
    if Lookup(tr[n], id).Some? {
      var k := Lookup(tr[n], id).value;
      assert Grows(tr[n].jobs[k], tr[m].jobs[k]);
      if tr[m].jobs[k].done {
        var s := DoneIsPublished(tr, acts, cfg, m, m, k);
      }
    }
  }

  lemma GetResultIsStable(tr: seq<World>, acts: seq<Action>, cfg: Config, n: nat, m: nat, n': nat, m': nat, id: string)
    requires Behavior(tr, acts, cfg) && n <= m <= m' < |tr| && n <= n' <= m'
    requires |tr[n'].jobs| == |tr[n].jobs|
    ensures |tr[n].jobs| <= |tr[m].jobs| && |tr[n'].jobs| <= |tr[m'].jobs|
    ensures GetResult(tr, n, m, id).Some? ==> GetResult(tr, n', m', id) == GetResult(tr, n, m, id)
  {
    GrowsRun(tr, acts, cfg, n, m);
    GrowsRun(tr, acts, cfg, n, n');
    GrowsRun(tr, acts, cfg, m, m');
    GrowsRun(tr, acts, cfg, n', m');
    if Lookup(tr[n], id).Some? {
      var k := Lookup(tr[n], id).value;
      assert Grows(tr[n].jobs[k], tr[n'].jobs[k]) && Grows(tr[m].jobs[k], tr[m'].jobs[k]);
    }
  }

  /** A caller of GetResult gets the result of a job submitted with this request. */
  ghost predicate Obtains(tr: seq<World>, acts: seq<Action>, cfg: Config, n: nat, m: nat, id: string, req: Request) {
    && Behavior(tr, acts, cfg) && n <= m < |tr| && |tr[n].jobs| <= |tr[m].jobs|
    && GetResult(tr, n, m, id).Some? && tr[m].jobs[|tr[n].jobs| - 1].req == req
  }

  /** MAIN RESULT.  Neither output stream of a result that any caller can ever obtain contains
      a secret of its job, provided the secrets cannot overlap the placeholder in agreement;
      if the job did not end in an error, neither does the error message. */
  lemma ResultsAreClean(tr: seq<World>, acts: seq<Action>, cfg: Config, n: nat, m: nat, id: string, req: Request)
    requires Obtains(tr, acts, cfg, n, m, id, req)
    requires RedactionProofs.AllOverlapFree(req.secrets, Redaction.PLACEHOLDER)
    ensures var r := GetResult(tr, n, m, id).value;
            && RedactionProofs.Clean(r.stdout, req.secrets)
            && RedactionProofs.Clean(r.stderr, req.secrets)
            && (r.status != "error" ==> RedactionProofs.Clean(r.error, req.secrets))
  {
    GetResultIff(tr, acts, cfg, n, m, id);
    var k := |tr[n].jobs| - 1;
    var j := tr[m].jobs[k];
    InvRun(tr, acts, cfg, m);
    var s := DoneIsComplete(j, cfg);
    ResultIsClean(j.id, j.req, cfg, s);
  }

  lemma Extend(tr: seq<World>, acts: seq<Action>, cfg: Config, a: Action)
    requires Behavior(tr, acts, cfg) && Enabled(tr[|acts|], a)
    ensures Behavior(tr + [Next(tr[|acts|], a, cfg)], acts + [a], cfg)
  {
  }

  lemma StepIsAction(j: Job, j': Job, cfg: Config) returns (a: Action)
    requires Steps(j, j', cfg)
    ensures Enabled(World([j], []), a) && Next(World([j], []), a, cfg) == World([j'], [])
  {
    if CanProceed(j) && j' == Proceed(j) {
      a := Advance(0);
    } else {
      var c :| CanCall(j, c) && j' == AfterCall(j, c, cfg);
      a := RuntimeCall(0, c);
    }
  }

  /** What a goroutine can do by itself, it can do as the only job of the executor. */
  lemma {:induction false} OnlyJob(run: seq<Job>, cfg: Config) returns (tr: seq<World>, acts: seq<Action>)
    requires GoroutineRun(run, cfg) && run[0] == NewJob(run[0].id, run[0].req)
    ensures Behavior(tr, acts, cfg) && tr[|acts|] == World([run[|run| - 1]], [])
    decreases |run|
  {
    if |run| == 1 {
      var submit := Submit(run[0].id, run[0].req);
      tr, acts := [START], [];
      Extend(tr, acts, cfg, submit);
      tr, acts := [START, World(run, [])], [submit];
    } else {
      var n := |run| - 1;
      tr, acts := OnlyJob(run[..n], cfg);
      assert Steps(run[n - 1], run[n - 1 + 1], cfg);
      var a := StepIsAction(run[n - 1], run[n], cfg);
      Extend(tr, acts, cfg, a);
      tr, acts := tr + [World([run[n]], [])], acts + [a];
    }
  }

  /** Whatever a script calls for can come to be somebody's result. */
  lemma ResultIsObtained(req: Request, cfg: Config, s: Script) returns (tr: seq<World>, acts: seq<Action>, n: nat)
    requires s.Proper() && s.About(req.image)
    ensures Obtains(tr, acts, cfg, n, n, "a", req)
    ensures GetResult(tr, n, n, "a") == Some(ResultOf("a", req, cfg, s))
  {
    NewJobInv("a", req, cfg, s);
    var run := Drive(NewJob("a", req), cfg, s);
    RunKeepsRequest(run, cfg);
    tr, acts := OnlyJob(run, cfg);
    n := |acts|;
  }

  /** MAIN RESULT.  The error messages callers can obtain are free of the secrets of the job,
      in all runs, if and only if it has no secret to speak of. */
  lemma ErrorsObtainedAreCleanIff(req: Request, cfg: Config)
    ensures (forall tr: seq<World>, acts, n, m, id | Obtains(tr, acts, cfg, n, m, id, req) ::
               RedactionProofs.Clean(GetResult(tr, n, m, id).value.error, req.secrets))
       <==> forall x | x in req.secrets :: x.value == ""
  {
    forall x | x in req.secrets && x.value != ""
      ensures exists tr: seq<World>, acts, n, m, id :: Obtains(tr, acts, cfg, n, m, id, req)
                && !RedactionProofs.Clean(GetResult(tr, n, m, id).value.error, req.secrets)
    {
      ErrorRepeatsRuntime("a", req, cfg, x.value);
      var tr, acts, n := ResultIsObtained(req, cfg, RefusingScript(req.image, x.value));
      assert !RedactionProofs.Clean(GetResult(tr, n, n, "a").value.error, req.secrets);
    }
  }

  // ---------------------------------------------------------------- progress

  function OwnMoves(acts: seq<Action>, k: nat, n: nat): nat
    requires n <= |acts|
  {
    if n == 0 then 0 else OwnMoves(acts, k, n - 1) + if OwnMove(acts[n - 1], k) then 1 else 0
  }

  lemma RankMoves(j: Job, j': Job, a: Action, cfg: Config, k: nat)
    requires JobOk(j, cfg) && JobMoves(j, j', a, k, cfg)
    ensures Rank(j') + (if OwnMove(a, k) then 1 else 0) <= Rank(j)
  {
    if OwnMove(a, k) {
      var s :| JobInv(j, cfg, s);
      assert Steps(j, j', cfg);
      JobProgresses(j, cfg, s);
    } else {
      OtherMoves(j, j', a, cfg, k);
    }
  }

  lemma RankNext(w: World, a: Action, cfg: Config, k: nat)
    requires WorldInv(w, cfg) && Enabled(w, a) && k < |w.jobs|
    ensures k < |Next(w, a, cfg).jobs|
    ensures Rank(Next(w, a, cfg).jobs[k]) + (if OwnMove(a, k) then 1 else 0) <= Rank(w.jobs[k])
  {
    NextMoves(w, a, cfg, k);
    RankMoves(w.jobs[k], Next(w, a, cfg).jobs[k], a, cfg, k);
  }

  lemma MoveIsOpen(w: World, cfg: Config, k: nat)
    requires k < |w.jobs| && JobOk(w.jobs[k], cfg) && !w.jobs[k].done
    ensures exists a :: OwnMove(a, k) && Enabled(w, a)
  {
    var j := w.jobs[k];
    var s :| JobInv(j, cfg, s);
    var a := if CanProceed(j) then Advance(k) else RuntimeCall(k, Asked(j, cfg, s));
    assert OwnMove(a, k) && Enabled(w, a);
  }

  lemma {:induction false} NoMovesBefore(tr: seq<World>, acts: seq<Action>, cfg: Config, n: nat, k: nat)
    requires Behavior(tr, acts, cfg) && 0 < n < |tr| && |tr[n - 1].jobs| <= k
    ensures OwnMoves(acts, k, n) == 0
  {
    assert Moves(tr[n - 1], acts[n - 1], tr[n], cfg);
    if n > 1 {
      GrowsRun(tr, acts, cfg, n - 2, n - 1);
      NoMovesBefore(tr, acts, cfg, n - 1, k);
    }
  }

  lemma {:induction false} MovesAndRank(tr: seq<World>, acts: seq<Action>, cfg: Config, n: nat, k: nat)
    requires Behavior(tr, acts, cfg) && n < |tr| && k < |tr[n].jobs|
    ensures OwnMoves(acts, k, n) + Rank(tr[n].jobs[k]) <= 20
  {
    if n > 0 {
      if k < |tr[n - 1].jobs| {
        InvRun(tr, acts, cfg, n - 1);
        MovesAndRank(tr, acts, cfg, n - 1, k);
        assert Moves(tr[n - 1], acts[n - 1], tr[n], cfg);
        RankNext(tr[n - 1], acts[n - 1], cfg, k);
      } else {
        NoMovesBefore(tr, acts, cfg, n, k);
      }
    }
  }

  /** MAIN RESULT.  The goroutine of a job takes at most 20 steps in any run, and until it has
      closed Done one is open to it: if the runtime keeps answering, the worker is released. */
  lemma JobsFinish(tr: seq<World>, acts: seq<Action>, cfg: Config, n: nat, k: nat)
    requires Behavior(tr, acts, cfg) && n < |tr| && k < |tr[n].jobs|
    ensures OwnMoves(acts, k, n) + Rank(tr[n].jobs[k]) <= 20
    ensures !tr[n].jobs[k].done ==> exists a :: OwnMove(a, k) && Enabled(tr[n], a)
  {
    InvRun(tr, acts, cfg, n);
    if !tr[n].jobs[k].done {
      MoveIsOpen(tr[n], cfg, k);
    }
    MovesAndRank(tr, acts, cfg, n, k);
  }

  // ---------------------------------------------------------------- log streams

  lemma LogStep(j: Job, j': Job, a: Action, cfg: Config, k: nat) returns (b: LogBuffer.Action)
    requires JobMoves(j, j', a, k, cfg) && j'.log != j.log
    ensures LogBuffer.Enabled(j.log, b) && j'.log == LogBuffer.Next(j.log, b)
    ensures b.Cancel? ==> a == StreamStep(k, b)
  {
    match a
    case Advance(_) => b := LogBuffer.Close;
    case WriteLog(_) =>
      b := if j.streamer.WritingOut? then LogBuffer.Write(LogBuffer.Line("stdout", j.streamer.out))
           else LogBuffer.Write(LogBuffer.Line("stderr", j.streamer.err));
    case Attach(_) => b := LogBuffer.Subscribe;
    case StreamStep(_, c) => b := c;
  }

  /** The log of a job goes through a run of the log buffer protocol of its own, so all that is
      proved of such runs holds of it. */
  lemma {:induction false} LogIsBehavior(tr: seq<World>, acts: seq<Action>, cfg: Config, n: nat, k: nat)
    returns (logs: seq<LogBuffer.State>, steps: seq<LogBuffer.Action>)
    requires Behavior(tr, acts, cfg) && n < |tr| && k < |tr[n].jobs|
    ensures LogBuffer.Behavior(logs, steps) && logs[|steps|] == tr[n].jobs[k].log
  {
    assert n > 0;
    var w, a := tr[n - 1], acts[n - 1];
    RunMoves(tr, acts, cfg, n - 1, k);
    if k >= |w.jobs| {
      logs, steps := [LogBuffer.INITIAL], [];
    } else {
      logs, steps := LogIsBehavior(tr, acts, cfg, n - 1, k);
      if tr[n].jobs[k].log != w.jobs[k].log {
        var b := LogStep(w.jobs[k], tr[n].jobs[k], a, cfg, k);
        LogBuffer.RunExtends(logs, steps, b);
        logs, steps := logs + [tr[n].jobs[k].log], steps + [b];
      }
    }
  }

  /** Everything of `lines`, except what came after the log was closed. */
  ghost predicate Wrote(j: Job, lines: seq<LogBuffer.Line>) {
    if j.log.buffer.closed then j.log.buffer.lines <= lines else j.log.buffer.lines == lines
  }

  /** The log, when the streaming goroutine has fetched these two streams. */
  ghost predicate Content(j: Job, stdout: string, stderr: string) {
    match j.streamer
    case NotStarted => j.log.buffer.lines == []
    case Fetching => j.log.buffer.lines == []
    case WritingOut(out, err) => out == stdout && err == stderr && j.log.buffer.lines == []
    case WritingErr(err) => err == stderr && Wrote(j, LinesOf("stdout", stdout))
    case Finished => Wrote(j, LinesOf("stdout", stdout) + LinesOf("stderr", stderr))
  }

  lemma ContentStays(j: Job, j': Job, stdout: string, stderr: string)
    requires Content(j, stdout, stderr) && j'.log.buffer.lines == j.log.buffer.lines
    requires j'.streamer == j.streamer || (j.streamer == NotStarted && j'.streamer == Fetching)
    requires j.log.buffer.closed ==> j'.log.buffer.closed
    ensures Content(j', stdout, stderr)
  {
  }

  lemma ContentWrite(j: Job, stdout: string, stderr: string)
    requires Content(j, stdout, stderr) && CanWrite(j)
    ensures Content(AfterWrite(j), stdout, stderr)
  {
    if j.streamer.WritingErr? && !j.log.buffer.closed {
      assert AfterWrite(j).log.buffer.lines == LinesOf("stdout", stdout) + LinesOf("stderr", stderr);
    }
  }

  /** The streaming goroutine starts once, when the container has started. */
  lemma CallStreamer(j: Job, c: Call, cfg: Config, s: Script)
    requires JobInv(j, cfg, s) && CanCall(j, c)
    ensures var j' := AfterCall(j, c, cfg);
            j'.log == j.log && (j'.streamer == j.streamer || (j.streamer == NotStarted && j'.streamer == Fetching))
  {
  }

  lemma ProceedIsQuiet(j: Job)
    requires CanProceed(j)
    ensures Proceed(j).log.buffer.lines == j.log.buffer.lines && Proceed(j).streamer == j.streamer
    ensures j.log.buffer.closed ==> Proceed(j).log.buffer.closed
  {
  }

  lemma StreamIsQuiet(j: Job, j': Job, a: Action, cfg: Config, k: nat)
    requires JobMoves(j, j', a, k, cfg) && !OwnMove(a, k) && !((a.Fetch? || a.WriteLog?) && a.k == k)
    ensures j'.log.buffer.lines == j.log.buffer.lines && j'.log.buffer.closed == j.log.buffer.closed
    ensures j'.streamer == j.streamer
  {
  }

  /** All other moves write nothing. */
  lemma QuietMoves(j: Job, j': Job, a: Action, cfg: Config, k: nat)
    requires JobOk(j, cfg) && JobMoves(j, j', a, k, cfg)
    requires !((a.Fetch? || a.WriteLog?) && a.k == k)
    ensures j'.log.buffer.lines == j.log.buffer.lines && (j.log.buffer.closed ==> j'.log.buffer.closed)
    ensures j'.streamer == j.streamer || (j.streamer == NotStarted && j'.streamer == Fetching)
  {
    if OwnMove(a, k) {
      var s :| JobInv(j, cfg, s);
      if a.RuntimeCall? {
        CallStreamer(j, a.call, cfg, s);
      } else {
        ProceedIsQuiet(j);
      }
    } else {
      StreamIsQuiet(j, j', a, cfg, k);
    }
  }

  lemma ContentMoves(j: Job, j': Job, a: Action, cfg: Config, k: nat, stdout: string, stderr: string)
    returns (out: string, err: string)
    requires JobOk(j, cfg) && JobMoves(j, j', a, k, cfg) && Content(j, stdout, stderr)
    ensures Content(j', out, err)
    ensures (out == "" && err == "") || (out == stdout && err == stderr) || a == Fetch(k, out, err, false)
  {
    out, err := stdout, stderr;
    if a.Fetch? && a.k == k {
      out, err := if a.failed then "" else a.stdout, if a.failed then "" else a.stderr;
    } else if a.WriteLog? && a.k == k {
      ContentWrite(j, stdout, stderr);
    } else {
      QuietMoves(j, j', a, cfg, k);
      ContentStays(j, j', stdout, stderr);
    }
  }

  /** MAIN RESULT.  The live log of a job consists of the two streams that its streaming
      goroutine fetched once, standard output first, each a single line if not empty, and
      misses at most what was left to write when the job's clean-up closed it. */
  lemma {:induction false} LogContents(tr: seq<World>, acts: seq<Action>, cfg: Config, n: nat, k: nat)
    returns (stdout: string, stderr: string)
    requires Behavior(tr, acts, cfg) && n < |tr| && k < |tr[n].jobs|
    ensures Content(tr[n].jobs[k], stdout, stderr)
    ensures tr[n].jobs[k].log.buffer.lines <= LinesOf("stdout", stdout) + LinesOf("stderr", stderr)
    ensures (stdout == "" && stderr == "") || exists i | 0 <= i < n :: acts[i] == Fetch(k, stdout, stderr, false)
  {
    assert n > 0;
    var w, a := tr[n - 1], acts[n - 1];
    RunMoves(tr, acts, cfg, n - 1, k);
    if k >= |w.jobs| {
      stdout, stderr := "", "";
    } else {
      stdout, stderr := LogContents(tr, acts, cfg, n - 1, k);
      InvRun(tr, acts, cfg, n - 1);
      stdout, stderr := ContentMoves(w.jobs[k], tr[n].jobs[k], a, cfg, k, stdout, stderr);
    }
  }

  /** MAIN RESULT.  So a client of a log stream receives the fetched streams as they are: its
      lines are a prefix of the two, and all of the log when its stream ends uncancelled.
      Truncation and redaction concern results only. */
  lemma ClientReceivesRaw(tr: seq<World>, acts: seq<Action>, cfg: Config, n: nat, k: nat, i: nat)
    returns (stdout: string, stderr: string)
    requires Behavior(tr, acts, cfg) && n < |tr| && k < |tr[n].jobs| && i < |tr[n].jobs[k].log.subs|
    ensures tr[n].jobs[k].log.subs[i].received <= LinesOf("stdout", stdout) + LinesOf("stderr", stderr)
    ensures (stdout == "" && stderr == "") || exists i | 0 <= i < n :: acts[i] == Fetch(k, stdout, stderr, false)
    ensures tr[n].jobs[k].log.subs[i].phase == LogBuffer.Ended(false) && tr[n].jobs[k].log.subs[i].queue == [] ==>
              tr[n].jobs[k].log.subs[i].received == tr[n].jobs[k].log.buffer.lines
  {
    stdout, stderr := LogContents(tr, acts, cfg, n, k);
    InvRun(tr, acts, cfg, n);
    var j := tr[n].jobs[k];
    var s :| JobInv(j, cfg, s);
    assert LogBuffer.SubInv(j.log.buffer, j.log.subs[i]);
  }

  const ONE_SUBSCRIBER := LogBuffer.State(LogBuffer.Buffer([], false, false), [LogBuffer.NEW_SUBSCRIBER])

  /** A log stream opened for the only job there is. */
  lemma AttachStream(tr: seq<World>, acts: seq<Action>, cfg: Config) returns (tr': seq<World>, acts': seq<Action>)
    requires Behavior(tr, acts, cfg) && |tr[|acts|].jobs| == 1 && tr[|acts|].handlers == []
    requires tr[|acts|].jobs[0].id == "a" && tr[|acts|].jobs[0].log == LogBuffer.INITIAL
    ensures Behavior(tr', acts', cfg) && acts' == acts + [OpenStream("a"), Attach(0)]
    ensures tr'[|acts'|] == World([tr[|acts|].jobs[0].(log := ONE_SUBSCRIBER)], [Handler("a", 0, 0, Streaming)])
  {
    var w := tr[|acts|];
    var w1 := World(w.jobs, [Handler("a", 0, 0, Opening)]);
    assert Next(w, OpenStream("a"), cfg) == w1;
    Extend(tr, acts, cfg, OpenStream("a"));
    tr', acts' := tr + [w1], acts + [OpenStream("a")];
    assert LogBuffer.Next(w.jobs[0].log, LogBuffer.Subscribe) == ONE_SUBSCRIBER;
    var w2 := World([w.jobs[0].(log := ONE_SUBSCRIBER)], [Handler("a", 0, 0, Streaming)]);
    assert Next(w1, Attach(0), cfg) == w2;
    Extend(tr', acts', cfg, Attach(0));
    tr', acts' := tr' + [w2], acts' + [Attach(0)];
  }

  /** Client i of job k, which was submitted with this request, has received this line. */
  ghost predicate Receives(tr: seq<World>, acts: seq<Action>, cfg: Config, n: nat, k: nat, i: nat, req: Request,
                           line: LogBuffer.Line) {
    && Behavior(tr, acts, cfg) && n < |tr| && k < |tr[n].jobs| && tr[n].jobs[k].req == req
    && i < |tr[n].jobs[k].log.subs| && line in tr[n].jobs[k].log.subs[i].received
  }

  /** A job whose container runs, with a log stream open. */
  lemma RunningStreamed(req: Request, cfg: Config) returns (tr: seq<World>, acts: seq<Action>, j: Job)
    ensures Behavior(tr, acts, cfg) && tr[|acts|] == World([j], [Handler("a", 0, 0, Streaming)])
    ensures j.req == req && j.streamer == Fetching && j.log == ONE_SUBSCRIBER
  {
    var s, j0 := SomeScript(req.image), NewJob("a", req);
    var j1 := Proceed(j0);
    var j2 := AfterCall(j1, s.exists_, cfg);
    var j3 := AfterCall(j2, s.create, cfg);
    var j4 := AfterCall(j3, s.start, cfg);
    var run := [j0, j1, j2, j3, j4];
    assert Steps(j0, j1, cfg) && Steps(j1, j2, cfg) && Steps(j2, j3, cfg) && Steps(j3, j4, cfg);
    assert run[4] == j4;
    tr, acts := OnlyJob(run, cfg);
    tr, acts := AttachStream(tr, acts, cfg);
    j := j4.(log := ONE_SUBSCRIBER);
  }

  lemma StreamMoves(tr: seq<World>, acts: seq<Action>, cfg: Config, b: LogBuffer.Action)
    returns (tr': seq<World>, acts': seq<Action>)
    requires Behavior(tr, acts, cfg) && |tr[|acts|].jobs| == 1
    requires OfSubscriber(b) && LogBuffer.Enabled(tr[|acts|].jobs[0].log, b)
    ensures Behavior(tr', acts', cfg) && acts' == acts + [StreamStep(0, b)]
    ensures var j := tr[|acts|].jobs[0];
            tr'[|acts'|] == World([j.(log := LogBuffer.Next(j.log, b))], tr[|acts|].handlers)
  {
    var w := tr[|acts|];
    var w' := World([w.jobs[0].(log := LogBuffer.Next(w.jobs[0].log, b))], w.handlers);
    assert Next(w, StreamStep(0, b), cfg) == w';
    Extend(tr, acts, cfg, StreamStep(0, b));
    tr', acts' := tr + [w'], acts + [StreamStep(0, b)];
  }

  /** A subscriber that has not begun sends the first line, and its consumer takes it. */
  lemma TakesFirst(tr: seq<World>, acts: seq<Action>, cfg: Config, line: LogBuffer.Line)
    returns (tr': seq<World>, acts': seq<Action>)
    requires Behavior(tr, acts, cfg) && |tr[|acts|].jobs| == 1
    requires tr[|acts|].jobs[0].log
          == LogBuffer.State(LogBuffer.Buffer([line], false, true), [LogBuffer.NEW_SUBSCRIBER])
    ensures Behavior(tr', acts', cfg) && |tr'[|acts'|].jobs| == 1
    ensures tr'[|acts'|].jobs[0].req == tr[|acts|].jobs[0].req
    ensures var log := tr'[|acts'|].jobs[0].log; |log.subs| == 1 && log.subs[0].received == [line]
  {
    var w, sub, b := tr[|acts|], LogBuffer.NEW_SUBSCRIBER, LogBuffer.Buffer([line], false, true);
    var j := w.jobs[0];
    var sending := sub.(phase := LogBuffer.Sending([line], 0, false));
    var sent := sub.(phase := LogBuffer.Sending([line], 1, false), pos := 1, queue := [line]);
    var taken := sent.(queue := [], received := [line]);
    var step := LogBuffer.Step(0, false);
    assert LogBuffer.StepSubscriber(b, sub, false) == sending;
    assert LogBuffer.StepSubscriber(b, sending, false) == sent;
    assert LogBuffer.Next(LogBuffer.State(b, [sub]), step) == LogBuffer.State(b, [sending]);
    assert LogBuffer.Next(LogBuffer.State(b, [sending]), step) == LogBuffer.State(b, [sent]);
    assert sent.queue[1..] == [] && sent.received + [sent.queue[0]] == [line];
    assert LogBuffer.Next(LogBuffer.State(b, [sent]), LogBuffer.Receive(0)) == LogBuffer.State(b, [taken]);
    tr', acts' := StreamMoves(tr, acts, cfg, step);
    tr', acts' := StreamMoves(tr', acts', cfg, step);
    tr', acts' := StreamMoves(tr', acts', cfg, LogBuffer.Receive(0));
  }

  /** The streaming goroutine fetches and writes a first stream, of which the client takes the
      line. */
  lemma ClientReceivesLine(req: Request, cfg: Config, data: string) returns (tr: seq<World>, acts: seq<Action>, n: nat)
    requires data != ""
    ensures Receives(tr, acts, cfg, n, 0, 0, req, LogBuffer.Line("stdout", data))
  {
    var j;
    tr, acts, j := RunningStreamed(req, cfg);
    var hs := tr[|acts|].handlers;
    var j1 := j.(streamer := WritingOut(data, ""));
    assert Next(World([j], hs), Fetch(0, data, "", false), cfg) == World([j1], hs);
    Extend(tr, acts, cfg, Fetch(0, data, "", false));
    tr, acts := tr + [World([j1], hs)], acts + [Fetch(0, data, "", false)];
    var line, sub := LogBuffer.Line("stdout", data), LogBuffer.NEW_SUBSCRIBER;
    var b := LogBuffer.Buffer([line], false, true);
    var j2 := j1.(streamer := WritingErr(""), log := LogBuffer.State(b, [sub]));
    assert LogBuffer.WriteLine(ONE_SUBSCRIBER.buffer, line) == b;
    assert Next(World([j1], hs), WriteLog(0), cfg) == World([j2], hs);
    Extend(tr, acts, cfg, WriteLog(0));
    tr, acts := tr + [World([j2], hs)], acts + [WriteLog(0)];
    tr, acts := TakesFirst(tr, acts, cfg, line);
    n := |acts|;
  }

  /** MAIN RESULT.  What clients receive from log streams is free of the secrets of the job, in
      all runs, if and only if it has no secret to speak of. */
  lemma StreamsAreCleanIff(req: Request, cfg: Config)
    ensures (forall tr: seq<World>, acts, n, k, i, line | Receives(tr, acts, cfg, n, k, i, req, line) ::
               RedactionProofs.Clean(line.data, req.secrets))
       <==> forall x | x in req.secrets :: x.value == ""
  {
    forall x | x in req.secrets && x.value != ""
      ensures exists tr: seq<World>, acts, n, k, i, line :: Receives(tr, acts, cfg, n, k, i, req, line)
                && !RedactionProofs.Clean(line.data, req.secrets)
    {
      var tr, acts, n := ClientReceivesLine(req, cfg, x.value);
      assert OccursAt(x.value, x.value, 0);
      assert !RedactionProofs.Clean(LogBuffer.Line("stdout", x.value).data, req.secrets);
    }
  }

  /** MAIN RESULT.  Every stream has a subscription of its own. */
  lemma StreamsAreSeparate(tr: seq<World>, acts: seq<Action>, cfg: Config, n: nat, h: nat, i: nat)
    requires Behavior(tr, acts, cfg) && n < |tr| && h < |tr[n].handlers| && i < |tr[n].handlers| && h != i
    requires tr[n].handlers[h].job == tr[n].handlers[i].job
    requires !tr[n].handlers[h].stage.Opening? && !tr[n].handlers[i].stage.Opening?
    ensures tr[n].handlers[h].sub != tr[n].handlers[i].sub
  {
    InvRun(tr, acts, cfg, n);
  }

  /** What one step does to a subscription's cancellation. */
  lemma CancelNext(st: LogBuffer.State, b: LogBuffer.Action, i: nat)
    requires LogBuffer.Enabled(st, b) && b != LogBuffer.Cancel(i) && i < |LogBuffer.Next(st, b).subs|
    requires i < |st.subs| ==> !st.subs[i].ctxDone && st.subs[i].phase != LogBuffer.Ended(true)
    ensures !LogBuffer.Next(st, b).subs[i].ctxDone && LogBuffer.Next(st, b).subs[i].phase != LogBuffer.Ended(true)
  {
  }

  /** A subscription is only ever cancelled by its own client. */
  lemma {:induction false} CancelledByOwnClient(tr: seq<World>, acts: seq<Action>, cfg: Config, n: nat, k: nat, i: nat)
    requires Behavior(tr, acts, cfg) && n < |tr| && k < |tr[n].jobs| && i < |tr[n].jobs[k].log.subs|
    requires StreamStep(k, LogBuffer.Cancel(i)) !in acts[..n]
    ensures !tr[n].jobs[k].log.subs[i].ctxDone && tr[n].jobs[k].log.subs[i].phase != LogBuffer.Ended(true)
  {
    assert n > 0;
    var a := acts[n - 1];
    assert acts[..n] == acts[..n - 1] + [a];
    RunMoves(tr, acts, cfg, n - 1, k);
    if k < |tr[n - 1].jobs| {
      var j := tr[n - 1].jobs[k];
      if i < |j.log.subs| {
        CancelledByOwnClient(tr, acts, cfg, n - 1, k, i);
      }
      if tr[n].jobs[k].log != j.log {
        var b := LogStep(j, tr[n].jobs[k], a, cfg, k);
        CancelNext(j.log, b, i);
      }
    }
  }

  /** A stream that is over, and that its own client has not cancelled, has delivered the whole
      log, whatever happened to other streams. */
  lemma StreamDelivered(tr: seq<World>, acts: seq<Action>, cfg: Config, n: nat, h: nat)
    requires Behavior(tr, acts, cfg) && n < |tr| && h < |tr[n].handlers|
    requires tr[n].handlers[h].stage.LookedUp? || tr[n].handlers[h].stage.Sent?
    requires StreamStep(tr[n].handlers[h].job, LogBuffer.Cancel(tr[n].handlers[h].sub)) !in acts[..n]
    ensures var x := tr[n].handlers[h];
            && x.job < |tr[n].jobs| && x.sub < |tr[n].jobs[x.job].log.subs|
            && tr[n].jobs[x.job].log.buffer.closed && tr[n].jobs[x.job].result.Some?
            && tr[n].jobs[x.job].log.subs[x.sub].received == tr[n].jobs[x.job].log.buffer.lines
  {
    InvRun(tr, acts, cfg, n);
    var x := tr[n].handlers[h];
    assert HandlerOk(tr[n], x);
    var j := tr[n].jobs[x.job];
    assert JobOk(j, cfg);
    var s :| JobInv(j, cfg, s);
    assert LogBuffer.SubInv(j.log.buffer, j.log.subs[x.sub]);
    CancelledByOwnClient(tr, acts, cfg, n, x.job, x.sub);
  }

  ghost predicate DistinctIds(w: World) {
    forall i, k | 0 <= i < k < |w.jobs| :: w.jobs[i].id != w.jobs[k].id
  }

  /** MAIN RESULT.  What an end event means, at the moment it is sent.  It says "unknown"
      exactly when the job had been replaced at the lookup or Done was not yet closed;
      otherwise it tells the status and exit code of the job asked for, which are those its
      runtime calls call for.  Unless this very request was cancelled, whatever happened to
      other clients, the client has by then received the whole log, and the result was
      already set. */
  lemma EndEventMeaning(tr: seq<World>, acts: seq<Action>, cfg: Config, n: nat, h: nat)
    requires Behavior(tr, acts, cfg) && n < |acts| && acts[n] == EndSend(h)
    ensures Enabled(tr[n], acts[n]) && h < |tr[n + 1].handlers| && tr[n + 1].handlers[h].stage.Sent?
    ensures var w, x, e := tr[n], tr[n].handlers[h], tr[n + 1].handlers[h].stage.event;
            && x.job < |w.jobs| && w.jobs[x.job].id == x.id && x.sub < |w.jobs[x.job].log.subs|
            && (e == UNKNOWN <==> x.stage.found.None? || !w.jobs[x.stage.found.value].done)
            && (x.stage.found.None? ==> x.job < |w.jobs| - 1)
            && (e != UNKNOWN ==> w.jobs[x.stage.found.value].id == x.id && w.jobs[x.stage.found.value].result.Some?
                                 && e.status == w.jobs[x.stage.found.value].result.value.status
                                 && e.exitCode == w.jobs[x.stage.found.value].result.value.exitCode)
            && (DistinctIds(w) && x.stage.found.Some? ==> x.stage.found.value == x.job)
            && (e != UNKNOWN ==>
                  var f := w.jobs[x.stage.found.value]; Explains(f.calls, f.result.value, f.req, cfg))
            && (StreamStep(x.job, LogBuffer.Cancel(x.sub)) !in acts[..n] ==>
                  && w.jobs[x.job].log.buffer.closed && w.jobs[x.job].result.Some?
                  && w.jobs[x.job].log.subs[x.sub].received == w.jobs[x.job].log.buffer.lines)
  {
    InvRun(tr, acts, cfg, n);
    assert Moves(tr[n], acts[n], tr[n + 1], cfg);
    var w, x := tr[n], tr[n].handlers[h];
    assert HandlerOk(w, x);
    if x.stage.found.Some? {
      var k := x.stage.found.value;
      assert JobOk(w.jobs[k], cfg);
      if w.jobs[k].done {
        DoneIsExplained(w.jobs[k], cfg);
      }
    }
    if StreamStep(x.job, LogBuffer.Cancel(x.sub)) !in acts[..n] {
      StreamDelivered(tr, acts, cfg, n, h);
    }
  }

  /** A submitted job with one log stream open, before its first runtime call. */
  lemma StreamedJob(cfg: Config) returns (tr: seq<World>, acts: seq<Action>)
    ensures Behavior(tr, acts, cfg) && forall k, i :: StreamStep(k, LogBuffer.Cancel(i)) !in acts
    ensures var j := Proceed(NewJob("a", Request("i", [], None)));
            tr[|acts|] == World([j.(log := ONE_SUBSCRIBER)], [Handler("a", 0, 0, Streaming)])
  {
    var submit := Submit("a", Request("i", [], None));
    var j0 := NewJob("a", Request("i", [], None));
    tr, acts := [START], [];
    Extend(tr, acts, cfg, submit);
    var w1 := World([j0], []);
    assert Next(START, submit, cfg) == w1;
    tr, acts := tr + [w1], acts + [submit];

    Extend(tr, acts, cfg, Advance(0));
    var j1 := Proceed(j0);
    var w2 := World([j1], []);
    assert Next(w1, Advance(0), cfg) == w2;
    tr, acts := tr + [w2], acts + [Advance(0)];

    tr, acts := AttachStream(tr, acts, cfg);
  }

  lemma UnwindThree(tr: seq<World>, acts: seq<Action>, cfg: Config) returns (tr': seq<World>, acts': seq<Action>)
    requires Behavior(tr, acts, cfg) && |tr[|acts|].jobs| == 1
    requires var j := tr[|acts|].jobs[0]; j.at == Returning && j.defers == BASE && !j.log.buffer.closed
    requires forall k, i :: StreamStep(k, LogBuffer.Cancel(i)) !in acts
    ensures Behavior(tr', acts', cfg) && forall k, i :: StreamStep(k, LogBuffer.Cancel(i)) !in acts'
    ensures var j := tr[|acts|].jobs[0];
            tr'[|acts'|] == World([j.(defers := [CloseDone], cancelled := true,
                                       log := LogBuffer.Next(j.log, LogBuffer.Close))], tr[|acts|].handlers)
  {
    var hs, j := tr[|acts|].handlers, tr[|acts|].jobs[0];
    var a := Advance(0);
    var w1 := World([j.(defers := BASE[..3])], hs);
    assert Next(tr[|acts|], a, cfg) == w1;
    Extend(tr, acts, cfg, a);
    tr', acts' := tr + [w1], acts + [a];
    var w2 := World([j.(defers := BASE[..2], cancelled := true)], hs);
    assert BASE[..3][..2] == BASE[..2] && BASE[..2][..1] == [CloseDone];
    assert Next(w1, a, cfg) == w2;
    Extend(tr', acts', cfg, a);
    tr', acts' := tr' + [w2], acts' + [a];
    var w3 := World([j.(defers := [CloseDone], cancelled := true, log := LogBuffer.Next(j.log, LogBuffer.Close))], hs);
    assert Next(w2, a, cfg) == w3;
    Extend(tr', acts', cfg, a);
    tr', acts' := tr' + [w3], acts' + [a];
  }

  /** A job that fails at its first runtime call, up to the point where its log is closed and
      its Done channel is not, with one log stream open. */
  lemma FailingJob(cfg: Config) returns (tr: seq<World>, acts: seq<Action>)
    ensures Behavior(tr, acts, cfg) && forall k, i :: StreamStep(k, LogBuffer.Cancel(i)) !in acts
    ensures var w := tr[|acts|];
            && |w.jobs| == 1 && w.jobs[0].id == "a" && w.jobs[0].at == Returning && w.jobs[0].defers == [CloseDone]
            && w.jobs[0].log == LogBuffer.State(LogBuffer.Buffer([], true, false), [LogBuffer.NEW_SUBSCRIBER])
            && w.handlers == [Handler("a", 0, 0, Streaming)] && !w.jobs[0].done
  {
    tr, acts := StreamedJob(cfg);
    var w, c := tr[|acts|], ImageExists("i", false, Some("down"));
    Extend(tr, acts, cfg, RuntimeCall(0, c));
    var j := AfterCall(w.jobs[0], c, cfg);
    assert j.at == Returning && j.defers == BASE && j.log == w.jobs[0].log && !j.done && j.id == "a";
    var w' := World([j], w.handlers);
    assert Next(w, RuntimeCall(0, c), cfg) == w';
    tr, acts := tr + [w'], acts + [RuntimeCall(0, c)];
    tr, acts := UnwindThree(tr, acts, cfg);
  }

  const CLOSED_EMPTY := LogBuffer.Buffer([], true, false)

  /** The subscriber finds the log closed and empty. */
  lemma SubscriberEnds(tr: seq<World>, acts: seq<Action>, cfg: Config) returns (tr': seq<World>, acts': seq<Action>)
    requires Behavior(tr, acts, cfg) && |tr[|acts|].jobs| == 1
    requires tr[|acts|].jobs[0].log == LogBuffer.State(CLOSED_EMPTY, [LogBuffer.NEW_SUBSCRIBER])
    requires forall k, i :: StreamStep(k, LogBuffer.Cancel(i)) !in acts
    ensures Behavior(tr', acts', cfg) && forall k, i :: StreamStep(k, LogBuffer.Cancel(i)) !in acts'
    ensures var ended := LogBuffer.NEW_SUBSCRIBER.(phase := LogBuffer.Ended(false));
            tr'[|acts'|] == tr[|acts|].(jobs := [tr[|acts|].jobs[0].(log := LogBuffer.State(CLOSED_EMPTY, [ended]))])
  {
    var w0, sub, b := tr[|acts|], LogBuffer.NEW_SUBSCRIBER, LogBuffer.Step(0, false);
    var j, a := w0.jobs[0], StreamStep(0, b);
    var sending, ended := sub.(phase := LogBuffer.Sending([], 0, true)), sub.(phase := LogBuffer.Ended(false));
    assert LogBuffer.StepSubscriber(CLOSED_EMPTY, sub, false) == sending;
    var w1 := w0.(jobs := [j.(log := LogBuffer.State(CLOSED_EMPTY, [sending]))]);
    assert LogBuffer.Next(j.log, b) == w1.jobs[0].log;
    assert Next(w0, a, cfg) == w1;
    Extend(tr, acts, cfg, a);
    tr', acts' := tr + [w1], acts + [a];
    assert LogBuffer.StepSubscriber(CLOSED_EMPTY, sending, false) == ended;
    var w2 := w0.(jobs := [j.(log := LogBuffer.State(CLOSED_EMPTY, [ended]))]);
    assert LogBuffer.Next(w1.jobs[0].log, b) == w2.jobs[0].log;
    assert Next(w1, a, cfg) == w2;
    Extend(tr', acts', cfg, a);
    tr', acts' := tr' + [w2], acts' + [a];
  }

  lemma HandlerEnds(tr: seq<World>, acts: seq<Action>, cfg: Config) returns (tr': seq<World>, acts': seq<Action>)
    requires Behavior(tr, acts, cfg) && |tr[|acts|].jobs| == 1 && !tr[|acts|].jobs[0].done
    requires tr[|acts|].handlers == [Handler("a", 0, 0, Streaming)] && tr[|acts|].jobs[0].id == "a"
    requires Drained(tr[|acts|], tr[|acts|].handlers[0])
    requires forall k, i :: StreamStep(k, LogBuffer.Cancel(i)) !in acts
    ensures Behavior(tr', acts', cfg) && forall k, i :: StreamStep(k, LogBuffer.Cancel(i)) !in acts'
    ensures tr'[|acts'|] == World(tr[|acts|].jobs, [Handler("a", 0, 0, Sent(UNKNOWN))])
  {
    var w0 := tr[|acts|];
    var w1 := World(w0.jobs, [Handler("a", 0, 0, LookedUp(Some(0)))]);
    assert Next(w0, EndLookup(0), cfg) == w1;
    Extend(tr, acts, cfg, EndLookup(0));
    tr', acts' := tr + [w1], acts + [EndLookup(0)];
    var w2 := World(w0.jobs, [Handler("a", 0, 0, Sent(UNKNOWN))]);
    assert Next(w1, EndSend(0), cfg) == w2;
    Extend(tr', acts', cfg, EndSend(0));
    tr', acts' := tr' + [w2], acts' + [EndSend(0)];
  }

  /** MAIN RESULT.  A client that never cancels can be told "unknown" about the one and only
      job there ever was, after receiving its whole log, because the log is closed before
      Done is. */
  lemma UnknownIsReachable(cfg: Config) returns (tr: seq<World>, acts: seq<Action>)
    ensures Behavior(tr, acts, cfg) && forall k, i :: StreamStep(k, LogBuffer.Cancel(i)) !in acts
    ensures |tr[|acts|].jobs| == 1 && tr[|acts|].jobs[0].result.Some?
    ensures tr[|acts|].handlers == [Handler("a", 0, 0, Sent(UNKNOWN))]
    ensures |tr[|acts|].jobs[0].log.subs| == 1
    ensures tr[|acts|].jobs[0].log.subs[0].phase == LogBuffer.Ended(false)
  {
    tr, acts := FailingJob(cfg);
    tr, acts := SubscriberEnds(tr, acts, cfg);
    tr, acts := HandlerEnds(tr, acts, cfg);
    InvRun(tr, acts, cfg, |acts|);
    assert JobOk(tr[|acts|].jobs[0], cfg);
  }
}
