/** The executor, its concurrent callers and the log streams of its clients
    (pkg/executor/executor.go, and handleStreamLogs and buildEndEvent of
    pkg/api/handlers.go), as one transition system. */
module Executor {
  import opened Options
  import opened JobLifecycle
  import LogBuffer

  // ---------------------------------------------------------------- state

  /** The end-of-stream event. */
  datatype EndEvent = EndEvent(status: string, exitCode: Option<int>)

  const UNKNOWN := EndEvent("unknown", None)

  datatype HandlerStage =
    | Opening                        // between the two halves of StreamLogs
    | Streaming
    | LookedUp(found: Option<nat>)   // between the two halves of GetResult
    | Sent(event: EndEvent)

  /** A log stream request: the identifier asked for, and the job and subscription it got. */
  datatype Handler = Handler(id: string, job: nat, sub: nat, stage: HandlerStage)

  /** `jobs` are all jobs ever accepted; `e.current` is the last of them. */
  datatype World = World(jobs: seq<Job>, handlers: seq<Handler>)

  const START := World([], [])

  // ---------------------------------------------------------------- what callers see

  function Current(w: World): Option<Job> {
    if w.jobs == [] then None else Some(w.jobs[|w.jobs| - 1])
  }

  predicate IsReady(w: World) {
    Current(w).Some? ==> Current(w).value.done
  }

  /** GetResult and StreamLogs read the current job under the mutex. */
  function Lookup(w: World, id: string): Option<nat> {
    if Current(w).Some? && Current(w).value.id == id then Some(|w.jobs| - 1) else None
  }

  /** GetResult then looks at the job it got, without the mutex. */
  function Outcome(w: World, found: Option<nat>): Option<Result>
    requires found.Some? ==> found.value < |w.jobs|
  {
    if found.Some? && w.jobs[found.value].done then w.jobs[found.value].result else None
  }

  function EventOf(r: Option<Result>): EndEvent {
    if r.None? then UNKNOWN else EndEvent(r.value.status, r.value.exitCode)
  }

  // ---------------------------------------------------------------- steps

  datatype Action =
    | Submit(id: string, req: Request)     // by any caller, with a freshly drawn identifier
    | RuntimeCall(k: nat, call: Call)      // the runtime answers the goroutine of job k
    | Advance(k: nat)                      // that goroutine moves without the runtime
    | Fetch(k: nat, stdout: string, stderr: string, failed: bool)
    | WriteLog(k: nat)                     // the streaming goroutine of job k
    | OpenStream(id: string)               // GET /jobs/{id}/logs finds its job
    | Attach(h: nat)                       // and subscribes to its log
    | StreamStep(k: nat, a: LogBuffer.Action)
    | EndLookup(h: nat)
    | EndSend(h: nat)

  /** A step of a subscriber, of its consumer, or of the cancellation of its request. */
  predicate OfSubscriber(a: LogBuffer.Action) {
    a.Step? || a.Receive? || a.Cancel?
  }

  /** The handler's loop over its channel is over. */
  predicate Drained(w: World, h: Handler) {
    && h.job < |w.jobs| && h.sub < |w.jobs[h.job].log.subs|
    && var s := w.jobs[h.job].log.subs[h.sub]; s.phase.Ended? && s.queue == []
  }

  predicate Enabled(w: World, a: Action) {
    match a
    case Submit(_, _) => true
    case RuntimeCall(k, call) => k < |w.jobs| && CanCall(w.jobs[k], call)
    case Advance(k) => k < |w.jobs| && CanProceed(w.jobs[k])
    case Fetch(k, _, _, _) => k < |w.jobs| && w.jobs[k].streamer == Fetching
    case WriteLog(k) => k < |w.jobs| && CanWrite(w.jobs[k])
    case OpenStream(_) => true
    case Attach(h) => h < |w.handlers| && w.handlers[h].stage.Opening? && w.handlers[h].job < |w.jobs|
    case StreamStep(k, a) => k < |w.jobs| && OfSubscriber(a) && LogBuffer.Enabled(w.jobs[k].log, a)
    case EndLookup(h) => h < |w.handlers| && w.handlers[h].stage.Streaming? && Drained(w, w.handlers[h])
    case EndSend(h) =>
      && h < |w.handlers| && w.handlers[h].stage.LookedUp?
      && (w.handlers[h].stage.found.Some? ==> w.handlers[h].stage.found.value < |w.jobs|)
  }

  function WithJob(w: World, k: nat, j: Job): World
    requires k < |w.jobs|
  {
    w.(jobs := w.jobs[k := j])
  }

  function Next(w: World, a: Action, cfg: Config): World
    requires Enabled(w, a)
  {
    match a
    case Submit(id, req) => if IsReady(w) then w.(jobs := w.jobs + [NewJob(id, req)]) else w
    case RuntimeCall(k, call) => WithJob(w, k, AfterCall(w.jobs[k], call, cfg))
    case Advance(k) => WithJob(w, k, Proceed(w.jobs[k]))
    case Fetch(k, stdout, stderr, failed) => WithJob(w, k, AfterFetch(w.jobs[k], stdout, stderr, failed))
    case WriteLog(k) => WithJob(w, k, AfterWrite(w.jobs[k]))
    case OpenStream(id) =>
      if Lookup(w, id).None? then w
      else w.(handlers := w.handlers + [Handler(id, Lookup(w, id).value, 0, Opening)])
    case Attach(h) =>
      var x := w.handlers[h];
      var j := w.jobs[x.job];
      WithJob(w, x.job, j.(log := LogBuffer.Next(j.log, LogBuffer.Subscribe)))
        .(handlers := w.handlers[h := x.(sub := |j.log.subs|, stage := Streaming)])
    case StreamStep(k, a) => WithJob(w, k, w.jobs[k].(log := LogBuffer.Next(w.jobs[k].log, a)))
    case EndLookup(h) =>
      var x := w.handlers[h];
      w.(handlers := w.handlers[h := x.(stage := LookedUp(Lookup(w, x.id)))])
    case EndSend(h) =>
      var x := w.handlers[h];
      w.(handlers := w.handlers[h := x.(stage := Sent(EventOf(Outcome(w, x.stage.found))))])
  }

  ghost predicate Moves(w: World, a: Action, w': World, cfg: Config) {
    Enabled(w, a) && w' == Next(w, a, cfg)
  }

  ghost predicate Behavior(tr: seq<World>, acts: seq<Action>, cfg: Config) {
    && |tr| == |acts| + 1 && tr[0] == START
    && forall n | 0 <= n < |acts| :: Moves(tr[n], acts[n], tr[n + 1], cfg)
  }

  // ---------------------------------------------------------------- invariant

  ghost predicate JobOk(j: Job, cfg: Config) {
    exists s :: JobInv(j, cfg, s)
  }

  ghost predicate Reports(w: World, x: Handler, k: int)
    requires x.stage.Sent?
  {
    && x.job <= k < |w.jobs| && w.jobs[k].id == x.id && w.jobs[k].done && w.jobs[k].result.Some?
    && x.stage.event == EventOf(w.jobs[k].result)
  }

  /** The event tells the result of a finished job with the identifier asked for. */
  ghost predicate ReportsDone(w: World, x: Handler)
    requires x.stage.Sent?
  {
    exists k :: Reports(w, x, k)
  }

  ghost predicate HandlerOk(w: World, x: Handler) {
    && x.job < |w.jobs| && w.jobs[x.job].id == x.id
    && (!x.stage.Opening? ==> x.sub < |w.jobs[x.job].log.subs|)
    && (x.stage.LookedUp? || x.stage.Sent? ==> Drained(w, x))
    && (x.stage.LookedUp? && x.stage.found.Some? ==>
          x.job <= x.stage.found.value < |w.jobs| && w.jobs[x.stage.found.value].id == x.id)
    && (x.stage == LookedUp(None) ==> x.job < |w.jobs| - 1)
    && (x.stage.Sent? && x.stage.event != UNKNOWN ==> ReportsDone(w, x))
  }

  /** No two streams share a subscription. */
  ghost predicate SubscriptionsDiffer(w: World) {
    forall h, i | 0 <= h < i < |w.handlers| && !w.handlers[h].stage.Opening? && !w.handlers[i].stage.Opening? ::
      w.handlers[h].job == w.handlers[i].job ==> w.handlers[h].sub != w.handlers[i].sub
  }

  ghost predicate WorldInv(w: World, cfg: Config) {
    && (forall k | 0 <= k < |w.jobs| :: JobOk(w.jobs[k], cfg))
    && (forall k | 0 <= k < |w.jobs| - 1 :: w.jobs[k].done)
    && (forall h | 0 <= h < |w.handlers| :: HandlerOk(w, w.handlers[h]))
    && SubscriptionsDiffer(w)
  }

  // ---------------------------------------------------------------- how a job may change

  /** Between any two moments of a run: identity is fixed, a published result stays, and a
      subscription that is over stays as it is. */
  ghost predicate Grows(j: Job, j': Job) {
    && j'.id == j.id && j'.req == j.req
    && (j.done ==> j'.done && j'.result == j.result && j'.calls == j.calls)
    && (j.log.buffer.closed ==> j'.log.buffer.closed && j'.log.buffer.lines == j.log.buffer.lines)
    && j.log.buffer.lines <= j'.log.buffer.lines
    && |j.log.subs| <= |j'.log.subs|
    && forall i | 0 <= i < |j.log.subs| && j.log.subs[i].phase.Ended? && j.log.subs[i].queue == [] ::
         && j'.log.subs[i].phase == j.log.subs[i].phase && j'.log.subs[i].queue == []
         && j'.log.subs[i].received == j.log.subs[i].received
  }

  ghost predicate WorldGrows(w: World, w': World) {
    && |w.jobs| <= |w'.jobs| && |w.handlers| <= |w'.handlers|
    && forall k | 0 <= k < |w.jobs| :: Grows(w.jobs[k], w'.jobs[k])
  }

  lemma LogGrows(j: Job, a: LogBuffer.Action)
    requires LogBuffer.Enabled(j.log, a) && LogBuffer.Inv(j.log)
    ensures Grows(j, j.(log := LogBuffer.Next(j.log, a)))
  {
  }

  lemma CallGrows(j: Job, c: Call, cfg: Config, s: Script)
    requires JobInv(j, cfg, s) && CanCall(j, c)
    ensures Grows(j, AfterCall(j, c, cfg)) && AfterCall(j, c, cfg).log == j.log
  {
  }

  lemma ProceedGrows(j: Job, cfg: Config, s: Script)
    requires JobInv(j, cfg, s) && CanProceed(j)
    ensures Grows(j, Proceed(j))
  {
    if j.at == Returning && j.Top() == CloseLog {
      LogGrows(j, LogBuffer.Close);
    }
  }

  lemma WriteGrows(j: Job, cfg: Config, s: Script)
    requires JobInv(j, cfg, s) && CanWrite(j)
    ensures Grows(j, AfterWrite(j))
  {
  }

  /** What an action does to job k. */
  ghost predicate JobMoves(j: Job, j': Job, a: Action, k: nat, cfg: Config) {
    match a
    case RuntimeCall(i, c) => if i == k then CanCall(j, c) && j' == AfterCall(j, c, cfg) else j' == j
    case Advance(i) => if i == k then CanProceed(j) && j' == Proceed(j) else j' == j
    case Fetch(i, stdout, stderr, failed) =>
      if i == k then j.streamer == Fetching && j' == AfterFetch(j, stdout, stderr, failed) else j' == j
    case WriteLog(i) => if i == k then CanWrite(j) && j' == AfterWrite(j) else j' == j
    case Attach(_) => j' == j || j' == j.(log := LogBuffer.Next(j.log, LogBuffer.Subscribe))
    case StreamStep(i, b) =>
      if i == k then OfSubscriber(b) && LogBuffer.Enabled(j.log, b) && j' == j.(log := LogBuffer.Next(j.log, b))
      else j' == j
    case _ => j' == j
  }

  lemma NextMoves(w: World, a: Action, cfg: Config, k: nat)
    requires Enabled(w, a) && k < |w.jobs|
    ensures k < |Next(w, a, cfg).jobs|
    ensures JobMoves(w.jobs[k], Next(w, a, cfg).jobs[k], a, k, cfg)
  {
  }

  lemma RuntimeMoveOk(j: Job, j': Job, a: Action, k: nat, cfg: Config, s: Script)
    requires JobInv(j, cfg, s) && JobMoves(j, j', a, k, cfg) && (a.RuntimeCall? || a.Advance?)
    ensures JobOk(j', cfg) && Grows(j, j')
  {
    if a.RuntimeCall? && a.k == k {
      CallKeepsInv(j, a.call, cfg, s);
      CallGrows(j, a.call, cfg, s);
    } else if a.Advance? && a.k == k {
      ProceedKeepsInv(j, cfg, s);
      ProceedGrows(j, cfg, s);
    }
  }

  lemma StreamMoveOk(j: Job, j': Job, a: Action, k: nat, cfg: Config, s: Script)
    requires JobInv(j, cfg, s) && JobMoves(j, j', a, k, cfg) && (a.Attach? || a.StreamStep?)
    ensures JobOk(j', cfg) && Grows(j, j')
  {
    if j' != j {
      var b := if a.Attach? then LogBuffer.Subscribe else a.a;
      LogBuffer.InvNext(j.log, b);
      LogGrows(j, b);
      OthersKeepInv(j, j'.log, j.streamer, cfg, s);
    }
  }

  lemma MoveOk(j: Job, j': Job, a: Action, k: nat, cfg: Config)
    requires JobOk(j, cfg) && JobMoves(j, j', a, k, cfg)
    ensures JobOk(j', cfg) && Grows(j, j')
  {
    var s :| JobInv(j, cfg, s);
    if a.RuntimeCall? || a.Advance? {
      RuntimeMoveOk(j, j', a, k, cfg, s);
    } else if a.Attach? || a.StreamStep? {
      StreamMoveOk(j, j', a, k, cfg, s);
    } else if a.Fetch? && a.k == k {
      FetchKeepsInv(j, a.stdout, a.stderr, a.failed, cfg, s);
    } else if a.WriteLog? && a.k == k {
      WriteKeepsInv(j, cfg, s);
      WriteGrows(j, cfg, s);
    }
  }

  /** One step of job k: it stays well-formed, and it grows. */
  lemma JobNext(w: World, a: Action, cfg: Config, k: nat)
    requires WorldInv(w, cfg) && Enabled(w, a) && k < |w.jobs|
    ensures k < |Next(w, a, cfg).jobs|
    ensures JobOk(Next(w, a, cfg).jobs[k], cfg) && Grows(w.jobs[k], Next(w, a, cfg).jobs[k])
  {
    NextMoves(w, a, cfg, k);
    MoveOk(w.jobs[k], Next(w, a, cfg).jobs[k], a, k, cfg);
  }

  lemma WorldGrowsNext(w: World, a: Action, cfg: Config)
    requires WorldInv(w, cfg) && Enabled(w, a)
    ensures WorldGrows(w, Next(w, a, cfg))
  {
    forall k | 0 <= k < |w.jobs| ensures Grows(w.jobs[k], Next(w, a, cfg).jobs[k]) {
      JobNext(w, a, cfg, k);
    }
  }

  lemma HandlerStays(w: World, w': World, x: Handler)
    requires HandlerOk(w, x) && WorldGrows(w, w')
    ensures HandlerOk(w', x)
  {
    assert Grows(w.jobs[x.job], w'.jobs[x.job]);
    if x.stage.Sent? && x.stage.event != UNKNOWN {
      var k :| Reports(w, x, k);
      assert Grows(w.jobs[k], w'.jobs[k]);
      assert Reports(w', x, k);
    }
  }

  lemma OpenedOk(w: World, id: string, cfg: Config)
    requires WorldInv(w, cfg) && Lookup(w, id).Some?
    ensures var w' := Next(w, OpenStream(id), cfg);
            |w'.handlers| == |w.handlers| + 1 && HandlerOk(w', w'.handlers[|w.handlers|])
  {
  }

  lemma AttachedOk(w: World, h: nat, cfg: Config)
    requires WorldInv(w, cfg) && Enabled(w, Attach(h))
    ensures HandlerOk(Next(w, Attach(h), cfg), Next(w, Attach(h), cfg).handlers[h])
  {
    assert HandlerOk(w, w.handlers[h]);
  }

  lemma LookupFinds(w: World, x: Handler)
    requires HandlerOk(w, x)
    ensures var found := Lookup(w, x.id);
            if found.Some? then x.job <= found.value < |w.jobs| && w.jobs[found.value].id == x.id
            else x.job < |w.jobs| - 1
  {
  }

  lemma LookedUpOk(w: World, h: nat, cfg: Config)
    requires WorldInv(w, cfg) && Enabled(w, EndLookup(h))
    ensures HandlerOk(Next(w, EndLookup(h), cfg), Next(w, EndLookup(h), cfg).handlers[h])
  {
    assert HandlerOk(w, w.handlers[h]);
    LookupFinds(w, w.handlers[h]);
  }

  lemma SentOk(w: World, h: nat, cfg: Config)
    requires WorldInv(w, cfg) && Enabled(w, EndSend(h))
    ensures HandlerOk(Next(w, EndSend(h), cfg), Next(w, EndSend(h), cfg).handlers[h])
  {
    var x, w' := w.handlers[h], Next(w, EndSend(h), cfg);
    assert HandlerOk(w, x);
    if w'.handlers[h].stage.event != UNKNOWN {
      assert Reports(w', w'.handlers[h], x.stage.found.value);
    }
  }

  lemma HandlerNext(w: World, a: Action, cfg: Config, h: nat)
    requires WorldInv(w, cfg) && Enabled(w, a) && h < |Next(w, a, cfg).handlers|
    ensures HandlerOk(Next(w, a, cfg), Next(w, a, cfg).handlers[h])
  {
    if h >= |w.handlers| {
      OpenedOk(w, a.id, cfg);
    } else if a == Attach(h) {
      AttachedOk(w, h, cfg);
    } else if a == EndLookup(h) {
      LookedUpOk(w, h, cfg);
    } else if a == EndSend(h) {
      SentOk(w, h, cfg);
    } else {
      assert HandlerOk(w, w.handlers[h]);
      WorldGrowsNext(w, a, cfg);
      HandlerStays(w, Next(w, a, cfg), w.handlers[h]);
    }
  }

  /** A request attaches to a subscription that did not exist before and has not begun. */
  lemma AttachIsFresh(w: World, h: nat, cfg: Config)
    requires WorldInv(w, cfg) && Enabled(w, Attach(h))
    ensures var w', x := Next(w, Attach(h), cfg), Next(w, Attach(h), cfg).handlers[h];
            && x.job == w.handlers[h].job < |w.jobs| == |w'.jobs|
            && w'.jobs[x.job].log.subs == w.jobs[x.job].log.subs + [LogBuffer.NEW_SUBSCRIBER]
            && x.sub == |w.jobs[x.job].log.subs|
            && forall i | 0 <= i < |w.handlers| && i != h :: w'.handlers[i] == w.handlers[i]
  {
  }

  /** Apart from attaching, no action changes which subscription a stream has. */
  lemma StreamKeeps(w: World, a: Action, cfg: Config, h: nat)
    requires Enabled(w, a) && a != Attach(h) && h < |w.handlers|
    ensures h < |Next(w, a, cfg).handlers|
    ensures var x, x' := w.handlers[h], Next(w, a, cfg).handlers[h];
            x'.job == x.job && x'.sub == x.sub && (x'.stage.Opening? <==> x.stage.Opening?)
  {
  }

  lemma SubscriptionsNext(w: World, a: Action, cfg: Config)
    requires WorldInv(w, cfg) && Enabled(w, a)
    ensures SubscriptionsDiffer(Next(w, a, cfg))
  {
    var w' := Next(w, a, cfg);
    forall h, i | 0 <= h < i < |w'.handlers| && !w'.handlers[h].stage.Opening? && !w'.handlers[i].stage.Opening?
      ensures w'.handlers[h].job == w'.handlers[i].job ==> w'.handlers[h].sub != w'.handlers[i].sub
    {
      assert i < |w.handlers|;
      if a == Attach(h) {
        AttachIsFresh(w, h, cfg);
        assert HandlerOk(w, w.handlers[i]);
      } else if a == Attach(i) {
        AttachIsFresh(w, i, cfg);
        assert HandlerOk(w, w.handlers[h]);
      } else {
        StreamKeeps(w, a, cfg, h);
        StreamKeeps(w, a, cfg, i);
      }
    }
  }

  lemma NewJobOk(id: string, req: Request, cfg: Config)
    ensures JobOk(NewJob(id, req), cfg)
  {
    assert JobInv(NewJob(id, req), cfg, SomeScript(req.image));
  }

  lemma JobsNext(w: World, a: Action, cfg: Config, k: nat)
    requires WorldInv(w, cfg) && Enabled(w, a) && k < |Next(w, a, cfg).jobs|
    ensures JobOk(Next(w, a, cfg).jobs[k], cfg)
    ensures k < |Next(w, a, cfg).jobs| - 1 ==> Next(w, a, cfg).jobs[k].done
  {
    if k < |w.jobs| {
      JobNext(w, a, cfg, k);
    } else {
      NewJobOk(a.id, a.req, cfg);
    }
  }

  lemma InvNext(w: World, a: Action, cfg: Config)
    requires WorldInv(w, cfg) && Enabled(w, a)
    ensures WorldInv(Next(w, a, cfg), cfg)
    ensures WorldGrows(w, Next(w, a, cfg))
  {
    WorldGrowsNext(w, a, cfg);
    SubscriptionsNext(w, a, cfg);
    forall k | 0 <= k < |Next(w, a, cfg).jobs|
      ensures JobOk(Next(w, a, cfg).jobs[k], cfg)
      ensures k < |Next(w, a, cfg).jobs| - 1 ==> Next(w, a, cfg).jobs[k].done
    {
      JobsNext(w, a, cfg, k);
    }
    forall h | 0 <= h < |Next(w, a, cfg).handlers|
      ensures HandlerOk(Next(w, a, cfg), Next(w, a, cfg).handlers[h])
    {
      HandlerNext(w, a, cfg, h);
    }
  }

  lemma {:induction false} InvRun(tr: seq<World>, acts: seq<Action>, cfg: Config, n: nat)
    requires Behavior(tr, acts, cfg) && n < |tr|
    ensures WorldInv(tr[n], cfg)
  {
    if n > 0 {
      InvRun(tr, acts, cfg, n - 1);
      assert Moves(tr[n - 1], acts[n - 1], tr[n], cfg);
      InvNext(tr[n - 1], acts[n - 1], cfg);
    }
  }

  lemma GrowsTransitive(a: Job, b: Job, c: Job)
    requires Grows(a, b) && Grows(b, c)
    ensures Grows(a, c)
  {
  }

  lemma WorldGrowsTransitive(a: World, b: World, c: World)
    requires WorldGrows(a, b) && WorldGrows(b, c)
    ensures WorldGrows(a, c)
  {
    forall k | 0 <= k < |a.jobs| ensures Grows(a.jobs[k], c.jobs[k]) {
      GrowsTransitive(a.jobs[k], b.jobs[k], c.jobs[k]);
    }
  }

  lemma RunMoves(tr: seq<World>, acts: seq<Action>, cfg: Config, n: nat, k: nat)
    requires Behavior(tr, acts, cfg) && n < |acts| && k < |tr[n + 1].jobs|
    ensures k < |tr[n].jobs| ==> JobMoves(tr[n].jobs[k], tr[n + 1].jobs[k], acts[n], k, cfg)
    ensures k >= |tr[n].jobs| ==> acts[n].Submit? && tr[n + 1].jobs[k] == NewJob(acts[n].id, acts[n].req)
  {
    assert Moves(tr[n], acts[n], tr[n + 1], cfg);
    if k < |tr[n].jobs| {
      NextMoves(tr[n], acts[n], cfg, k);
    }
  }

  lemma WorldGrowsSelf(w: World)
    ensures WorldGrows(w, w)
  {
  }

  lemma StepGrows(tr: seq<World>, acts: seq<Action>, cfg: Config, n: nat)
    requires Behavior(tr, acts, cfg) && n < |acts|
    ensures WorldGrows(tr[n], tr[n + 1])
  {
    assert Moves(tr[n], acts[n], tr[n + 1], cfg);
    InvRun(tr, acts, cfg, n);
    InvNext(tr[n], acts[n], cfg);
  }

  lemma {:induction false} GrowsRun(tr: seq<World>, acts: seq<Action>, cfg: Config, m: nat, n: nat)
    requires Behavior(tr, acts, cfg) && m <= n < |tr|
    ensures WorldGrows(tr[m], tr[n])
    decreases n - m
  {
    if m == n {
      WorldGrowsSelf(tr[m]);
    } else {
      GrowsRun(tr, acts, cfg, m, n - 1);
      StepGrows(tr, acts, cfg, n - 1);
      WorldGrowsTransitive(tr[m], tr[n - 1], tr[n]);
    }
  }
}
