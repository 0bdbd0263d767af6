/** How long a job can hold the worker (the contexts of executeJob, and EffectiveTimeout in
    pkg/executor/config_builder.go).  Times are in nanoseconds, as in time.Duration; only
    the runtime calls take time. */
module Occupancy {
  import opened Options
  import opened JobLifecycle
  import opened JobTraces

  const SECOND := 1_000_000_000
  const TWO63 := 0x8000_0000_0000_0000
  const GRACEFUL_SHUTDOWN := 10 * SECOND

  function Max(a: int, b: int): int {
    if a >= b then a else b
  }

  function Min(a: int, b: int): int {
    if a <= b then a else b
  }

  // ---------------------------------------------------------------- the job timeout

  /** An int64 after overflow. */
  function Wrap64(x: int): (w: int)
    ensures -TWO63 <= w < TWO63
    ensures -TWO63 <= x < TWO63 ==> w == x
  {
    (x + TWO63) % (2 * TWO63) - TWO63
  }

  predicate IsInt64(x: int) {
    -TWO63 <= x < TWO63
  }

  /** The default, or the requested time up to the maximum; when the product overflows, what
      is left of it modulo 2^64 takes its place. */
  function EffectiveTimeout(req: Request, cfg: Config): (t: int)
    ensures req.timeoutSeconds.None? ==> t == cfg.defaultTimeout
    ensures req.timeoutSeconds.Some? ==> t <= cfg.maxTimeout
    ensures req.timeoutSeconds.Some? && IsInt64(req.timeoutSeconds.value * SECOND) ==>
              t == Min(req.timeoutSeconds.value * SECOND, cfg.maxTimeout)
    ensures req.timeoutSeconds.Some? && t != cfg.maxTimeout ==>
              IsInt64(t) && (t - req.timeoutSeconds.value * SECOND) % (2 * TWO63) == 0
  {
    if req.timeoutSeconds.None? then cfg.defaultTimeout
    else
      var requested := Wrap64(req.timeoutSeconds.value * SECOND);
      if requested > cfg.maxTimeout then cfg.maxTimeout else requested
  }

  /** A requested time is what one gets, up to the maximum, unless the multiplication
      overflows; the validator lets only 1 to 3600 seconds through. */
  lemma RequestedTimeout(req: Request, cfg: Config)
    requires req.timeoutSeconds.Some? && -9_223_372_036 <= req.timeoutSeconds.value <= 9_223_372_036
    ensures EffectiveTimeout(req, cfg) == Min(req.timeoutSeconds.value * SECOND, cfg.maxTimeout)
  {
  }

  /** MAIN RESULT.  Exactly when a request gets the smaller of what it asks for and the
      maximum: the product fits, or what overflow makes of it is large enough to be cut to
      the maximum anyway.  The validator turns away whatever does not fit, so such a request
      only reaches EffectiveTimeout from a caller of Submit that does not validate. */
  lemma ClampIsExactIff(req: Request, cfg: Config)
    requires req.timeoutSeconds.Some? && IsInt64(cfg.maxTimeout)
    ensures var x := req.timeoutSeconds.value * SECOND;
            EffectiveTimeout(req, cfg) == Min(x, cfg.maxTimeout) <==>
            -TWO63 <= x && (x < TWO63 || Wrap64(x) >= cfg.maxTimeout)
  {
  }

  /** An unvalidated request can come out with a negative timeout. */
  lemma OverflowExample(cfg: Config)
    requires cfg.maxTimeout == 3600 * SECOND
    ensures EffectiveTimeout(Request("", [], Some(9_223_372_037)), cfg) < 0
  {
  }

  // ---------------------------------------------------------------- timed traces

  /** `existsLimit` is the longest ImageExists may take, the one call without a deadline. */
  datatype Limits = Limits(existsLimit: nat, pullTimeout: int, timeout: int)

  function LimitsOf(req: Request, cfg: Config, existsLimit: nat): Limits {
    Limits(existsLimit, cfg.imagePullTimeout, EffectiveTimeout(req, cfg))
  }

  /** The latest a call begun at `begin` may return, the job having begun at 0: a context that
      has already expired makes a call return at once. */
  function Deadline(c: Call, begin: int, lim: Limits): int {
    match c
    case ImageExists(_, _, _) => begin + lim.existsLimit
    case PullImage(_, _, _) => Max(begin, begin + lim.pullTimeout)
    case CreateContainer(_, _, _) => Max(begin, lim.timeout)
    case StartContainer(_, _) => Max(begin, lim.timeout)
    case WaitContainer(_, _, _, _) => Max(begin, lim.timeout)
    case StopContainer(_, _) => begin + GRACEFUL_SHUTDOWN + 5 * SECOND
    case KillContainer(_, _) => begin + 5 * SECOND
    case GetLogs(_, _, _, _) => begin + 10 * SECOND
    case RemoveContainer(_, _) => begin + 30 * SECOND
  }

  function Begin(ends: seq<int>, k: nat): int
    requires k <= |ends|
  {
    if k == 0 then 0 else ends[k - 1]
  }

  /** A call that begins and ends at these times; a wait can only report an expired context
      once the timeout has passed. */
  predicate OnTime(c: Call, begin: int, end: int, lim: Limits) {
    && begin <= end <= Deadline(c, begin, lim)
    && (c.WaitContainer? && c.expired ==> end >= lim.timeout)
  }

  /** `ends[k]` is when call k returned. */
  ghost predicate Timed(calls: seq<Call>, ends: seq<int>, lim: Limits) {
    && |ends| == |calls|
    && forall k | 0 <= k < |calls| :: OnTime(calls[k], Begin(ends, k), ends[k], lim)
  }

  /** When everything but the clean-up must be over. */
  function Horizon(lim: Limits): int {
    Max(lim.timeout, lim.existsLimit + Max(0, lim.pullTimeout))
  }

  function StageLimit(stage: nat, lim: Limits): int {
    if stage == 0 then lim.existsLimit
    else if stage == 1 then lim.existsLimit + Max(0, lim.pullTimeout)
    else if stage <= 4 then Horizon(lim)
    else if stage == 5 then Horizon(lim) + 15 * SECOND
    else if stage == 6 then Horizon(lim) + 20 * SECOND
    else if stage == 7 then Horizon(lim) + 30 * SECOND
    else Horizon(lim) + 60 * SECOND
  }

  lemma NextInTime(c: Call, begin: int, stage: nat, lim: Limits)
    requires stage < Stage(c) && begin <= StageLimit(stage, lim)
    ensures Deadline(c, begin, lim) <= StageLimit(Stage(c), lim)
  {
  }

  lemma {:induction false} EndsInTime(calls: seq<Call>, ends: seq<int>, lim: Limits, k: nat)
    requires Ordered(calls) && Timed(calls, ends, lim) && k < |calls|
    ensures ends[k] <= StageLimit(Stage(calls[k]), lim)
  {
    if k > 0 {
      EndsInTime(calls, ends, lim, k - 1);
      assert Stage(calls[k - 1]) < Stage(calls[k]);
      NextInTime(calls[k], ends[k - 1], Stage(calls[k - 1]), lim);
    }
  }

  lemma LastEnds(calls: seq<Call>, ends: seq<int>, lim: Limits)
    requires calls != [] && Ordered(calls) && Timed(calls, ends, lim)
    ensures ends[|ends| - 1] <= Horizon(lim) + 60 * SECOND
  {
    EndsInTime(calls, ends, lim, |ends| - 1);
  }

  /** MAIN RESULT.  Whatever the runtime answers, if its calls return by their deadlines the
      worker is free again 60 s after the timeout, or after the longest image pull if that
      is later. */
  lemma OccupancyBound(s: Script, ends: seq<int>, req: Request, cfg: Config, existsLimit: nat)
    requires s.Proper() && Timed(Trace(s), ends, LimitsOf(req, cfg, existsLimit))
    ensures ends != []
    ensures ends[|ends| - 1]
         <= Max(EffectiveTimeout(req, cfg), existsLimit + Max(0, cfg.imagePullTimeout)) + 60 * SECOND
  {
    TraceIsOrdered(s);
    LastEnds(Trace(s), ends, LimitsOf(req, cfg, existsLimit));
  }

  /** How much longer than the horizon each call of the clean-up can take. */
  function Extra(c: Call): int {
    if c.StopContainer? then 15 * SECOND else if c.KillContainer? then 5 * SECOND
    else if c.GetLogs? then 10 * SECOND else if c.RemoveContainer? then 30 * SECOND else 0
  }

  function TotalExtra(calls: seq<Call>): int {
    if calls == [] then 0 else TotalExtra(calls[..|calls| - 1]) + Extra(calls[|calls| - 1])
  }

  lemma {:induction false} TotalExtraConcat(a: seq<Call>, b: seq<Call>)
    ensures TotalExtra(a + b) == TotalExtra(a) + TotalExtra(b)
  {
    if b == [] {
      assert a + b == a;
    } else {
      assert (a + b)[..|a + b| - 1] == a + b[..|b| - 1];
      TotalExtraConcat(a, b[..|b| - 1]);
    }
  }

  lemma {:induction false} NoExtra(calls: seq<Call>, k: nat)
    requires Ordered(calls) && k <= |calls| && (k > 0 ==> Stage(calls[k - 1]) <= 4)
    ensures TotalExtra(calls[..k]) == 0
  {
    if k > 0 {
      assert calls[..k][..k - 1] == calls[..k - 1];
      NoExtra(calls, k - 1);
    }
  }

  lemma CleanUpInTime(c: Call, begin: int, end: int, lim: Limits)
    requires Stage(c) > 4 && OnTime(c, begin, end, lim)
    ensures end <= begin + Extra(c)
  {
  }

  lemma EarlyStages(stage: nat, lim: Limits)
    requires stage <= 4
    ensures StageLimit(stage, lim) <= Horizon(lim)
  {
  }

  lemma BeforeCleanUp(calls: seq<Call>, ends: seq<int>, lim: Limits, k: nat)
    requires Ordered(calls) && Timed(calls, ends, lim) && k < |calls| && Stage(calls[k]) <= 4
    ensures ends[k] <= Horizon(lim) + TotalExtra(calls[..k + 1])
  {
    EndsInTime(calls, ends, lim, k);
    EarlyStages(Stage(calls[k]), lim);
    NoExtra(calls, k + 1);
  }

  lemma ExtraOfNext(calls: seq<Call>, k: nat)
    requires k < |calls|
    ensures TotalExtra(calls[..k + 1]) == TotalExtra(calls[..k]) + Extra(calls[k])
  {
    var upTo := calls[..k + 1];
    assert upTo[..|upTo| - 1] == calls[..k] && upTo[|upTo| - 1] == calls[k];
  }

  lemma {:induction false} EndsByCalls(calls: seq<Call>, ends: seq<int>, lim: Limits, k: nat)
    requires Ordered(calls) && Timed(calls, ends, lim) && k < |calls|
    ensures ends[k] <= Horizon(lim) + TotalExtra(calls[..k + 1])
  {
    if Stage(calls[k]) <= 4 {
      BeforeCleanUp(calls, ends, lim, k);
    } else {
      ExtraOfNext(calls, k);
      assert OnTime(calls[k], Begin(ends, k), ends[k], lim);
      CleanUpInTime(calls[k], Begin(ends, k), ends[k], lim);
      if k > 0 {
        EndsByCalls(calls, ends, lim, k - 1);
      } else {
        EarlyStages(0, lim);
        assert calls[..0] == [];
      }
    }
  }

  lemma ExtraOfOne(c: Call)
    ensures TotalExtra([c]) == Extra(c) && TotalExtra([]) == 0
  {
    var one := [c];
    assert one[..|one| - 1] == [];
    assert TotalExtra(one) == TotalExtra([]) + Extra(c);
  }

  lemma ExtraOfMiddle(s: Script)
    requires s.Proper()
    ensures TotalExtra(ImageCalls(s)) == TotalExtra(Middle(s)) == 0
  {
    PartStages(s);
    NoExtra(ImageCalls(s), |ImageCalls(s)|);
    NoExtra(Middle(s), |Middle(s)|);
    assert ImageCalls(s)[..|ImageCalls(s)|] == ImageCalls(s) && Middle(s)[..|Middle(s)|] == Middle(s);
  }

  lemma ExtraOfShutdown(s: Script)
    requires s.Proper()
    ensures TotalExtra(ShutdownCalls(s))
         == (if s.TimedOut() then if s.stop.err.Some? then 20 * SECOND else 15 * SECOND else 0)
  {
    ExtraOfOne(s.stop);
    ExtraOfOne(s.kill);
    TotalExtraConcat([s.stop], if s.stop.err.Some? then [s.kill] else []);
  }

  lemma ExtraOfTrace(s: Script)
    requires s.Proper()
    ensures TotalExtra(Trace(s))
         == (if s.TimedOut() then if s.stop.err.Some? then 20 * SECOND else 15 * SECOND else 0)
            + (if s.Started() then 10 * SECOND else 0) + (if s.Created() then 30 * SECOND else 0)
  {
    var logs, remove := if s.Started() then [s.logs] else [], if s.Created() then [s.remove] else [];
    TraceParts(s);
    ExtraOfMiddle(s);
    ExtraOfShutdown(s);
    ExtraOfOne(s.logs);
    ExtraOfOne(s.remove);
    TotalExtraConcat(ImageCalls(s), Middle(s));
    TotalExtraConcat(ImageCalls(s) + Middle(s), ShutdownCalls(s));
    TotalExtraConcat(ImageCalls(s) + Middle(s) + ShutdownCalls(s), logs);
    TotalExtraConcat(BodyCalls(s), remove);
  }

  lemma LastByCalls(calls: seq<Call>, ends: seq<int>, lim: Limits)
    requires calls != [] && Ordered(calls) && Timed(calls, ends, lim)
    ensures ends[|ends| - 1] <= Horizon(lim) + TotalExtra(calls)
  {
    EndsByCalls(calls, ends, lim, |calls| - 1);
    assert calls[..|calls| - 1 + 1] == calls;
  }

  lemma ExtraAsCalled(s: Script)
    requires s.Proper()
    ensures TotalExtra(Trace(s))
         == (if Called(Trace(s), 8) then 30 * SECOND else 0) + (if Called(Trace(s), 7) then 10 * SECOND else 0)
            + (if Called(Trace(s), 5) then 15 * SECOND else 0) + (if Called(Trace(s), 6) then 5 * SECOND else 0)
  {
    ExtraOfTrace(s);
    CalledIff(s, 8);
    CalledIff(s, 7);
    CalledIff(s, 6);
    CalledIff(s, 5);
  }

  /** MAIN RESULT.  The clean-up only takes what its calls take: 30 s for the removal of a
      created container, 10 s for the logs of a started one, 15 s for a stop after a timeout
      and 5 s for a kill after a failed stop. */
  lemma OccupancyByCalls(s: Script, ends: seq<int>, req: Request, cfg: Config, existsLimit: nat)
    requires s.Proper() && Timed(Trace(s), ends, LimitsOf(req, cfg, existsLimit))
    ensures ends != []
    ensures ends[|ends| - 1]
         <= Max(EffectiveTimeout(req, cfg), existsLimit + Max(0, cfg.imagePullTimeout))
            + (if Called(Trace(s), 8) then 30 * SECOND else 0) + (if Called(Trace(s), 7) then 10 * SECOND else 0)
            + (if Called(Trace(s), 5) then 15 * SECOND else 0) + (if Called(Trace(s), 6) then 5 * SECOND else 0)
  {
    TraceIsOrdered(s);
    LastByCalls(Trace(s), ends, LimitsOf(req, cfg, existsLimit));
    ExtraAsCalled(s);
  }

  /** The slowest runtime: a pull, an expired wait, a failed stop, and every deadline used up. */
  function Slowest(image: string): (s: Script)
    ensures s.Proper() && s.About(image)
  {
    Script(
      ImageExists(image, false, None), PullImage(image, false, None), CreateContainer(image, "c", None),
      StartContainer("c", None), WaitContainer("c", -1, true, Some("deadline")), StopContainer("c", Some("no")),
      KillContainer("c", None), GetLogs("c", "", "", None), RemoveContainer("c", None))
  }

  lemma SlowestTrace(image: string)
    ensures var t := Slowest(image);
            Trace(t) == [t.exists_, t.pull, t.create, t.start, t.wait, t.stop, t.kill, t.logs, t.remove]
  {
  }

  /** The bound is reached for every request and configuration. */
  lemma OccupancyIsTight(req: Request, cfg: Config, existsLimit: nat) returns (ends: seq<int>)
    ensures Timed(Trace(Slowest(req.image)), ends, LimitsOf(req, cfg, existsLimit))
    ensures ends != []
    ensures ends[|ends| - 1]
         == Max(EffectiveTimeout(req, cfg), existsLimit + Max(0, cfg.imagePullTimeout)) + 60 * SECOND
  {
    var lim := LimitsOf(req, cfg, existsLimit);
    var x, h := lim.existsLimit, Horizon(lim);
    var p := x + Max(0, lim.pullTimeout);
    ends := [x, p, h, h, h, h + 15 * SECOND, h + 20 * SECOND, h + 30 * SECOND, h + 60 * SECOND];
    var t := Slowest(req.image);
    SlowestTrace(req.image);
    assert OnTime(t.exists_, 0, x, lim) && OnTime(t.pull, x, p, lim);
    assert OnTime(t.create, p, h, lim) && OnTime(t.start, h, h, lim) && OnTime(t.wait, h, h, lim);
    assert OnTime(t.stop, h, h + 15 * SECOND, lim) && OnTime(t.kill, h + 15 * SECOND, h + 20 * SECOND, lim);
    assert OnTime(t.logs, h + 20 * SECOND, h + 30 * SECOND, lim);
    assert OnTime(t.remove, h + 30 * SECOND, h + 60 * SECOND, lim);
  }
}
