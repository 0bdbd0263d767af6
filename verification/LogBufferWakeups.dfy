/** Who gets woken up: lost notifications, and delivery of the full log after Close. */
module LogBufferWakeups {
  import opened LogBuffer

  // ---------------------------------------------------------------- lost wakeups

  /** The number of subscriber goroutines that have not returned. */
  function Live(subs: seq<Subscriber>): nat {
    if subs == [] then 0 else (if subs[0].phase.Ended? then 0 else 1) + Live(subs[1..])
  }

  lemma {:induction false} LiveAtMost(subs: seq<Subscriber>)
    ensures Live(subs) <= |subs|
  {
    if subs != [] {
      LiveAtMost(subs[1..]);
    }
  }

  lemma {:induction false} LiveAtLeast(subs: seq<Subscriber>, i: nat, j: nat)
    requires i <= j < |subs| && !subs[i].phase.Ended? && !subs[j].phase.Ended?
    ensures Live(subs) >= if i < j then 2 else 1
  {
    if i > 0 {
      LiveAtLeast(subs[1..], i - 1, j - 1);
    } else if j > 0 {
      LiveAtLeast(subs[1..], j - 1, j - 1);
    }
  }

  /** How far the last snapshot of a subscriber reaches, once it has taken one. */
  ghost predicate PastSnapshot(s: Subscriber) {
    s.phase.Sending? || s.phase.Waiting?
  }

  ghost function Horizon(s: Subscriber): int {
    if s.phase.Sending? then s.pos - s.phase.next + |s.phase.batch| else s.pos
  }

  ghost predicate Notified(b: Buffer) {
    b.token || b.closed
  }

  /** Waiting, although the buffer holds lines it has not seen, with no signal pending. */
  ghost predicate Stalled(st: State, i: nat) {
    i < |st.subs| && st.subs[i].phase.Waiting? && st.subs[i].pos < |st.buffer.lines| && !Notified(st.buffer)
  }

  /** No wakeup is lost: whoever is past its snapshot and behind has a signal to come. */
  ghost predicate NoneLost(st: State) {
    forall i | 0 <= i < |st.subs| && PastSnapshot(st.subs[i]) ::
      Horizon(st.subs[i]) < |st.buffer.lines| ==> Notified(st.buffer)
  }

  lemma NoneLostNext(st: State, a: Action)
    requires Inv(st) && NoneLost(st) && Enabled(st, a) && Live(st.subs) <= 1
    ensures NoneLost(Next(st, a))
  {
    var st' := Next(st, a);
    forall k | 0 <= k < |st'.subs| && PastSnapshot(st'.subs[k]) && Horizon(st'.subs[k]) < |st'.buffer.lines|
      ensures Notified(st'.buffer)
    {
      assert k < |st.subs|;
      assert SubInv(st.buffer, st.subs[k]);
      if a.Step? {
        LiveAtLeast(st.subs, if k < a.i then k else a.i, if k < a.i then a.i else k);
      }
    }
  }

  lemma {:induction false} NoneLostRun(tr: seq<State>, acts: seq<Action>, n: nat)
    requires Behavior(tr, acts) && n < |tr|
    requires forall m | 0 <= m < |tr| :: Live(tr[m].subs) <= 1
    ensures NoneLost(tr[n])
  {
    if n > 0 {
      NoneLostRun(tr, acts, n - 1);
      InvRun(tr, acts, n - 1);
      NoneLostNext(tr[n - 1], acts[n - 1]);
    }
  }

  /** Every run that never has more than `limit` unfinished subscribers at once is free of
      stalled ones, throughout. */
  ghost predicate NeverStalls(limit: nat) {
    forall tr: seq<State>, acts | Behavior(tr, acts) && (forall m | 0 <= m < |tr| :: Live(tr[m].subs) <= limit) ::
      forall n, i: nat | 0 <= n < |tr| :: !Stalled(tr[n], i)
  }

  /** Two subscribers wait, one line is written, and the first takes the only token. */
  function StallingRun(): seq<Action> {
    [Subscribe, Subscribe, Step(0, false), Step(0, false), Step(1, false), Step(1, false),
     Write(Line("stdout", "x")), Step(0, false)]
  }

  function StallingStates(): seq<State> {
    var none := Buffer([], false, false);
    var x := Line("stdout", "x");
    var fresh0 := NEW_SUBSCRIBER;
    var sending := fresh0.(phase := Sending([], 0, false));
    var waiting := fresh0.(phase := Waiting);
    [INITIAL, State(none, [fresh0]), State(none, [fresh0, fresh0]), State(none, [sending, fresh0]),
     State(none, [waiting, fresh0]), State(none, [waiting, sending]), State(none, [waiting, waiting]),
     State(Buffer([x], false, true), [waiting, waiting]), State(Buffer([x], false, false), [fresh0, waiting])]
  }

  lemma StallingRunBegins(k: nat)
    requires k < 4
    ensures Enabled(StallingStates()[k], StallingRun()[k])
    ensures Next(StallingStates()[k], StallingRun()[k]) == StallingStates()[k + 1]
  {
  }

  lemma StallingRunEnds(k: nat)
    requires 4 <= k < 8
    ensures Enabled(StallingStates()[k], StallingRun()[k])
    ensures Next(StallingStates()[k], StallingRun()[k]) == StallingStates()[k + 1]
  {
  }

  lemma StallingRunIsBehavior()
    ensures Behavior(StallingStates(), StallingRun())
    ensures forall m | 0 <= m < |StallingStates()| :: |StallingStates()[m].subs| <= 2
    ensures Stalled(StallingStates()[8], 1)
  {
    forall k | 0 <= k < 8
      ensures Enabled(StallingStates()[k], StallingRun()[k])
      ensures StallingStates()[k + 1] == Next(StallingStates()[k], StallingRun()[k])
    {
      if k < 4 {
        StallingRunBegins(k);
      } else {
        StallingRunEnds(k);
      }
    }
  }

  /** MAIN RESULT.  The promise that a write "notifies any waiting subscribers" is kept in
      every run exactly when no two unfinished subscribers ever coexist. */
  lemma WakeupsLostIffShared(limit: nat)
    ensures NeverStalls(limit) <==> limit <= 1
  {
    if limit <= 1 {
      forall tr: seq<State>, acts | Behavior(tr, acts) && (forall m | 0 <= m < |tr| :: Live(tr[m].subs) <= limit)
        ensures forall n, i: nat | 0 <= n < |tr| :: !Stalled(tr[n], i)
      {
        forall n, i: nat | 0 <= n < |tr| ensures !Stalled(tr[n], i) {
          NoneLostRun(tr, acts, n);
        }
      }
    } else {
      StallingRunIsBehavior();
      var tr, acts := StallingStates(), StallingRun();
      forall m | 0 <= m < |tr| ensures Live(tr[m].subs) <= limit {
        LiveAtMost(tr[m].subs);
      }
      assert Behavior(tr, acts) && Stalled(tr[8], 1);
    }
  }

  /** A stalled subscriber stays so until somebody writes, closes or cancels it, however
      the other goroutines move meanwhile. */
  lemma {:induction false} StalledStays(tr: seq<State>, acts: seq<Action>, n: nat, i: nat)
    requires Run(tr, acts) && n < |tr| && Stalled(tr[0], i)
    requires forall a | a in acts :: !a.Write? && !a.Close? && a != Cancel(i)
    requires !tr[0].subs[i].ctxDone
    ensures Stalled(tr[n], i) && !tr[n].subs[i].ctxDone
    ensures !Enabled(tr[n], Step(i, false)) && !Enabled(tr[n], Step(i, true))
  {
    if n > 0 {
      StalledStays(tr, acts, n - 1, i);
      assert acts[n - 1] in acts;
      assert Enabled(tr[n - 1], acts[n - 1]) && tr[n] == Next(tr[n - 1], acts[n - 1]);
    }
  }

  // ---------------------------------------------------------------- after Close

  ghost function Rank(p: Phase): nat {
    match p
    case Ended(_) => 0
    case Draining(_, _) => 1
    case Sending(_, _, sawClosed) => if sawClosed then 1 else 4
    case Locking => 2
    case DrainLocking => 2
    case Waiting => 3
  }

  /** What subscriber i still has to do once the buffer is closed: unsent lines count
      twice (to be sent, then to be received), queued lines once, plus its phase. */
  ghost function Weight(b: Buffer, s: Subscriber): int {
    2 * (|b.lines| - |s.Sent()|) + |s.queue| + Rank(s.phase)
  }

  /** The steps that belong to subscriber i: its goroutine's, and its consumer's. */
  predicate Own(a: Action, i: nat) {
    (a.Step? || a.Receive?) && a.i == i
  }

  function OwnSteps(acts: seq<Action>, i: nat): nat {
    if acts == [] then 0
    else OwnSteps(acts[..|acts| - 1], i) + if Own(acts[|acts| - 1], i) then 1 else 0
  }

  /** Its own steps strictly decrease its weight, and nobody else's raise it, whoever
      takes the token that a closed channel may still hold. */
  lemma WeightNext(st: State, a: Action, i: nat)
    requires Inv(st) && st.buffer.closed && Enabled(st, a) && i < |st.subs|
    ensures Weight(Next(st, a).buffer, Next(st, a).subs[i]) + (if Own(a, i) then 1 else 0)
         <= Weight(st.buffer, st.subs[i])
  {
    var s, s' := st.subs[i], Next(st, a).subs[i];
    assert SubInv(st.buffer, s);
    assert |s'.Sent()| == |s'.received| + |s'.queue|;
  }

  /** It is never stuck: until it has ended and its consumer has everything, its goroutine
      or its consumer can move. */
  lemma CanMove(st: State, i: nat)
    requires Inv(st) && st.buffer.closed && i < |st.subs|
    requires !st.subs[i].phase.Ended? || st.subs[i].queue != []
    ensures Enabled(st, Step(i, false)) || Enabled(st, Receive(i))
  {
  }

  /** Sending is held up exactly while the consumer has left 64 lines lying. */
  lemma SendsUnlessFull(st: State, i: nat)
    requires i < |st.subs|
    requires var p := st.subs[i].phase;
             (p.Sending? && p.next < |p.batch|) || (p.Draining? && p.done < |p.rest|)
    ensures Enabled(st, Step(i, false)) <==> |st.subs[i].queue| < 64
    ensures Enabled(st, Step(i, true)) <==> st.subs[i].ctxDone
  {
  }

  // ---------------------------------------------------------------- after cancellation

  /** Where a goroutine gets by its own steps when nobody receives any more: it takes the
      cancellation wherever it could otherwise be held up. */
  function Abandon(b: Buffer, s: Subscriber): (abort: bool)
    requires s.ctxDone && !s.phase.Ended?
    ensures CanStep(b, s, abort)
  {
    match s.phase
    case Locking => false
    case Sending(batch, next, _) => next < |batch|
    case Waiting => true
    case DrainLocking => false
    case Draining(rest, done) => done < |rest|
  }

  ghost function StepsToEnd(p: Phase): nat {
    match p
    case Ended(_) => 0
    case Sending(batch, next, sawClosed) => if next < |batch| || sawClosed then 1 else 2
    case Draining(_, _) => 1
    case Waiting => 1
    case DrainLocking => 2
    case Locking => 3
  }

  /** MAIN RESULT.  A cancelled subscriber is never stuck and can always end within three steps
      of its goroutine, even if nothing is ever written, closed or received again. */
  lemma CancelledCanEnd(st: State, i: nat) returns (tr: seq<State>, acts: seq<Action>)
    requires Inv(st) && i < |st.subs| && st.subs[i].ctxDone && !st.subs[i].phase.Ended?
    ensures Run(tr, acts) && tr[0] == st && |acts| <= 3
    ensures forall a | a in acts :: a.Step? && a.i == i
    ensures i < |tr[|acts|].subs| && tr[|acts|].subs[i].phase.Ended?
  {
    tr, acts := [st], [];
    while !tr[|acts|].subs[i].phase.Ended?
      invariant Run(tr, acts) && tr[0] == st && Inv(tr[|acts|])
      invariant i < |tr[|acts|].subs| && tr[|acts|].subs[i].ctxDone
      invariant forall a | a in acts :: a.Step? && a.i == i
      invariant |acts| + StepsToEnd(tr[|acts|].subs[i].phase) <= 3
      decreases StepsToEnd(tr[|acts|].subs[i].phase)
    {
      var now := tr[|acts|];
      var a := Step(i, Abandon(now.buffer, now.subs[i]));
      InvNext(now, a);
      RunExtends(tr, acts, a);
      tr, acts := tr + [Next(now, a)], acts + [a];
    }
  }

  // ---------------------------------------------------------------- delivery

  lemma {:induction false} WeightRun(tr: seq<State>, acts: seq<Action>, i: nat)
    requires Run(tr, acts) && Inv(tr[0]) && tr[0].buffer.closed && i < |tr[0].subs|
    ensures Inv(tr[|acts|]) && tr[|acts|].buffer.closed && i < |tr[|acts|].subs|
    ensures Weight(tr[|acts|].buffer, tr[|acts|].subs[i]) + OwnSteps(acts, i)
         <= Weight(tr[0].buffer, tr[0].subs[i])
    decreases |acts|
  {
    var n := |acts|;
    if n > 0 {
      WeightRun(tr[..n], acts[..n - 1], i);
      InvNext(tr[n - 1], acts[n - 1]);
      WeightNext(tr[n - 1], acts[n - 1], i);
    }
  }

  /** A context that is never cancelled is never the reason for ending. */
  lemma {:induction false} Uncancelled(tr: seq<State>, acts: seq<Action>, n: nat, i: nat)
    requires Run(tr, acts) && n < |tr| && i < |tr[0].subs|
    requires !tr[0].subs[i].ctxDone && !(tr[0].subs[i].phase == Ended(true))
    requires Cancel(i) !in acts
    ensures i < |tr[n].subs| && !tr[n].subs[i].ctxDone && !(tr[n].subs[i].phase == Ended(true))
  {
    if n > 0 {
      Uncancelled(tr, acts, n - 1, i);
      assert acts[n - 1] in acts;
      assert Enabled(tr[n - 1], acts[n - 1]) && tr[n] == Next(tr[n - 1], acts[n - 1]);
    }
  }

  /** MAIN RESULT.  From any reachable closed state, stalled subscribers included, each
      subscriber whose goroutine and consumer keep moving is finished after a number of own
      moves fixed in advance, whatever the others do, and until then one of the two can
      move; if its context is not cancelled its consumer in the end holds exactly the log. */
  lemma CloseDelivers(tr: seq<State>, acts: seq<Action>, i: nat)
    requires Run(tr, acts) && Inv(tr[0]) && tr[0].buffer.closed && i < |tr[0].subs|
    ensures OwnSteps(acts, i) <= Weight(tr[0].buffer, tr[0].subs[i])
    ensures i < |tr[|acts|].subs|
    ensures OwnSteps(acts, i) == Weight(tr[0].buffer, tr[0].subs[i]) ==>
              tr[|acts|].subs[i].phase.Ended? && tr[|acts|].subs[i].queue == []
    ensures !(tr[|acts|].subs[i].phase.Ended? && tr[|acts|].subs[i].queue == []) ==>
              Enabled(tr[|acts|], Step(i, false)) || Enabled(tr[|acts|], Receive(i))
    ensures
      var s := tr[|acts|].subs[i];
      s.phase.Ended? && s.queue == [] && Cancel(i) !in acts
      && !tr[0].subs[i].ctxDone && tr[0].subs[i].phase != Ended(true)
      ==> s.received == tr[0].buffer.lines
  {
    WeightRun(tr, acts, i);
    var st := tr[|acts|];
    if !st.subs[i].phase.Ended? || st.subs[i].queue != [] {
      CanMove(st, i);
    }
    assert SubInv(st.buffer, st.subs[i]);
    assert |st.subs[i].Sent()| <= |st.buffer.lines|;
    BufferGrows(tr, acts, 0, |acts|);
    if Cancel(i) !in acts && !tr[0].subs[i].ctxDone && tr[0].subs[i].phase != Ended(true) {
      Uncancelled(tr, acts, |acts|, i);
    }
  }
}
