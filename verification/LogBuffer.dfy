/** The log buffer of one job (pkg/stream/buffer.go): an append-only list of lines, a
    one-slot notification channel shared by every subscriber, and any number of
    subscriber goroutines, each interleaving freely with the others. */
module LogBuffer {

  datatype Line = Line(stream: string, data: string)

  /** `token` is the stored element of the one-slot channel `notify`.  The channel itself
      is closed exactly when `closed` is set (class SharedLog keeps the two in step); a
      closed channel still yields its stored token first. */
  datatype Buffer = Buffer(lines: seq<Line>, closed: bool, token: bool)

  /** The capacity of the channel each subscriber writes to. */
  const CHANNEL_CAPACITY := 64

  // Where a subscriber goroutine stands.
  datatype Phase =
    | Locking                                                // about to take `lines[pos:]`
    | Sending(batch: seq<Line>, next: nat, sawClosed: bool)  // ranging over the batch
    | Waiting                                                // at the select on `notify`
    | DrainLocking                                           // saw the closed channel
    | Draining(rest: seq<Line>, done: nat)                   // ranging over the remainder
    | Ended(cancelled: bool)                                 // output channel closed

  /** `queue` is what its output channel holds, `received` what its consumer has taken. */
  datatype Subscriber = Subscriber(
    phase: Phase, pos: nat, queue: seq<Line>, received: seq<Line>, ctxDone: bool)
  {
    function Sent(): seq<Line> { received + queue }

    function Push(line: Line): Subscriber { this.(queue := queue + [line]) }
  }

  const NEW_SUBSCRIBER := Subscriber(Locking, 0, [], [], false)

  datatype State = State(buffer: Buffer, subs: seq<Subscriber>)

  const INITIAL := State(Buffer([], false, false), [])

  // ---------------------------------------------------------------- buffer operations

  function WriteLine(b: Buffer, line: Line): Buffer {
    if b.closed then b else Buffer(b.lines + [line], false, true)
  }

  function CloseBuffer(b: Buffer): Buffer {
    b.(closed := true)
  }

  // ---------------------------------------------------------------- subscriber steps

  predicate CanSend(s: Subscriber, more: bool, abort: bool) {
    if !more then !abort else if abort then s.ctxDone else |s.queue| < CHANNEL_CAPACITY
  }

  /** Can the goroutine take its next step?  `abort` picks the `ctx.Done()` branch where
      the code offers one. */
  predicate CanStep(b: Buffer, s: Subscriber, abort: bool) {
    match s.phase
    case Locking => !abort
    case Sending(batch, next, _) => CanSend(s, next < |batch|, abort)
    case Waiting => if abort then s.ctxDone else b.token || b.closed
    case DrainLocking => !abort
    case Draining(rest, done) => CanSend(s, done < |rest|, abort)
    case Ended(_) => false
  }

  function StepSubscriber(b: Buffer, s: Subscriber, abort: bool): Subscriber
    requires CanStep(b, s, abort)
  {
    if abort then s.(phase := Ended(true)) else
    match s.phase
    case Locking =>
      s.(phase := Sending(if s.pos <= |b.lines| then b.lines[s.pos..] else [], 0, b.closed))
    case Sending(batch, next, sawClosed) =>
      if next < |batch| then
        s.Push(batch[next]).(phase := Sending(batch, next + 1, sawClosed), pos := s.pos + 1)
      else if sawClosed then s.(phase := Ended(false))
      else s.(phase := Waiting)
    case Waiting => if b.token then s.(phase := Locking) else s.(phase := DrainLocking)
    case DrainLocking =>
      s.(phase := Draining(if s.pos <= |b.lines| then b.lines[s.pos..] else [], 0))
    case Draining(rest, done) =>
      if done < |rest| then s.Push(rest[done]).(phase := Draining(rest, done + 1))
      else s.(phase := Ended(false))
  }

  /** Receiving from `notify` takes the stored token. */
  function BufferAfter(b: Buffer, s: Subscriber, abort: bool): Buffer {
    if s.phase.Waiting? && !abort then b.(token := false) else b
  }

  // ---------------------------------------------------------------- the whole system

  datatype Action =
    | Write(line: Line)
    | Close
    | Subscribe
    | Cancel(i: nat)               // the context of subscriber i is cancelled
    | Receive(i: nat)              // the consumer of subscriber i takes a line
    | Step(i: nat, abort: bool)    // the goroutine of subscriber i moves

  predicate Enabled(st: State, a: Action) {
    match a
    case Write(_) => true
    case Close => true
    case Subscribe => true
    case Cancel(i) => i < |st.subs|
    case Receive(i) => i < |st.subs| && st.subs[i].queue != []
    case Step(i, abort) => i < |st.subs| && CanStep(st.buffer, st.subs[i], abort)
  }

  function Next(st: State, a: Action): State
    requires Enabled(st, a)
  {
    match a
    case Write(line) => st.(buffer := WriteLine(st.buffer, line))
    case Close => st.(buffer := CloseBuffer(st.buffer))
    case Subscribe => st.(subs := st.subs + [NEW_SUBSCRIBER])
    case Cancel(i) => st.(subs := st.subs[i := st.subs[i].(ctxDone := true)])
    case Receive(i) =>
      var s := st.subs[i];
      st.(subs := st.subs[i := s.(queue := s.queue[1..], received := s.received + [s.queue[0]])])
    case Step(i, abort) =>
      var s := st.subs[i];
      State(BufferAfter(st.buffer, s, abort), st.subs[i := StepSubscriber(st.buffer, s, abort)])
  }

  /** A finite run: `tr[n+1]` results from `tr[n]` by `acts[n]`, in any interleaving. */
  ghost predicate Run(tr: seq<State>, acts: seq<Action>) {
    && |tr| == |acts| + 1
    && forall n | 0 <= n < |acts| :: Enabled(tr[n], acts[n]) && tr[n + 1] == Next(tr[n], acts[n])
  }

  ghost predicate Behavior(tr: seq<State>, acts: seq<Action>) {
    Run(tr, acts) && tr[0] == INITIAL
  }

  lemma RunExtends(tr: seq<State>, acts: seq<Action>, a: Action)
    requires Run(tr, acts) && Enabled(tr[|acts|], a)
    ensures Run(tr + [Next(tr[|acts|], a)], acts + [a])
  {
  }

  // ---------------------------------------------------------------- invariant

  ghost predicate SubInv(b: Buffer, s: Subscriber) {
    && s.Sent() <= b.lines
    && |s.queue| <= CHANNEL_CAPACITY
    && match s.phase
       case Locking => |s.Sent()| == s.pos
       case Sending(batch, next, sawClosed) =>
         && |s.Sent()| == s.pos
         && next <= |batch| && next <= s.pos
         && s.pos - next + |batch| <= |b.lines|
         && batch == b.lines[s.pos - next..s.pos - next + |batch|]
         && (sawClosed ==> b.closed && s.pos - next + |batch| == |b.lines|)
       case Waiting => |s.Sent()| == s.pos
       case DrainLocking => |s.Sent()| == s.pos && b.closed
       case Draining(rest, done) =>
         && b.closed && s.pos <= |b.lines| && rest == b.lines[s.pos..]
         && done <= |rest| && |s.Sent()| == s.pos + done
       case Ended(cancelled) => cancelled || (b.closed && s.Sent() == b.lines)
  }

  ghost predicate Inv(st: State) {
    forall i | 0 <= i < |st.subs| :: SubInv(st.buffer, st.subs[i])
  }

  lemma SubInvSend(b: Buffer, s: Subscriber)
    requires SubInv(b, s) && CanStep(b, s, false)
    requires || (s.phase.Sending? && s.phase.next < |s.phase.batch|)
             || (s.phase.Draining? && s.phase.done < |s.phase.rest|)
    ensures SubInv(b, StepSubscriber(b, s, false))
  {
    var s' := StepSubscriber(b, s, false);
    var line := s'.queue[|s.queue|];
    assert s'.Sent() == s.Sent() + [line];
    assert line == b.lines[|s.Sent()|];
  }

  lemma SubInvStep(b: Buffer, s: Subscriber, abort: bool)
    requires SubInv(b, s) && CanStep(b, s, abort)
    ensures SubInv(b, StepSubscriber(b, s, abort))
  {
    var s' := StepSubscriber(b, s, abort);
    if !abort && s'.queue != s.queue {
      SubInvSend(b, s);
    } else {
      assert s'.Sent() == s.Sent();
    }
  }

  /** A write, a close or a token taken by somebody else does not disturb a subscriber. */
  lemma SubInvBuffer(b: Buffer, b': Buffer, s: Subscriber)
    requires SubInv(b, s)
    requires b.lines <= b'.lines && (b.closed ==> b'.closed && b'.lines == b.lines)
    ensures SubInv(b', s)
  {
  }

  /** Receiving and cancelling leave what was sent alone. */
  lemma SubInvConsumer(b: Buffer, s: Subscriber)
    requires SubInv(b, s)
    ensures SubInv(b, s.(ctxDone := true))
    ensures s.queue != [] ==> SubInv(b, s.(queue := s.queue[1..], received := s.received + [s.queue[0]]))
  {
    assert s.(ctxDone := true).Sent() == s.Sent();
    if s.queue != [] {
      var s' := s.(queue := s.queue[1..], received := s.received + [s.queue[0]]);
      assert s'.Sent() == s.Sent();
    }
  }

  lemma InvNext(st: State, a: Action)
    requires Inv(st) && Enabled(st, a)
    ensures Inv(Next(st, a))
  {
    var b, b' := st.buffer, Next(st, a).buffer;
    assert b.lines <= b'.lines && (b.closed ==> b'.closed && b'.lines == b.lines);
    forall k | 0 <= k < |Next(st, a).subs| ensures SubInv(b', Next(st, a).subs[k]) {
      if k < |st.subs| {
        var s, s' := st.subs[k], Next(st, a).subs[k];
        if a.Step? && a.i == k {
          SubInvStep(b, s, a.abort);
        } else if a.Receive? || a.Cancel? {
          SubInvConsumer(b, s);
        }
        assert SubInv(b, s');
        SubInvBuffer(b, b', s');
      }
    }
  }

  lemma {:induction false} InvRun(tr: seq<State>, acts: seq<Action>, n: nat)
    requires Run(tr, acts) && n < |tr| && Inv(tr[0])
    ensures Inv(tr[n])
  {
    if n > 0 {
      InvRun(tr, acts, n - 1);
      InvNext(tr[n - 1], acts[n - 1]);
    }
  }

  // ---------------------------------------------------------------- what was accepted

  /** The lines a run has accepted, told from its actions alone: every write before the
      first close. */
  function Accepted(acts: seq<Action>): seq<Line> {
    if acts == [] || acts[0].Close? then []
    else (if acts[0].Write? then [acts[0].line] else []) + Accepted(acts[1..])
  }

  lemma {:induction false} AcceptedLast(acts: seq<Action>, a: Action)
    ensures Accepted(acts + [a]) ==
            if Close in acts || !a.Write? then Accepted(acts) else Accepted(acts) + [a.line]
  {
    if acts == [] {
    } else {
      assert (acts + [a])[1..] == acts[1..] + [a];
      AcceptedLast(acts[1..], a);
      assert acts == [acts[0]] + acts[1..];
    }
  }

  lemma BufferNext(st: State, a: Action)
    requires Enabled(st, a)
    ensures Next(st, a).buffer.closed <==> st.buffer.closed || a.Close?
    ensures Next(st, a).buffer.lines
         == if st.buffer.closed || !a.Write? then st.buffer.lines else st.buffer.lines + [a.line]
  {
  }

  lemma {:induction false} BufferOfRun(tr: seq<State>, acts: seq<Action>, n: nat)
    requires Behavior(tr, acts) && n < |tr|
    ensures tr[n].buffer.lines == Accepted(acts[..n])
    ensures tr[n].buffer.closed <==> Close in acts[..n]
  {
    if n > 0 {
      BufferOfRun(tr, acts, n - 1);
      var before, a := acts[..n - 1], acts[n - 1];
      assert acts[..n] == before + [a];
      BufferNext(tr[n - 1], a);
      AcceptedLast(before, a);
      assert Close in before + [a] <==> Close in before || a == Close;
    }
  }

  /** Lines only ever get appended, and a close freezes them. */
  lemma {:induction false} BufferGrows(tr: seq<State>, acts: seq<Action>, m: nat, n: nat)
    requires Run(tr, acts) && m <= n < |tr|
    ensures tr[m].buffer.lines <= tr[n].buffer.lines
    ensures tr[m].buffer.closed ==> tr[n].buffer.closed && tr[n].buffer.lines == tr[m].buffer.lines
    ensures |tr[m].subs| <= |tr[n].subs|
    decreases n - m
  {
    if m < n {
      BufferGrows(tr, acts, m, n - 1);
      assert Enabled(tr[n - 1], acts[n - 1]) && tr[n] == Next(tr[n - 1], acts[n - 1]);
    }
  }

  /** MAIN RESULT.  In every interleaving, what reached a subscriber's channel, and what its
      consumer took from it, is a gap-free prefix of the lines accepted so far; and a
      subscriber that ended without its context being used as the reason has sent every
      line that any continuation of the run will ever have accepted. */
  lemma EmittedIsPrefix(tr: seq<State>, acts: seq<Action>, n: nat, i: nat)
    requires Behavior(tr, acts) && n < |tr| && i < |tr[n].subs|
    ensures tr[n].subs[i].Sent() <= Accepted(acts[..n])
    ensures tr[n].subs[i].received <= Accepted(acts[..n]) && |tr[n].subs[i].queue| <= 64
    ensures tr[n].subs[i].phase == Ended(false) ==>
              forall m | n <= m < |tr| :: tr[n].subs[i].Sent() == Accepted(acts[..m])
  {
    InvRun(tr, acts, n);
    BufferOfRun(tr, acts, n);
    assert SubInv(tr[n].buffer, tr[n].subs[i]);
    if tr[n].subs[i].phase == Ended(false) {
      forall m | n <= m < |tr| ensures tr[n].subs[i].Sent() == Accepted(acts[..m]) {
        BufferOfRun(tr, acts, m);
        BufferGrows(tr, acts, n, m);
      }
    }
  }

  /** No subscriber ever slices `lines[pos:]` out of range, which would panic; the empty batch
      StepSubscriber takes in that case is never taken. */
  lemma SlicesAreInRange(tr: seq<State>, acts: seq<Action>, n: nat, i: nat)
    requires Behavior(tr, acts) && n < |tr| && i < |tr[n].subs|
    requires tr[n].subs[i].phase.Locking? || tr[n].subs[i].phase.DrainLocking?
    ensures tr[n].subs[i].pos <= |tr[n].buffer.lines|
  {
    InvRun(tr, acts, n);
    assert SubInv(tr[n].buffer, tr[n].subs[i]);
  }

  // ---------------------------------------------------------------- where a subscription starts

  ghost predicate FromPosition(st: State, i: nat, p: nat) {
    i < |st.subs| && p <= |st.buffer.lines| && st.subs[i].received <= st.buffer.lines[p..]
  }

  /** Whoever subscribes when the buffer holds p lines only ever receives later ones. */
  ghost predicate StartsAtPosition(p: nat) {
    forall tr: seq<State>, acts, n: nat, m: nat |
      Behavior(tr, acts) && n < |acts| && acts[n] == Subscribe && |tr[n].buffer.lines| == p && n < m < |tr| ::
      FromPosition(tr[m], |tr[n].subs|, p)
  }

  /** A run of p writes. */
  lemma {:induction false} WritesRun(p: nat, line: Line) returns (tr: seq<State>, acts: seq<Action>)
    ensures Behavior(tr, acts) && |tr[|acts|].buffer.lines| == p && tr[|acts|].subs == []
    ensures !tr[|acts|].buffer.closed && forall k | 0 <= k < p :: tr[|acts|].buffer.lines[k] == line
  {
    if p == 0 {
      tr, acts := [INITIAL], [];
    } else {
      tr, acts := WritesRun(p - 1, line);
      RunExtends(tr, acts, Write(line));
      tr, acts := tr + [Next(tr[|acts|], Write(line))], acts + [Write(line)];
    }
  }

  /** After p lines somebody subscribes, and is given the first of them. */
  lemma LateSubscriber(p: nat, line: Line) returns (tr: seq<State>, acts: seq<Action>, n: nat)
    requires p > 0
    ensures Behavior(tr, acts) && n < |acts| && acts[n] == Subscribe && tr[n].subs == []
    ensures |tr[n].buffer.lines| == p && tr[|acts|].buffer.lines == tr[n].buffer.lines
    ensures |tr[|acts|].subs| == 1 && tr[|acts|].subs[0].received == [tr[n].buffer.lines[0]]
  {
    tr, acts := WritesRun(p, line);
    n := |acts|;
    var b := tr[n].buffer;
    var sub := NEW_SUBSCRIBER;
    var sending := sub.(phase := Sending(b.lines, 0, false));
    var sent := sub.(phase := Sending(b.lines, 1, false), pos := 1, queue := [b.lines[0]]);
    RunExtends(tr, acts, Subscribe);
    tr, acts := tr + [State(b, [sub])], acts + [Subscribe];
    assert Next(State(b, [sub]), Step(0, false)) == State(b, [sending]);
    RunExtends(tr, acts, Step(0, false));
    tr, acts := tr + [State(b, [sending])], acts + [Step(0, false)];
    assert StepSubscriber(b, sending, false) == sent;
    assert Next(State(b, [sending]), Step(0, false)) == State(b, [sent]);
    RunExtends(tr, acts, Step(0, false));
    tr, acts := tr + [State(b, [sent])], acts + [Step(0, false)];
    var received := sent.(queue := [], received := [b.lines[0]]);
    assert sent.queue[1..] == [] && sent.received + [sent.queue[0]] == received.received;
    assert Next(State(b, [sent]), Receive(0)) == State(b, [received]);
    RunExtends(tr, acts, Receive(0));
    tr, acts := tr + [State(b, [received])], acts + [Receive(0)];
  }

  /** MAIN RESULT.  A subscription keeps the promise to start at the current position of the
      buffer if and only if that is its beginning: it always starts at the first line. */
  lemma StartsAtPositionIff(p: nat)
    ensures StartsAtPosition(p) <==> p == 0
  {
    if p == 0 {
      forall tr: seq<State>, acts, n: nat, m: nat |
        Behavior(tr, acts) && n < |acts| && acts[n] == Subscribe && |tr[n].buffer.lines| == p && n < m < |tr|
        ensures FromPosition(tr[m], |tr[n].subs|, p)
      {
        assert tr[n + 1] == Next(tr[n], acts[n]);
        BufferGrows(tr, acts, n + 1, m);
        InvRun(tr, acts, m);
        assert SubInv(tr[m].buffer, tr[m].subs[|tr[n].subs|]);
      }
    } else {
      var tr, acts, n := LateSubscriber(p, Line("stdout", "x"));
      var st := tr[|acts|];
      assert st.buffer.lines[p..] == [];
      assert !FromPosition(st, |tr[n].subs|, p);
    }
  }

  // ---------------------------------------------------------------- class form

  /** A one-slot channel of empty structs. Sending on, or closing, a closed channel panics
      in Go, hence the preconditions. */
  class SignalChannel {
    var token: bool
    var closed: bool

    constructor ()
      ensures !token && !closed
    {
      token, closed := false, false;
    }

    // select { case ch <- struct{}{}: default: }
    method TrySend()
      requires !closed
      modifies this`token
      ensures token
    {
      if !token {
        token := true;
      }
    }

    method CloseChannel()
      requires !closed
      modifies this`closed
      ensures closed
    {
      closed := true;
    }
  }

  /** The LogBuffer struct.  Each method body runs under the mutex, so each is one action of
      the transition system above; neither can panic on the channel. */
  class SharedLog {
    var lines: seq<Line>
    var closed: bool
    const notify: SignalChannel

    ghost predicate Valid()
      reads this, notify
    {
      notify.closed == closed
    }

    ghost function Abs(): Buffer
      reads this, notify
    {
      Buffer(lines, closed, notify.token)
    }

    constructor ()
      ensures Valid() && fresh(notify) && Abs() == INITIAL.buffer
    {
      lines, closed := [], false;
      notify := new SignalChannel();
    }

    method Write(stream: string, data: string)
      requires Valid()
      modifies this, notify
      ensures Valid() && Abs() == WriteLine(old(Abs()), Line(stream, data))
    {
      if closed {
        return;
      }
      lines := lines + [Line(stream, data)];
      notify.TrySend();
    }

    method Close()
      requires Valid()
      modifies this, notify
      ensures Valid() && Abs() == CloseBuffer(old(Abs()))
    {
      if closed {
        return;
      }
      closed := true;
      notify.CloseChannel();
    }
  }
}
