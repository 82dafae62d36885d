/**
 The event loop and a connection together: a send from another thread is a task that its producer
 pushes, the loop swaps into a batch and runs, and sendInLoop puts on the wire. `jobs` says which
 tasks are sends on this connection, and of what; all other tasks are left open. The two machines
 share nothing but the task that runs, so that the order of the connection's queued sends is a
 consequence of the loop's queue and not an assumption.
 */
module SendPipeline {
  import opened Bytes
  import opened ConnectionSpec
  import opened ConnectionStreams
  import ConnectionProofs
  import ConnectionRuns
  import L = EventLoopSpec
  import LoopProofs = EventLoopProofs

  type Jobs = L.Task -> Option<seq<byte>>

  /** `sent` is history: the messages handed to sendInLoop, in order. */
  datatype Pipeline = Pipeline(loop: L.State, conn: Conn, sent: seq<Sent>)

  datatype Move = LoopMove(step: L.Step) | RunSend(w: WriteResult) | ConnMove(e: Event)

  /** The messages among a list of tasks. */
  function Messages(jobs: Jobs, tasks: seq<L.Task>): seq<seq<byte>>
  {
    if tasks == [] then [] else Message(jobs, tasks[0]) + Messages(jobs, tasks[1..])
  }

  function Message(jobs: Jobs, t: L.Task): seq<seq<byte>>
  {
    match jobs(t)
    case Some(data) => [data]
    case None => []
  }

  lemma {:induction false} MessagesConcat(jobs: Jobs, a: seq<L.Task>, b: seq<L.Task>)
    ensures Messages(jobs, a + b) == Messages(jobs, a) + Messages(jobs, b)
  {
    if a == [] {
      assert a + b == b;
    } else {
      assert (a + b)[1..] == a[1..] + b;
      MessagesConcat(jobs, a[1..], b);
    }
  }

  lemma MessagesOne(jobs: Jobs, t: L.Task)
    ensures Messages(jobs, [t]) == Message(jobs, t)
  {
    assert [t][1..] == [];
  }

  /** The message a step of a producer or of user code on the loop thread submits, if it does. */
  function Pushed(jobs: Jobs, step: L.Step): seq<seq<byte>>
  {
    match step
    case Push(_, t) => Message(jobs, t)
    case LoopPush(t) => Message(jobs, t)
    case _ => []
  }

  predicate Enabled(jobs: Jobs, s: Pipeline, m: Move)
  {
    match m
    case LoopMove(step) =>
      && L.Enabled(s.loop, step) && L.InContract(s.loop, step)
      && (step.RunTask? ==> jobs(s.loop.batch[0]).None?)
      && (Pushed(jobs, step) != [] ==> s.conn.established)
    case RunSend(w) =>
      && L.Enabled(s.loop, L.RunTask) && jobs(s.loop.batch[0]).Some?
      && WriteAnswer(s.conn, |jobs(s.loop.batch[0]).value|, w)
    case ConnMove(e) =>
      !e.QueueSend? && !e.RunQueuedSend? && Possible(s.conn, e) && !Misuse(s.conn, e)
  }

  /** What a move does to the connection; a running send takes its data from the task. */
  function ConnAfter(jobs: Jobs, s: Pipeline, m: Move): Outcome
    requires Enabled(jobs, s, m)
  {
    match m
    case LoopMove(step) => Ok(s.conn.(queued := s.conn.queued + Pushed(jobs, step)))
    case RunSend(w) =>
      SendInLoop(s.conn.(queued := if s.conn.queued == [] then [] else s.conn.queued[1..]),
                 jobs(s.loop.batch[0]).value, w)
    case ConnMove(e) => Step(s.conn, e)
  }

  function LoopAfter(jobs: Jobs, s: Pipeline, m: Move): L.State
    requires Enabled(jobs, s, m)
  {
    match m
    case LoopMove(step) => L.Next(s.loop, step)
    case RunSend(_) => L.Next(s.loop, L.RunTask)
    case ConnMove(_) => s.loop
  }

  function SentAfter(jobs: Jobs, s: Pipeline, m: Move): seq<Sent>
    requires Enabled(jobs, s, m)
  {
    match m
    case LoopMove(_) => s.sent
    case RunSend(_) =>
      if s.conn.state == Disconnected then s.sent else s.sent + [Sent(false, jobs(s.loop.batch[0]).value)]
    case ConnMove(e) => s.sent + SentBy(s.conn, e)
  }

  predicate Follows(jobs: Jobs, s: Pipeline, m: Move, s': Pipeline)
  {
    && Enabled(jobs, s, m)
    && ConnAfter(jobs, s, m) == Ok(s'.conn)
    && s'.loop == LoopAfter(jobs, s, m) && s'.sent == SentAfter(jobs, s, m)
  }

  // ---- what every move keeps ----

  /** The sends on their way through the loop are the connection's queue, and those executed were handed over. */
  ghost predicate Coupled(jobs: Jobs, s: Pipeline)
  {
    && s.conn.queued == Messages(jobs, s.loop.batch + s.loop.pending)
    && s.conn.handed == Data(s.sent)
    && (s.conn.state != Disconnected ==> FromQueue(s.sent) == Messages(jobs, s.loop.executed))
  }

  ghost predicate Inv(jobs: Jobs, s: Pipeline)
  {
    LoopProofs.Inv(s.loop) && ConnectionProofs.Inv(s.conn) && Coupled(jobs, s)
  }

  lemma InitInv(jobs: Jobs, n: nat, mark: nat, highWaterSet: bool, writeCompleteSet: bool)
    ensures Inv(jobs, Pipeline(L.Init(n), Init(mark, highWaterSet, writeCompleteSet), []))
  {
  }

  lemma PushCouples(jobs: Jobs, s: Pipeline, step: L.Step)
    requires Coupled(jobs, s) && L.Enabled(s.loop, step) && (step.Push? || step.LoopPush?)
    ensures s.conn.queued + Pushed(jobs, step)
            == Messages(jobs, L.Next(s.loop, step).batch + L.Next(s.loop, step).pending)
  {
    var before := s.loop.batch + s.loop.pending;
    assert s.loop.batch + (s.loop.pending + [step.t]) == before + [step.t];
    MessagesConcat(jobs, before, [step.t]);
    MessagesOne(jobs, step.t);
  }

  /** Every other step of the loop leaves the waiting messages as they are. */
  lemma QuietCouples(jobs: Jobs, s: Pipeline, step: L.Step)
    requires LoopProofs.Inv(s.loop) && L.Enabled(s.loop, step) && !step.Push? && !step.LoopPush? && !step.RunTask?
    ensures var next := L.Next(s.loop, step);
            next.batch + next.pending == s.loop.batch + s.loop.pending && next.executed == s.loop.executed
  {
    if step == L.SwapTasks {
      assert s.loop.batch == [];
      assert s.loop.pending + [] == [] + s.loop.pending;
    }
  }

  /** Running a task takes its message, if it is a send, from the front of the waiting ones. */
  lemma RunCouples(jobs: Jobs, loop: L.State)
    requires L.Enabled(loop, L.RunTask)
    ensures var next, t := L.Next(loop, L.RunTask), loop.batch[0];
            && Messages(jobs, loop.batch + loop.pending) == Message(jobs, t) + Messages(jobs, next.batch + next.pending)
            && Messages(jobs, next.executed) == Messages(jobs, loop.executed) + Message(jobs, t)
  {
    var t := loop.batch[0];
    assert (loop.batch + loop.pending)[1..] == loop.batch[1..] + loop.pending;
    MessagesConcat(jobs, loop.executed, [t]);
    MessagesOne(jobs, t);
  }

  lemma LoopMoveCouples(jobs: Jobs, s: Pipeline, step: L.Step, s': Pipeline)
    requires Inv(jobs, s) && Enabled(jobs, s, LoopMove(step))
    requires s' == Pipeline(L.Next(s.loop, step), s.conn.(queued := s.conn.queued + Pushed(jobs, step)), s.sent)
    ensures Coupled(jobs, s')
  {
    if step.Push? || step.LoopPush? {
      PushCouples(jobs, s, step);
    } else if step.RunTask? {
      RunCouples(jobs, s.loop);
    } else {
      QuietCouples(jobs, s, step);
    }
    if Pushed(jobs, step) == [] {
      NothingAdded(s.conn.queued);
    }
  }

  lemma NothingAdded<T>(q: seq<T>)
    ensures q + [] == q
  {
  }

  lemma PushKeepsConn(jobs: Jobs, c: Conn, step: L.Step)
    requires ConnectionProofs.Inv(c) && (Pushed(jobs, step) != [] ==> c.established)
    ensures ConnectionProofs.Inv(c.(queued := c.queued + Pushed(jobs, step)))
  {
    if Pushed(jobs, step) != [] {
      ConnectionProofs.QueueSendGood(c, QueueSend(Pushed(jobs, step)[0]));
    } else {
      NothingAdded(c.queued);
    }
  }

  lemma LoopMoveKeeps(jobs: Jobs, s: Pipeline, step: L.Step, s': Pipeline)
    requires Inv(jobs, s) && Enabled(jobs, s, LoopMove(step))
    requires s' == Pipeline(L.Next(s.loop, step), s.conn.(queued := s.conn.queued + Pushed(jobs, step)), s.sent)
    ensures Inv(jobs, s')
  {
    LoopProofs.StepKeeps(s.loop, step);
    LoopMoveCouples(jobs, s, step, s');
    PushKeepsConn(jobs, s.conn, step);
  }

  /** A send that the loop runs is the connection's next queued send. */
  lemma RunSendIsQueuedSend(jobs: Jobs, s: Pipeline, w: WriteResult)
    requires Inv(jobs, s) && Enabled(jobs, s, RunSend(w))
    ensures Possible(s.conn, RunQueuedSend(w)) && s.conn.queued[0] == jobs(s.loop.batch[0]).value
    ensures ConnAfter(jobs, s, RunSend(w)) == Step(s.conn, RunQueuedSend(w))
  {
    RunCouples(jobs, s.loop);
  }

  lemma SameRest<T>(popped: seq<T>, queue: seq<T>, rest: seq<T>, rest': seq<T>)
    requires popped + rest == queue + [] && popped + rest' == queue
    ensures rest == rest'
  {
    assert queue + [] == queue;
    assert (popped + rest)[|popped|..] == rest && (popped + rest')[|popped|..] == rest';
  }

  /** An event that takes from the queue what the loop takes from its batch keeps the two in step. */
  lemma Recouple(jobs: Jobs, s: Pipeline, e: Event, s': Pipeline)
    requires Coupled(jobs, s) && QueueMoves(s.conn, e, s'.conn) && !e.QueueSend?
    requires s'.sent == s.sent + SentBy(s.conn, e)
    requires s'.conn.state != Disconnected ==> s.conn.state != Disconnected
    requires PoppedBy(s.conn, e) + Messages(jobs, s'.loop.batch + s'.loop.pending)
             == Messages(jobs, s.loop.batch + s.loop.pending)
    requires Messages(jobs, s'.loop.executed) == Messages(jobs, s.loop.executed) + PoppedBy(s.conn, e)
    ensures Coupled(jobs, s')
  {
    SameRest(PoppedBy(s.conn, e), s.conn.queued, s'.conn.queued, Messages(jobs, s'.loop.batch + s'.loop.pending));
    DataConcat(s.sent, SentBy(s.conn, e));
    if s.conn.state != Disconnected {
      PoppedStep(s.conn, e, s.sent);
    }
  }

  lemma RunSendCouples(jobs: Jobs, s: Pipeline, w: WriteResult, s': Pipeline)
    requires Inv(jobs, s) && Follows(jobs, s, RunSend(w), s')
    requires s'.conn.state != Disconnected ==> s.conn.state != Disconnected
    ensures Coupled(jobs, s')
  {
    var e := RunQueuedSend(w);
    RunSendIsQueuedSend(jobs, s, w);
    QueueStep(s.conn, e);
    RunCouples(jobs, s.loop);
    assert PoppedBy(s.conn, e) == Message(jobs, s.loop.batch[0]);
    assert s'.sent == s.sent + SentBy(s.conn, e);
    Recouple(jobs, s, e, s');
  }

  lemma RunSendKeeps(jobs: Jobs, s: Pipeline, w: WriteResult)
    requires Inv(jobs, s) && Enabled(jobs, s, RunSend(w))
    ensures ConnAfter(jobs, s, RunSend(w)).Ok?
    ensures var m := RunSend(w);
            Inv(jobs, Pipeline(LoopAfter(jobs, s, m), ConnAfter(jobs, s, m).conn, SentAfter(jobs, s, m)))
  {
    RunSendIsQueuedSend(jobs, s, w);
    ConnectionProofs.StepGood(s.conn, RunQueuedSend(w));
    LoopProofs.StepKeeps(s.loop, L.RunTask);
    var m := RunSend(w);
    RunSendCouples(jobs, s, w, Pipeline(LoopAfter(jobs, s, m), ConnAfter(jobs, s, m).conn, SentAfter(jobs, s, m)));
  }

  lemma ConnMoveKeeps(jobs: Jobs, s: Pipeline, e: Event)
    requires Inv(jobs, s) && Enabled(jobs, s, ConnMove(e))
    ensures Step(s.conn, e).Ok? && Inv(jobs, Pipeline(s.loop, Step(s.conn, e).conn, s.sent + SentBy(s.conn, e)))
  {
    ConnectionProofs.StepGood(s.conn, e);
    QueueStep(s.conn, e);
    Recouple(jobs, s, e, Pipeline(s.loop, Step(s.conn, e).conn, s.sent + SentBy(s.conn, e)));
  }

  /** No move fails an assert, and every move keeps both machines and the link between them. */
  lemma MoveKeeps(jobs: Jobs, s: Pipeline, m: Move)
    requires Inv(jobs, s) && Enabled(jobs, s, m)
    ensures ConnAfter(jobs, s, m).Ok?
    ensures Inv(jobs, Pipeline(LoopAfter(jobs, s, m), ConnAfter(jobs, s, m).conn, SentAfter(jobs, s, m)))
  {
    match m
    case LoopMove(step) =>
      LoopMoveKeeps(jobs, s, step, Pipeline(LoopAfter(jobs, s, m), ConnAfter(jobs, s, m).conn, SentAfter(jobs, s, m)));
    case RunSend(w) => RunSendKeeps(jobs, s, w);
    case ConnMove(e) => ConnMoveKeeps(jobs, s, e);
  }

  // ---- runs ----

  ghost predicate IsRun(jobs: Jobs, states: seq<Pipeline>, moves: seq<Move>)
  {
    && |states| == |moves| + 1
    && Inv(jobs, states[0])
    && forall i {:trigger Follows(jobs, states[i], moves[i], states[i + 1])} ::
         0 <= i < |moves| ==> Follows(jobs, states[i], moves[i], states[i + 1])
  }

  lemma {:induction false} EveryStateInv(jobs: Jobs, states: seq<Pipeline>, moves: seq<Move>, i: nat)
    requires IsRun(jobs, states, moves) && i < |states|
    ensures Inv(jobs, states[i])
  {
    if i == 0 {
    } else {
      var k := i - 1;
      EveryStateInv(jobs, states, moves, k);
      assert Follows(jobs, states[k], moves[k], states[k + 1]);
      MoveKeeps(jobs, states[k], moves[k]);
    }
  }

  /**
   From the producers to the wire, over every interleaving: while the connection is up, wire and
   backlog are the messages handed to sendInLoop, in order, and those of them that came through the
   loop, followed by the sends in its batch and in its queue, are exactly the sends pushed, in push
   order. Once the loop has caught up and the backlog is gone, every send pushed is on the wire.
   */
  lemma ProducersToWire(jobs: Jobs, states: seq<Pipeline>, moves: seq<Move>, i: nat)
    requires IsRun(jobs, states, moves) && i < |states| && states[i].conn.state != Disconnected
    ensures var s := states[i];
            && s.conn.wire + s.conn.output == Flatten(Data(s.sent))
            && FromQueue(s.sent) + Messages(jobs, s.loop.batch + s.loop.pending) == Messages(jobs, s.loop.pushed)
            && (s.loop.executed == s.loop.pushed && s.conn.output == [] ==>
                  s.conn.wire == Flatten(Data(s.sent)) && FromQueue(s.sent) == Messages(jobs, s.loop.pushed))
  {
    EveryStateInv(jobs, states, moves, i);
    var loop := states[i].loop;
    Associative(loop.executed, loop.batch, loop.pending);
    MessagesConcat(jobs, loop.executed, loop.batch + loop.pending);
  }

  /** A send waiting while the loop stands at its poll: the eventfd is readable or its producer still owes the write. */
  lemma WaitingSendIsSignalled(jobs: Jobs, states: seq<Pipeline>, moves: seq<Move>, i: nat)
    requires IsRun(jobs, states, moves) && i < |states|
    requires states[i].loop.pc == L.AtPoll && states[i].conn.queued != []
    ensures states[i].loop.counter > 0 || L.OwesWakeup in states[i].loop.producers
  {
    EveryStateInv(jobs, states, moves, i);
    var loop := states[i].loop;
    assert loop.batch == [];
    assert loop.batch + loop.pending == loop.pending;
  }

  // ---- progress ----

  /** The loop thread's own steps among the moves. */
  predicate OwnMove(m: Move)
  {
    m.RunSend? || (m.LoopMove? && LoopProofs.OwnStep(m.step))
  }

  ghost function OwnMoves(moves: seq<Move>, i: nat, j: nat): nat
    requires i <= j <= |moves|
    decreases j
  {
    if i == j then 0 else OwnMoves(moves, i, j - 1) + (if OwnMove(moves[j - 1]) then 1 else 0)
  }

  /** What a move is to the loop: one of its steps, or nothing. */
  lemma MoveIsLoopStep(jobs: Jobs, s: Pipeline, m: Move, n: nat)
    requires Inv(jobs, s) && Enabled(jobs, s, m) && n <= |s.loop.pushed|
    ensures var next := LoopAfter(jobs, s, m);
            && s.loop.pushed <= next.pushed && s.loop.executed <= next.executed
            && (!next.quit ==> !s.loop.quit)
            && (!next.quit && |next.executed| < n ==>
                  LoopProofs.Remaining(next, n) + (if OwnMove(m) then 1 else 0) <= LoopProofs.Remaining(s.loop, n))
  {
    if !m.ConnMove? {
      var step := if m.RunSend? then L.RunTask else m.step;
      LoopProofs.HistoryGrows(s.loop, step);
      if !L.Next(s.loop, step).quit {
        LoopProofs.StaysUnquit(s.loop, step);
        if |L.Next(s.loop, step).executed| < n {
          LoopProofs.RemainingFalls(s.loop, step, n);
        }
      }
    }
  }

  /** The bound on the loop's own steps, and what it needs, between two moments. */
  predicate Advanced(before: L.State, after: L.State, n: nat, own: nat)
  {
    && before.pushed <= after.pushed && before.executed <= after.executed && !before.quit
    && (|after.executed| < n ==> LoopProofs.Remaining(after, n) + own <= LoopProofs.Remaining(before, n))
  }

  lemma NextAdvances(jobs: Jobs, states: seq<Pipeline>, moves: seq<Move>, k: nat, n: nat)
    requires IsRun(jobs, states, moves) && k < |moves| && !states[k + 1].loop.quit && n <= |states[k].loop.pushed|
    ensures Advanced(states[k].loop, states[k + 1].loop, n, if OwnMove(moves[k]) then 1 else 0)
  {
    EveryStateInv(jobs, states, moves, k);
    assert Follows(jobs, states[k], moves[k], states[k + 1]);
    MoveIsLoopStep(jobs, states[k], moves[k], n);
  }

  lemma AdvancesAdd(a: L.State, b: L.State, c: L.State, n: nat, own1: nat, own2: nat)
    requires Advanced(a, b, n, own1) && Advanced(b, c, n, own2)
    ensures Advanced(a, c, n, own1 + own2)
  {
  }

  lemma {:induction false} PipelineProgress(jobs: Jobs, states: seq<Pipeline>, moves: seq<Move>, i: nat, j: nat, n: nat)
    requires IsRun(jobs, states, moves) && i <= j < |states| && !states[j].loop.quit && n <= |states[i].loop.pushed|
    ensures Advanced(states[i].loop, states[j].loop, n, OwnMoves(moves, i, j))
    decreases j - i
  {
    if i == j {
    } else {
      var k := i + 1;
      PipelineUnquit(jobs, states, moves, k, j);
      NextAdvances(jobs, states, moves, i, n);
      PipelineProgress(jobs, states, moves, k, j, n);
      AdvancesAdd(states[i].loop, states[k].loop, states[j].loop, n, if OwnMove(moves[i]) then 1 else 0, OwnMoves(moves, k, j));
      OwnMovesFirst(moves, i, j);
    }
  }

  lemma {:induction false} OwnMovesFirst(moves: seq<Move>, i: nat, j: nat)
    requires i < j <= |moves|
    ensures OwnMoves(moves, i, j) == (if OwnMove(moves[i]) then 1 else 0) + OwnMoves(moves, i + 1, j)
    decreases j
  {
    if j == i + 1 {
    } else {
      OwnMovesFirst(moves, i, j - 1);
    }
  }

  lemma {:induction false} PipelineUnquit(jobs: Jobs, states: seq<Pipeline>, moves: seq<Move>, k: nat, j: nat)
    requires IsRun(jobs, states, moves) && k <= j < |states| && !states[j].loop.quit
    ensures !states[k].loop.quit
    decreases j
  {
    if k == j {
    } else {
      NextAdvances(jobs, states, moves, j - 1, 0);
      PipelineUnquit(jobs, states, moves, k, j - 1);
    }
  }

  /** What was pushed before has been executed since, once the counts say so. */
  lemma ServedInOrder(jobs: Jobs, before: L.State, after: L.State)
    requires before.pushed <= after.pushed && after.executed <= after.pushed && |before.pushed| <= |after.executed|
    ensures before.pushed <= after.executed
    ensures Messages(jobs, before.pushed) <= Messages(jobs, after.executed)
  {
    var later := after.executed[|before.pushed|..];
    assert after.executed == before.pushed + later;
    MessagesConcat(jobs, before.pushed, later);
  }

  /**
   Every send pushed by moment i has been handed to sendInLoop, in push order, once the loop thread has
   taken ten steps of its own per task waiting then, and ten more, if the connection is still up and
   nobody has quit; with no backlog left it is on the wire.
   */
  lemma SendsAreServed(jobs: Jobs, states: seq<Pipeline>, moves: seq<Move>, i: nat, j: nat)
    requires IsRun(jobs, states, moves) && i <= j < |states|
    requires !states[j].loop.quit && states[j].conn.state != Disconnected
    requires OwnMoves(moves, i, j) >= 10 * (|states[i].loop.pushed| - |states[i].loop.executed|) + 10
    ensures Messages(jobs, states[i].loop.pushed) <= FromQueue(states[j].sent)
    ensures states[j].conn.output == [] ==> states[j].conn.wire == Flatten(Data(states[j].sent))
  {
    PipelineProgress(jobs, states, moves, i, j, |states[i].loop.pushed|);
    EveryStateInv(jobs, states, moves, j);
    LoopProofs.ExecutedFirst(states[j].loop);
    ServedInOrder(jobs, states[i].loop, states[j].loop);
    ProducersToWire(jobs, states, moves, j);
  }
}
