/** What the socket sees: every call to write and readv, calls after SHUT_WR, and the progress of a drain. */
module ConnectionCalls {
  import opened Bytes
  import opened PollSpec
  import opened ConnectionSpec
  import opened ConnectionProofs
  import opened ConnectionRuns
  import opened ConnectionBooks

  // ---- calls ----

  /** The events that call ::write: a send with no backlog watched, and a write handler, unless disconnected. */
  predicate CallsWrite(c: Conn, e: Event)
  {
    match e
    case DoSend(_, _) => c.state == Connected && !Writing(c)
    case RunQueuedSend(_) => c.state != Disconnected && !Writing(c)
    case Dispatch(_, _) => c.state != Disconnected && c.todo != [] && c.todo[0] == OnWrite
    case _ => false
  }

  /** The events that call ::readv: a read handler, unless disconnected. */
  predicate CallsRead(c: Conn, e: Event)
  {
    e.Dispatch? && c.state != Disconnected && c.todo != [] && c.todo[0] == OnRead
  }

  function One(b: bool): nat { if b then 1 else 0 }

  predicate Counted(c: Conn, e: Event, c': Conn)
  {
    && c'.writeCalls == c.writeCalls + One(CallsWrite(c, e))
    && c'.readCalls == c.readCalls + One(CallsRead(c, e))
  }

  lemma SendCounted(c: Conn, e: Event)
    requires Possible(c, e) && Step(c, e).Ok? && e.DoSend?
    ensures Counted(c, e, Step(c, e).conn)
  {
    if c.state == Connected {
      SendBooks(c, e.data, e.w);
    }
  }

  lemma QueuedCounted(c: Conn, e: Event)
    requires Possible(c, e) && Step(c, e).Ok? && e.RunQueuedSend?
    ensures Counted(c, e, Step(c, e).conn)
  {
    if c.state != Disconnected {
      SendBooks(c.(queued := c.queued[1..]), c.queued[0], e.w);
    }
  }

  lemma DispatchCounted(c: Conn, e: Event)
    requires Possible(c, e) && Step(c, e).Ok? && e.Dispatch?
    ensures Counted(c, e, Step(c, e).conn)
  {
    HandlerBooks(c.(todo := c.todo[1..]), c.todo[0], e.r, e.w);
  }

  lemma QuietCounted(c: Conn, e: Event, c': Conn)
    requires SameBooks(c, c') && !e.DoSend? && !e.RunQueuedSend? && !e.Dispatch?
    ensures Counted(c, e, c')
  {
  }

  lemma StepCalls(c: Conn, e: Event)
    requires Possible(c, e) && Step(c, e).Ok?
    ensures Counted(c, e, Step(c, e).conn)
  {
    match e
    case DoSend(_, _) => SendCounted(c, e);
    case QueueSend(_) =>
    case Consume(_) =>
    case Poll(_) =>
    case RunQueuedSend(_) => QueuedCounted(c, e);
    case Dispatch(_, _) => DispatchCounted(c, e);
    case _ =>
      QuietBooks(c, e);
      QuietCounted(c, e, Step(c, e).conn);
  }

  ghost function WritesBetween(states: seq<Conn>, events: seq<Event>, i: nat, j: nat): nat
    requires i <= j <= |events| < |states|
    decreases j
  {
    if i == j then 0 else WritesBetween(states, events, i, j - 1) + One(CallsWrite(states[j - 1], events[j - 1]))
  }

  ghost function ReadsBetween(states: seq<Conn>, events: seq<Event>, i: nat, j: nat): nat
    requires i <= j <= |events| < |states|
    decreases j
  {
    if i == j then 0 else ReadsBetween(states, events, i, j - 1) + One(CallsRead(states[j - 1], events[j - 1]))
  }

  /** Between any two moments of any run the socket is written and read exactly as often as those events occur. */
  lemma {:induction false} CallsExactly(states: seq<Conn>, events: seq<Event>, i: nat, j: nat)
    requires Chained(states, events) && i <= j < |states|
    ensures states[j].writeCalls == states[i].writeCalls + WritesBetween(states, events, i, j)
    ensures states[j].readCalls == states[i].readCalls + ReadsBetween(states, events, i, j)
    decreases j
  {
    if i == j {
    } else {
      var k := j - 1;
      CallsExactly(states, events, i, k);
      assert Follows(states[k], events[k], states[k + 1]);
      StepCalls(states[k], events[k]);
    }
  }

  /** Once disconnected, the socket is neither written nor read any more. */
  lemma NoCallsAfterClose(states: seq<Conn>, events: seq<Event>, i: nat, j: nat)
    requires IsRun(states, events) && i <= j < |states| && states[i].state == Disconnected
    ensures states[j].writeCalls == states[i].writeCalls && states[j].readCalls == states[i].readCalls
  {
    EveryPairLater(states, events, i, j);
  }

  // ---- calls to write after SHUT_WR ----

  /** A queued send that runs on a connection which is up. */
  predicate SendRuns(c: Conn, e: Event)
  {
    e.RunQueuedSend? && c.state != Disconnected
  }

  ghost predicate NoSendRuns(states: seq<Conn>, events: seq<Event>, i: nat, j: nat)
    requires i <= j <= |events| < |states|
  {
    forall k :: i <= k < j ==> !SendRuns(states[k], events[k])
  }

  /** After SHUT_WR and without backlog, the next call to write can only come from a queued send. */
  lemma LateStep(c: Conn, e: Event)
    requires Inv(c) && c.shutWr == 1 && (c.state != Disconnected ==> c.output == []) && Possible(c, e) && !Misuse(c, e)
    ensures Step(c, e).Ok? && (CallsWrite(c, e) <==> SendRuns(c, e))
    ensures !SendRuns(c, e) ==> (Step(c, e).conn.state != Disconnected ==> Step(c, e).conn.output == [])
  {
    StepGood(c, e);
    assert c.todo != [] ==> c.todo[0] in c.todo;
  }

  lemma {:induction false} QuietAfterShutdown(states: seq<Conn>, events: seq<Event>, i: nat, j: nat)
    requires IsRun(states, events) && i <= j < |states| && states[i].shutWr == 1 && states[i].output == []
    requires NoSendRuns(states, events, i, j)
    ensures states[j].writeCalls == states[i].writeCalls
    ensures states[j].state != Disconnected ==> states[j].output == []
    decreases j
  {
    if i == j {
    } else {
      var k := j - 1;
      QuietAfterShutdown(states, events, i, k);
      LateNext(states, events, i, k);
    }
  }

  lemma LateNext(states: seq<Conn>, events: seq<Event>, i: nat, k: nat)
    requires IsRun(states, events) && i <= k < |events| && states[i].shutWr == 1
    requires states[k].state != Disconnected ==> states[k].output == []
    ensures states[k + 1].writeCalls == states[k].writeCalls + One(SendRuns(states[k], events[k]))
    ensures !SendRuns(states[k], events[k]) ==> (states[k + 1].state != Disconnected ==> states[k + 1].output == [])
  {
    EveryPairLater(states, events, i, k);
    EveryStateInv(states, events, i);
    EveryStateInv(states, events, k);
    assert Follows(states[k], events[k], states[k + 1]);
    LateStep(states[k], events[k]);
    StepCalls(states[k], events[k]);
  }

  lemma CallsGrow(states: seq<Conn>, events: seq<Event>, k: nat)
    requires Chained(states, events) && k < |events|
    ensures states[k].writeCalls <= states[k + 1].writeCalls
  {
    assert Follows(states[k], events[k], states[k + 1]);
    StepCalls(states[k], events[k]);
  }

  /**
   After SHUT_WR has been issued, write is called again if and only if a send that another thread had
   queued is run on the connection while it is up.
   */
  lemma {:induction false} LateWritesExactly(states: seq<Conn>, events: seq<Event>, i: nat, j: nat)
    requires IsRun(states, events) && i <= j < |states| && states[i].shutWr == 1 && states[i].output == []
    ensures states[j].writeCalls >= states[i].writeCalls
    ensures states[j].writeCalls == states[i].writeCalls <==> NoSendRuns(states, events, i, j)
    decreases j
  {
    if i == j {
    } else {
      var k := j - 1;
      LateWritesExactly(states, events, i, k);
      CallsGrow(states, events, k);
      assert NoSendRuns(states, events, i, j) <==> NoSendRuns(states, events, i, k) && !SendRuns(states[k], events[k]);
      if NoSendRuns(states, events, i, k) {
        QuietAfterShutdown(states, events, i, k);
        LateNext(states, events, i, k);
      }
    }
  }

  // ---- the drain makes progress ----

  /** A write handler that is run while the connection is up, and of whose bytes the kernel takes some. */
  predicate Drains(c: Conn, e: Event)
  {
    e.Dispatch? && c.state != Disconnected && c.todo != [] && c.todo[0] == OnWrite && e.w.Wrote? && e.w.n > 0
  }

  ghost function DrainsBetween(states: seq<Conn>, events: seq<Event>, i: nat, j: nat): nat
    requires i <= j <= |events| < |states|
    decreases j
  {
    if i == j then 0 else DrainsBetween(states, events, i, j - 1) + One(Drains(states[j - 1], events[j - 1]))
  }

  lemma DrainStep(c: Conn, e: Event)
    requires Possible(c, e) && Step(c, e).Ok? && Drains(c, e)
    ensures |Step(c, e).conn.wire| >= |c.wire| + 1
  {
    WriteBooks(c.(todo := c.todo[1..]), e.w);
  }

  lemma {:induction false} DrainsReachWire(states: seq<Conn>, events: seq<Event>, i: nat, j: nat)
    requires IsRun(states, events) && i <= j < |states|
    ensures |states[j].wire| >= |states[i].wire| + DrainsBetween(states, events, i, j)
    decreases j
  {
    if i == j {
    } else {
      var k := j - 1;
      DrainsReachWire(states, events, i, k);
      EveryStepOk(states, events, k);
      assert Follows(states[k], events[k], states[k + 1]);
      if Drains(states[k], events[k]) {
        DrainStep(states[k], events[k]);
      }
    }
  }

  /**
   The drain ends: from any moment on, while the connection is up, every dispatched write of which the
   kernel takes at least a byte shortens what is left, so that after as many of them as there were
   bytes of backlog and bytes accepted since, the backlog is gone, and a closing connection has then
   issued SHUT_WR.
   */
  lemma DrainEnds(states: seq<Conn>, events: seq<Event>, i: nat, j: nat)
    requires IsRun(states, events) && i <= j < |states| && states[j].state != Disconnected
    ensures |states[i].accepted| <= |states[j].accepted|
    ensures DrainsBetween(states, events, i, j) + |states[j].output|
            <= |states[i].output| + |states[j].accepted| - |states[i].accepted|
    ensures DrainsBetween(states, events, i, j) >= |states[i].output| + |states[j].accepted| - |states[i].accepted| ==>
              states[j].output == [] && (states[j].established && states[j].state == Disconnecting ==> states[j].shutWr == 1)
  {
    DrainsReachWire(states, events, i, j);
    EveryPairLater(states, events, i, j);
    OutputConservation(states, events, i, j);
    OutputConservation(states, events, j, j);
    HalfClose(states, events, i, j);
  }
}
