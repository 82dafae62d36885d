/** The connection's promises as statements about every state, or every pair of states, of every run. */
module ConnectionRuns {
  import opened Bytes
  import opened PollSpec
  import opened ConnectionSpec
  import opened ConnectionProofs

  /** One entry per moment, one event between neighbours; every event can occur and is no misuse. */
  ghost predicate IsRun(states: seq<Conn>, events: seq<Event>)
  {
    Chained(states, events) && Inv(states[0])
  }

  ghost predicate Chained(states: seq<Conn>, events: seq<Event>)
  {
    && |states| == |events| + 1
    && forall i {:trigger Follows(states[i], events[i], states[i + 1])} ::
         0 <= i < |events| ==> Follows(states[i], events[i], states[i + 1])
  }

  ghost predicate Follows(c: Conn, e: Event, c': Conn)
  {
    Possible(c, e) && !Misuse(c, e) && Step(c, e) == Ok(c')
  }

  /** A freshly constructed connection meets the invariant, so runs from Init are covered. */
  lemma InitInv(mark: nat, highWaterSet: bool, writeCompleteSet: bool)
    ensures Inv(Init(mark, highWaterSet, writeCompleteSet))
    ensures var c := Init(mark, highWaterSet, writeCompleteSet);
            && c.state == Connecting && c.mark == mark && c.highWaterSet == highWaterSet && c.writeCompleteSet == writeCompleteSet
            && c.wire == [] && c.received == [] && c.input == [] && c.output == [] && c.shutWr == 0 && c.closes == 0
  {
  }

  /** No run gets stuck: whatever can happen next and is no misuse has a successor. */
  lemma RunsContinue(states: seq<Conn>, events: seq<Event>, e: Event)
    requires IsRun(states, events)
    requires Possible(states[|events|], e) && !Misuse(states[|events|], e)
    ensures Step(states[|events|], e).Ok?
    ensures IsRun(states + [Step(states[|events|], e).conn], events + [e])
  {
    EveryStateInv(states, events, |events|);
    StepGood(states[|events|], e);
    var longer, after := states + [Step(states[|events|], e).conn], events + [e];
    forall i | 0 <= i < |after|
      ensures Follows(longer[i], after[i], longer[i + 1])
    {
      if i < |events| {
        assert Follows(states[i], events[i], states[i + 1]);
      }
    }
  }

  lemma {:induction false} EveryStateInv(states: seq<Conn>, events: seq<Event>, i: nat)
    requires IsRun(states, events) && i < |states|
    ensures Inv(states[i])
  {
    if i == 0 {
    } else {
      var k := i - 1;
      EveryStateInv(states, events, k);
      assert Follows(states[k], events[k], states[k + 1]);
      StepGood(states[k], events[k]);
    }
  }

  lemma EveryStepOk(states: seq<Conn>, events: seq<Event>, i: nat)
    requires IsRun(states, events) && i < |events|
    ensures StepOk(states[i], events[i], states[i + 1])
  {
    EveryStateInv(states, events, i);
    assert Follows(states[i], events[i], states[i + 1]);
    StepGood(states[i], events[i]);
  }

  /** What later moments of a run owe to earlier ones. */
  ghost predicate Later(c: Conn, c': Conn)
  {
    && Rank(c.state) <= Rank(c'.state)
    && c.wire <= c'.wire && c.accepted <= c'.accepted && c.handed <= c'.handed
    && c.received <= c'.received && c.consumed <= c'.consumed
    && c.shutWr <= c'.shutWr && c.closes <= c'.closes
    && (c.established ==> c'.established)
    && (c.shutWr > 0 ==> c'.wire == c.wire)
    && (c.state == Disconnected ==> OutputUntouched(c, c'))
    && c'.mark == c.mark && c'.highWaterSet == c.highWaterSet && c'.writeCompleteSet == c.writeCompleteSet
  }

  lemma StepLater(c: Conn, e: Event, c': Conn)
    requires Inv(c) && StepOk(c, e, c')
    ensures Later(c, c')
  {
  }

  lemma LaterTransitive(a: Conn, b: Conn, c: Conn)
    requires Later(a, b) && Later(b, c)
    ensures Later(a, c)
  {
  }

  lemma NextLater(states: seq<Conn>, events: seq<Event>, i: nat)
    requires IsRun(states, events) && i < |events|
    ensures Later(states[i], states[i + 1])
  {
    EveryStateInv(states, events, i);
    EveryStepOk(states, events, i);
    StepLater(states[i], events[i], states[i + 1]);
  }

  lemma {:induction false} EveryPairLater(states: seq<Conn>, events: seq<Event>, i: nat, j: nat)
    requires IsRun(states, events) && i <= j < |states|
    ensures Later(states[i], states[j])
    decreases j
  {
    if i == j {
    } else {
      EveryPairLater(states, events, i, j - 1);
      NextLater(states, events, j - 1);
      LaterTransitive(states[i], states[j - 1], states[j]);
    }
  }

  /**
   Output stream: at every moment the connection is up, what sendInLoop accepted is what the
   kernel took followed by the backlog, in the order the messages were handed over; and from
   any moment on, closed or not, the wire only ever shows a growing prefix of what was accepted.
   */
  lemma OutputConservation(states: seq<Conn>, events: seq<Event>, i: nat, j: nat)
    requires IsRun(states, events) && i <= j < |states|
    ensures states[i].accepted == Flatten(states[i].handed)
    ensures states[i].state != Disconnected ==> states[i].accepted == states[i].wire + states[i].output
    ensures states[i].wire <= states[j].wire <= states[j].accepted
    ensures states[i].state != Disconnected && states[i].output == [] ==> states[i].wire == Flatten(states[i].handed)
  {
    EveryStateInv(states, events, i);
    EveryStateInv(states, events, j);
    EveryPairLater(states, events, i, j);
  }

  /** EPOLLOUT is watched exactly while there is backlog, and a dispatched write handler finds both. */
  lemma WritingMatchesBacklog(states: seq<Conn>, events: seq<Event>, i: nat)
    requires IsRun(states, events) && i < |states| && states[i].state != Disconnected
    ensures Writing(states[i]) <==> states[i].output != []
    ensures states[i].todo != [] && states[i].todo[0] == OnWrite ==> Writing(states[i]) && states[i].output != []
  {
    EveryStateInv(states, events, i);
    assert states[i].todo != [] && states[i].todo[0] == OnWrite ==> OnWrite in states[i].todo;
  }

  /** From connectEstablished until it closes, the kernel watches the connection with its own mask. */
  lemma RegisteredWhileUp(states: seq<Conn>, events: seq<Event>, i: nat)
    requires IsRun(states, events) && i < |states|
    ensures states[i].established && states[i].state != Disconnected ==>
              states[i].reg.pooling && states[i].reg.kernel == Some(states[i].reg.events) && states[i].reg.events.pollPri
    ensures states[i].state == Disconnected ==> states[i].reg.kernel == None
  {
    EveryStateInv(states, events, i);
  }

  /** Every byte taken from the socket is either consumed by the application or still in the input buffer. */
  lemma ReceiveConservation(states: seq<Conn>, events: seq<Event>, i: nat, j: nat)
    requires IsRun(states, events) && i <= j < |states|
    ensures states[j].received == states[j].consumed + states[j].input
    ensures states[i].received <= states[j].received && states[i].consumed <= states[j].consumed
  {
    EveryStateInv(states, events, j);
    EveryPairLater(states, events, i, j);
  }

  /**
   The state only moves forward and Disconnected is final: after it no event touches the output
   side, the socket or its registration. The close callback has run exactly once by then, never before.
   */
  lemma Lifecycle(states: seq<Conn>, events: seq<Event>, i: nat, j: nat)
    requires IsRun(states, events) && i <= j < |states|
    ensures Rank(states[i].state) <= Rank(states[j].state)
    ensures states[i].state != Connecting ==> states[j].state != Connecting
    ensures states[i].state == Disconnecting || states[i].state == Disconnected ==> states[j].state != Connected
    ensures states[i].state == Disconnected ==> states[j].state == Disconnected
    ensures states[i].state == Disconnected ==> OutputUntouched(states[i], states[j])
    ensures states[j].closes == (if states[j].state == Disconnected then 1 else 0)
    ensures i < j && states[i].state == Disconnected && !events[i].Consume? ==> states[i + 1].input == states[i].input
  {
    EveryStateInv(states, events, j);
    EveryPairLater(states, events, i, j);
    if i < j {
      EveryStepOk(states, events, i);
    }
  }

  /**
   Half-close: SHUT_WR is issued at most once; at the step that issues it every accepted byte is
   on the wire; afterwards the wire never grows; and a closing connection whose backlog is gone has
   issued it, so a request made with backlog is served by the step that empties the buffer.
   */
  lemma HalfClose(states: seq<Conn>, events: seq<Event>, i: nat, j: nat)
    requires IsRun(states, events) && i <= j < |states|
    ensures states[j].shutWr <= 1
    ensures states[i].shutWr == 1 ==> states[j].shutWr == 1 && states[j].wire == states[i].wire
    ensures i < |events| && states[i].shutWr < states[i + 1].shutWr ==> states[i + 1].wire == states[i + 1].accepted
    ensures states[j].established && states[j].state == Disconnecting && states[j].output == [] ==> states[j].shutWr == 1
  {
    EveryStateInv(states, events, i);
    EveryStateInv(states, events, j);
    EveryPairLater(states, events, i, j);
    if i < |events| {
      EveryStepOk(states, events, i);
    }
  }

  // ---- sends that come after SHUT_WR ----

  /** A queued message that meets a socket after SHUT_WR and an error which is no broken pipe. */
  predicate Refuses(c: Conn, e: Event)
  {
    && e.RunQueuedSend? && c.queued != [] && c.queued[0] != []
    && c.shutWr == 1 && c.state != Disconnected && c.output == []
    && e.w.WriteFailed? && !BrokenPipe(e.w.errno)
  }

  /**
   A queued send that runs after SHUT_WR calls write once and adds nothing to the wire: a broken pipe
   closes the connection, any other error keeps the message as backlog with EPOLLOUT watched, and
   only an empty message leaves the connection as it was.
   */
  lemma LateSendExactly(c: Conn, w: WriteResult)
    requires Inv(c) && Possible(c, RunQueuedSend(w)) && c.shutWr == 1 && c.state != Disconnected && c.output == []
    ensures Step(c, RunQueuedSend(w)).Ok?
    ensures var c' := Step(c, RunQueuedSend(w)).conn;
            && c'.writeCalls == c.writeCalls + 1 && c'.wire == c.wire && c'.shutWr == 1
            && (c'.state == Disconnected <==> w.WriteFailed? && BrokenPipe(w.errno))
            && (c'.state != Disconnected ==>
                  if Refuses(c, RunQueuedSend(w)) then c'.output == c.queued[0] && Writing(c') else c'.output == [])
  {
    var called := CallWrite(c.(queued := c.queued[1..], accepted := c.accepted + c.queued[0], handed := c.handed + [c.queued[0]]));
    if w.WriteFailed? && BrokenPipe(w.errno) {
      CloseExact(called);
    } else if c.queued[0] != [] {
      KeepRestExact(called, c.queued[0]);
    }
  }

  ghost predicate RefusedBefore(states: seq<Conn>, events: seq<Event>, j: nat)
    requires j <= |events| < |states|
  {
    exists k :: 0 <= k < j && Refuses(states[k], events[k])
  }

  /** Backlog after SHUT_WR comes from a refused message. */
  lemma {:induction false} LateBacklog(states: seq<Conn>, events: seq<Event>, j: nat)
    requires IsRun(states, events) && j < |states| && states[0].shutWr == 0
    requires states[j].shutWr == 1 && states[j].state != Disconnected && states[j].output != []
    ensures RefusedBefore(states, events, j)
  {
    if j == 0 {
      assert false;
    } else {
      var k := j - 1;
      NextLater(states, events, k);
      EveryStepOk(states, events, k);
      EveryStateInv(states, events, j);
      if states[k].shutWr == 1 && states[k].output != [] {
        LateBacklog(states, events, k);
      } else if states[k].shutWr == 1 {
        EveryStateInv(states, events, k);
        assert Follows(states[k], events[k], states[k + 1]);
        LateSendExactly(states[k], events[k].w);
        assert Refuses(states[k], events[k]);
      }
    }
  }

  /**
   Half-close, exactly: a closing connection has issued SHUT_WR if and only if it has no backlog or a
   queued message was refused, and kept, after SHUT_WR.
   */
  lemma HalfCloseExactly(states: seq<Conn>, events: seq<Event>, j: nat)
    requires IsRun(states, events) && j < |states| && states[0].shutWr == 0
    requires states[j].established && states[j].state == Disconnecting
    ensures states[j].shutWr == 1 <==> states[j].output == [] || RefusedBefore(states, events, j)
  {
    EveryStateInv(states, events, j);
    if states[j].shutWr == 1 && states[j].output != [] {
      LateBacklog(states, events, j);
    } else if RefusedBefore(states, events, j) {
      var k :| 0 <= k < j && Refuses(states[k], events[k]);
      EveryPairLater(states, events, k, j);
    }
  }

  /** The number of upward crossings of the mark by the backlog between two moments. */
  ghost function Crossings(states: seq<Conn>, i: nat, j: nat): nat
    requires i <= j < |states|
    decreases j
  {
    if i == j then 0
    else Crossings(states, i, j - 1) + (if Crosses(states[j - 1], states[j]) then 1 else 0)
  }

  /** High-water tasks are queued once per upward crossing, with the length reached. */
  lemma {:induction false} HighWaterPerCrossing(states: seq<Conn>, events: seq<Event>, i: nat, j: nat)
    requires IsRun(states, events) && i <= j < |states|
    ensures |states[j].highWaters| == |states[i].highWaters| + Crossings(states, i, j)
    decreases j
  {
    if i == j {
    } else {
      HighWaterPerCrossing(states, events, i, j - 1);
      NextHighWater(states, events, j - 1);
    }
  }

  lemma NextHighWater(states: seq<Conn>, events: seq<Event>, i: nat)
    requires IsRun(states, events) && i < |events|
    ensures states[i + 1].highWaters == states[i].highWaters
              + (if Crosses(states[i], states[i + 1]) then [|states[i + 1].output|] else [])
  {
    EveryStepOk(states, events, i);
  }

  /** Between two high-water notifications the backlog has dropped below the mark. */
  lemma DropBetweenHighWaters(states: seq<Conn>, events: seq<Event>, i: nat, j: nat)
    requires IsRun(states, events) && i < j < |events|
    requires |states[i].highWaters| < |states[i + 1].highWaters|
    requires |states[j].highWaters| < |states[j + 1].highWaters|
    ensures i + 1 < j
    ensures |states[i + 1].output| >= states[i].mark > |states[j].output|
  {
    NextHighWater(states, events, i);
    NextHighWater(states, events, j);
    EveryPairLater(states, events, i, j);
  }

  /**
   A write-complete task is queued exactly by the steps that complete a send, and then nothing
   accepted is missing from the wire.
   */
  lemma WriteCompleteExact(states: seq<Conn>, events: seq<Event>, i: nat)
    requires IsRun(states, events) && i < |events|
    ensures states[i + 1].writeCompletes == states[i].writeCompletes
              + (if states[i].writeCompleteSet && Completed(states[i], events[i], states[i + 1]) then 1 else 0)
    ensures states[i + 1].writeCompletes > states[i].writeCompletes ==> states[i + 1].wire == states[i + 1].accepted
  {
    EveryStepOk(states, events, i);
  }
}
