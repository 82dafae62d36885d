/** Where the connection's promises stop: calls and reports that break them, with the exact conditions. */
module ConnectionLimits {
  import opened Bytes
  import opened PollSpec
  import opened ConnectionSpec
  import opened ConnectionProofs
  import opened ConnectionRuns

  /**
   A connection closed by anyone between the poll that reported an error and the dispatch of that
   report, by forceClose here, aborts at the dispatch.
   */
  lemma CloseBeforeDispatchAborts(c: Conn, revents: EventMask, r: ReadResult, w: WriteResult)
    requires Inv(c) && c.established && c.state != Disconnected && c.todo == []
    requires Reportable(revents, c.reg.events) && revents.pollErr && !(revents.pollHup && !revents.pollIn)
    ensures Possible(c, Poll(revents)) && Step(c, Poll(revents)).Ok?
    ensures var closed := ForceClose(Step(c, Poll(revents)).conn);
            closed.Ok? && Possible(closed.conn, Dispatch(r, w)) && Step(closed.conn, Dispatch(r, w)) == AssertFailed
  {
    var polled := c.(todo := Handlers(revents));
    CloseExact(polled.(state := Disconnecting));
    assert polled.todo[0] == OnError;
  }

  /** handleEventWithGuard run to its end with nothing in between. */
  function RunHandlers(c: Conn, handlers: seq<Handler>, r: ReadResult, w: WriteResult): Outcome
    requires w.Wrote? ==> w.n <= |c.output|
    decreases |handlers|
  {
    if handlers == [] then Ok(c)
    else
      var next :- RunHandler(c, handlers[0], r, w);
      if handlers[0] == OnWrite then Ok(next) else RunHandlers(next, handlers[1..], r, w)
  }

  /**
   A reported mask aborts the process exactly when it carries EPOLLHUP and EPOLLERR without
   EPOLLIN: handleClose is then reached twice.
   */
  lemma MaskAbortsExactly(c: Conn, revents: EventMask, r: ReadResult, w: WriteResult)
    requires Inv(c) && c.established && c.state != Disconnected
    requires c.todo == [] && Reportable(revents, c.reg.events) && WriteAnswer(c, |c.output|, w)
    ensures RunHandlers(c, Handlers(revents), r, w) == AssertFailed
            <==> revents.pollHup && revents.pollErr && !revents.pollIn
  {
    var onRead := revents.pollIn || revents.pollPri || revents.pollRdHup;
    if (revents.pollHup && !revents.pollIn) || revents.pollErr {
      ClosingMask(c, revents, r, w);
    } else {
      assert Handlers(revents) == (if onRead then [OnRead] else []) + (if revents.pollOut then [OnWrite] else []);
      TailWhileUp(c, onRead, revents.pollOut, r, w);
    }
  }

  lemma ClosingMask(c: Conn, revents: EventMask, r: ReadResult, w: WriteResult)
    requires Agrees(c.reg) && (c.state == Connected || c.state == Disconnecting)
    requires w.Wrote? ==> w.n <= |c.output|
    requires (revents.pollHup && !revents.pollIn) || revents.pollErr
    ensures RunHandlers(c, Handlers(revents), r, w) == AssertFailed
            <==> revents.pollHup && revents.pollErr && !revents.pollIn
  {
    var onRead := revents.pollIn || revents.pollPri || revents.pollRdHup;
    var tail := (if onRead then [OnRead] else []) + (if revents.pollOut then [OnWrite] else []);
    var closing := revents.pollHup && !revents.pollIn;
    var first := if closing then OnClose else OnError;
    var rest := if closing && revents.pollErr then [OnError] + tail else tail;
    assert Handlers(revents) == [first] + rest;
    CloseExact(c);
    var closed := HandleClose(c).conn;
    FirstCloses(c, first, rest, r, w);
    if closing && revents.pollErr {
      assert RunHandler(closed, OnError, r, w) == AssertFailed;
    } else {
      TailAfterClose(closed, onRead, revents.pollOut, r, w);
    }
  }

  lemma FirstCloses(c: Conn, first: Handler, rest: seq<Handler>, r: ReadResult, w: WriteResult)
    requires first == OnClose || first == OnError
    requires w.Wrote? ==> w.n <= |c.output|
    requires HandleClose(c).Ok?
    ensures w.Wrote? ==> w.n <= |HandleClose(c).conn.output|
    ensures RunHandlers(c, [first] + rest, r, w) == RunHandlers(HandleClose(c).conn, rest, r, w)
  {
    assert ([first] + rest)[1..] == rest;
  }

  lemma TailAfterClose(c: Conn, onRead: bool, onWrite: bool, r: ReadResult, w: WriteResult)
    requires c.state == Disconnected && (w.Wrote? ==> w.n <= |c.output|)
    ensures RunHandlers(c, (if onRead then [OnRead] else []) + (if onWrite then [OnWrite] else []), r, w) == Ok(c)
  {
    var tail := (if onRead then [OnRead] else []) + (if onWrite then [OnWrite] else []);
    if onRead {
      assert tail[1..] == if onWrite then [OnWrite] else [];
    }
  }

  lemma TailWhileUp(c: Conn, onRead: bool, onWrite: bool, r: ReadResult, w: WriteResult)
    requires Inv(c) && c.established && c.state != Disconnected && c.todo == []
    requires WriteAnswer(c, |c.output|, w) && (onWrite ==> Writing(c))
    ensures RunHandlers(c, (if onRead then [OnRead] else []) + (if onWrite then [OnWrite] else []), r, w).Ok?
  {
    var tail := (if onRead then [OnRead] else []) + (if onWrite then [OnWrite] else []);
    var e := Dispatch(r, w);
    if onRead {
      HandleReadGood(c, r, e);
      var next := HandleRead(c, r).conn;
      assert tail[1..] == if onWrite then [OnWrite] else [];
      if onWrite {
        HandleWriteGood(next, w, e);
      }
    } else if onWrite {
      HandleWriteGood(c, w, e);
    }
  }

  /** stateAtomicGetAndSet(kDisconnecting) by another thread, after its own load of the state. */
  function ForeignExchange(c: Conn): Conn
  {
    c.(state := Disconnecting)
  }

  /**
   The exchange keeps the invariant exactly when the connection is not closed yet and no SHUT_WR is
   due at once: a connected one without backlog is Disconnecting before its queued half-close has run.
   */
  lemma ForeignExchangeExact(c: Conn)
    requires Inv(c)
    ensures Inv(ForeignExchange(c)) <==> c.state != Disconnected && (c.state == Connected ==> c.output != [])
    ensures Rank(ForeignExchange(c).state) < Rank(c.state) <==> c.state == Disconnected
  {
    if c.state == Disconnected {
      assert ForeignExchange(c).closes == 1;
    } else if c.state == Connected && c.output == [] {
      assert ForeignExchange(c).shutWr == 0;
    }
  }

  /** Lost against a close, the exchange makes the connection look up again, and forceClose closes it a second time. */
  lemma LostRaceClosesTwice(c: Conn)
    requires Inv(c) && c.established && c.state != Disconnected
    ensures HandleClose(c).Ok?
    ensures var back := ForeignExchange(HandleClose(c).conn);
            && back.state != Disconnected && !back.reg.pooling
            && ForceClose(back).Ok? && ForceClose(back).conn.closes == 2
  {
    CloseExact(c);
    CloseExact(ForeignExchange(HandleClose(c).conn));
  }

  /**
   Disconnecting is visible, put there by another thread, and its shutdownInLoop has not run: but for
   the state this is a connected connection without backlog.
   */
  ghost predicate Announced(c: Conn)
  {
    c.state == Disconnecting && c.output == [] && Inv(Up(c))
  }

  function Up(c: Conn): Conn { c.(state := Connected) }

  /** The same outcome for a connection that is announced to disconnect. */
  function Lower(o: Outcome): Outcome
  {
    if o.Ok? && o.conn.state == Connected then Ok(ForeignExchange(o.conn)) else o
  }

  lemma InterestLowers(c: Conn, i: Interest)
    requires c.state == Disconnecting
    ensures ChangeInterest(c, i) == Lower(ChangeInterest(Up(c), i))
  {
  }

  lemma CloseLowers(c: Conn)
    requires c.state == Disconnecting
    ensures HandleClose(c) == Lower(HandleClose(Up(c)))
  {
  }

  lemma KeepRestLowers(c: Conn, rest: seq<byte>)
    requires c.state == Disconnecting
    ensures KeepRest(c, rest) == Lower(KeepRest(Up(c), rest))
  {
    InterestLowers(c.(output := c.output + rest, highWaters := c.highWaters + Alarm(c, rest)), EnableWrite);
  }

  /** sendInLoop has taken the message and tried the socket. */
  function AfterTaking(taken: Conn, data: seq<byte>, w: WriteResult): Outcome
    requires w.Wrote? ==> w.n <= |data|
  {
    if Writing(taken) then KeepRest(taken, data)
    else if taken.output != [] then AssertFailed
    else if w.Wrote? then AfterWriting(CallWrite(taken).(wire := taken.wire + data[..w.n]), data[w.n..])
    else if BrokenPipe(w.errno) then HandleClose(CallWrite(taken))
    else KeepRest(CallWrite(taken), data)
  }

  function AfterWriting(sent: Conn, rest: seq<byte>): Outcome
  {
    if rest == [] then Ok(NotifyWritten(sent)) else KeepRest(sent, rest)
  }

  lemma SendInParts(c: Conn, data: seq<byte>, w: WriteResult)
    requires c.state != Disconnected && (w.Wrote? ==> w.n <= |data|)
    ensures SendInLoop(c, data, w) == AfterTaking(c.(accepted := c.accepted + data, handed := c.handed + [data]), data, w)
  {
  }

  lemma WritingLowers(c: Conn, rest: seq<byte>)
    requires c.state == Disconnecting
    ensures AfterWriting(c, rest) == Lower(AfterWriting(Up(c), rest))
  {
    KeepRestLowers(c, rest);
  }

  lemma TakingLowers(c: Conn, data: seq<byte>, w: WriteResult)
    requires c.state == Disconnecting && (w.Wrote? ==> w.n <= |data|)
    ensures AfterTaking(c, data, w) == Lower(AfterTaking(Up(c), data, w))
  {
    var called := CallWrite(c);
    assert CallWrite(Up(c)) == Up(called);
    if Writing(c) {
      KeepRestLowers(c, data);
    } else if w.Wrote? {
      WritingLowers(called.(wire := c.wire + data[..w.n]), data[w.n..]);
    } else {
      CloseLowers(called);
      KeepRestLowers(called, data);
    }
  }

  lemma SendLowers(c: Conn, data: seq<byte>, w: WriteResult)
    requires c.state == Disconnecting && (w.Wrote? ==> w.n <= |data|)
    ensures SendInLoop(c, data, w) == Lower(SendInLoop(Up(c), data, w))
  {
    SendInParts(c, data, w);
    SendInParts(Up(c), data, w);
    TakingLowers(c.(accepted := c.accepted + data, handed := c.handed + [data]), data, w);
  }

  lemma HandlerLowers(c: Conn, h: Handler, r: ReadResult, w: WriteResult)
    requires c.state == Disconnecting && h != OnWrite
    ensures RunHandler(c, h, r, w) == Lower(RunHandler(Up(c), h, r, w))
  {
    CloseLowers(c);
  }

  lemma QuietLowers(c: Conn, e: Event)
    requires c.state == Disconnecting && Possible(c, e)
    requires e.QueueSend? || e.DoForceClose? || e.DoStopRead? || e.DoStartRead? || e.Consume? || e.Poll?
    ensures Possible(Up(c), e) && Step(c, e) == Lower(Step(Up(c), e))
  {
    InterestLowers(c, DisableRead);
    InterestLowers(c, EnableRead);
  }

  /** Until its backlog appears or it closes, an announced connection takes the steps of the connected one. */
  lemma AnnouncedLowers(c: Conn, e: Event)
    requires Announced(c) && Possible(c, e) && !Misuse(c, e) && !e.DoSend? && !e.DoShutdown?
    ensures Possible(Up(c), e) && !Misuse(Up(c), e) && Step(c, e) == Lower(Step(Up(c), e))
  {
    match e
    case RunQueuedSend(w) => SendLowers(c.(queued := c.queued[1..]), c.queued[0], w);
    case Dispatch(r, w) =>
      assert c.todo[0] in c.todo;
      HandlerLowers(c.(todo := c.todo[1..]), c.todo[0], r, w);
    case _ => QuietLowers(c, e);
  }

  /** The connection after the announcement, once it has had backlog or has closed. */
  ghost predicate Resolved(c: Conn)
  {
    Inv(c) && c.established && (c.state == Disconnecting || c.state == Disconnected)
  }

  lemma AnnouncedStep(c: Conn, e: Event)
    requires Announced(c) && Possible(c, e) && !Misuse(c, e)
    ensures Step(c, e).Ok?
    ensures Announced(Step(c, e).conn)
            || (Resolved(Step(c, e).conn) && (Step(c, e).conn.state != Disconnected ==> Step(c, e).conn.output != []))
  {
    if !e.DoSend? && !e.DoShutdown? {
      AnnouncedLowers(c, e);
      StepGood(Up(c), e);
      var up := Step(Up(c), e).conn;
      assert up.state == Connected || up.state == Disconnected;
      if up.state == Connected {
        ForeignExchangeExact(up);
      }
    }
  }

  /** Some moment up to j had backlog. */
  ghost predicate HadBacklog(states: seq<Conn>, j: nat)
    requires j < |states|
  {
    exists k :: 0 <= k <= j && states[k].output != []
  }

  lemma {:induction false} AfterAnnouncement(c: Conn, states: seq<Conn>, events: seq<Event>, j: nat)
    requires Inv(c) && c.state == Connected
    requires Chained(states, events) && states[0] == ForeignExchange(c) && j < |states|
    ensures (Announced(states[j]) && !HadBacklog(states, j))
            || (Resolved(states[j]) && (states[j].state != Disconnected ==> HadBacklog(states, j)))
  {
    if j == 0 {
      ForeignExchangeExact(c);
      assert Up(ForeignExchange(c)) == c;
    } else {
      var k := j - 1;
      AfterAnnouncement(c, states, events, k);
      assert Follows(states[k], events[k], states[k + 1]);
      if Announced(states[k]) && !HadBacklog(states, k) {
        AnnouncedStep(states[k], events[k]);
      } else {
        StepGood(states[k], events[k]);
      }
    }
  }

  /**
   shutdown from another thread, exactly: at whatever moment of whatever run the queued shutdownInLoop
   gets its turn, it is the second to issue SHUT_WR if and only if the connection is up, has no backlog
   now and had some since the call, for then the drain has issued it already; it issues the first one
   if and only if the connection is up and there has been no backlog at all.
   */
  lemma ForeignShutdownExactly(c: Conn, states: seq<Conn>, events: seq<Event>, j: nat)
    requires Inv(c) && c.state == Connected
    requires Chained(states, events) && states[0] == ForeignExchange(c) && j < |states|
    ensures var idle := states[j].state != Disconnected && states[j].output == [];
            && (ShutdownInLoop(states[j]).shutWr == 2 <==> idle && HadBacklog(states, j))
            && (ShutdownInLoop(states[j]).shutWr == 1 && states[j].shutWr == 0 <==> idle && !HadBacklog(states, j))
  {
    AfterAnnouncement(c, states, events, j);
  }

  /** In particular it is issued twice by the schedule that drains the backlog first, and only once by the one that does not. */
  lemma ForeignShutdownIssuesTwice(c: Conn)
    requires Inv(c) && c.state == Connected && c.output != []
    ensures ShutdownInLoop(ForeignExchange(c)) == ForeignExchange(c)
    ensures var drained := HandleWrite(ForeignExchange(c), Wrote(|c.output|));
            drained.Ok? && ShutdownInLoop(drained.conn).shutWr == 2
  {
    var x := ForeignExchange(c);
    InterestExact(x.(wire := x.wire + x.output, output := []), DisableWrite);
    assert x.output[..|x.output|] == x.output;
  }

  /**
   stopRead and startRead do not look at the state: on a closed connection, established or not, they
   register its socket again exactly when they change the mask.
   */
  lemma ReadSwitchAfterClose(c: Conn)
    requires Inv(c) && c.state == Disconnected
    ensures StartRead(c).Ok? && (StartRead(c).conn.reg.pooling <==> !c.reg.events.pollIn)
    ensures StopRead(c).Ok? && (StopRead(c).conn.reg.pooling <==> c.reg.events.pollIn)
  {
    InterestExact(c, EnableRead);
    if c.reg.events.pollIn {
      InterestExact(c, DisableRead);
    }
  }

  /**
   Nor do they ask whether the connection is established: startRead before connectEstablished registers
   the socket, and a read that then brings the end of file or an error, and only such a read, aborts.
   */
  lemma EarlyStartReadAborts(c: Conn, r: ReadResult)
    requires Inv(c) && c.state == Connecting
    ensures StopRead(c) == Ok(c)
    ensures StartRead(c).Ok? && StartRead(c).conn.reg.pooling
    ensures HandleRead(StartRead(c).conn, r) == AssertFailed <==> r.ReadFailed? || r.data == []
  {
    InterestExact(c, EnableRead);
  }
}
