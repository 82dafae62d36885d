/** What every loop-thread run of a connection keeps, and what no run ever does. */
module ConnectionProofs {
  import opened Bytes
  import opened PollSpec
  import opened ConnectionSpec

  /** Bytes: nothing accepted is lost or reordered while the connection is up. */
  ghost predicate BytesInv(c: Conn)
  {
    && (c.state != Disconnected ==> c.accepted == c.wire + c.output)
    && c.wire <= c.accepted
    && c.accepted == Flatten(c.handed)
    && c.received == c.consumed + c.input
  }

  /** Interest: EPOLLOUT is watched exactly while there is backlog; the kernel agrees. */
  ghost predicate InterestInv(c: Conn)
  {
    && Agrees(c.reg)
    && (c.state != Disconnected ==> (Writing(c) <==> c.output != []))
    && (c.reg.events.pollIn ==> c.reg.events.pollPri)
    && (c.state == Disconnected ==> !c.reg.pooling)
    && (c.established && c.state != Disconnected ==> c.reg.pooling && c.reg.events.pollPri)
    && (!c.established ==> c.reg == FRESH_REG && c.output == [] && c.queued == [] && c.todo == [])
    && (c.state == Connecting ==> !c.established)
    && (c.state == Connected ==> c.established)
  }

  /** Half-close: a closing connection without backlog has issued SHUT_WR, and only a closing one has. */
  ghost predicate ShutdownInv(c: Conn)
  {
    && c.shutWr <= 1
    && (c.state == Connecting || c.state == Connected || !c.established ==> c.shutWr == 0)
    && (c.state == Disconnecting && c.established && c.output == [] ==> c.shutWr == 1)
    && c.closes == (if c.state == Disconnected then 1 else 0)
  }

  /** A write handler still to be dispatched finds EPOLLOUT watched, unless the connection is gone. */
  ghost predicate TodoInv(c: Conn)
  {
    && (forall i :: 0 <= i < |c.todo| && c.todo[i] == OnWrite ==> i == |c.todo| - 1)
    && (OnWrite in c.todo && c.state != Disconnected ==> Writing(c))
  }

  ghost predicate Inv(c: Conn)
  {
    BytesInv(c) && InterestInv(c) && ShutdownInv(c) && TodoInv(c)
  }

  /** A send that the kernel took whole, or the drain of a backlog. */
  predicate Completed(c: Conn, e: Event, c': Conn)
  {
    && c'.state != Disconnected && c'.output == []
    && (c.output != [] || (c'.handed != c.handed && (e.DoSend? || e.RunQueuedSend?) && e.w.Wrote?))
  }

  /** The backlog passes the mark from below. */
  predicate Crosses(c: Conn, c': Conn)
  {
    c.highWaterSet && |c.output| < c.mark <= |c'.output|
  }

  /** Nothing of the socket, its registration or the output side changes. */
  predicate OutputUntouched(c: Conn, c': Conn)
  {
    c' == c.(queued := c'.queued, todo := c'.todo, input := c'.input, consumed := c'.consumed)
  }

  /** What one step may do to a connection. */
  ghost predicate StepOk(c: Conn, e: Event, c': Conn)
  {
    && Rank(c.state) <= Rank(c'.state)
    && (c'.state != c.state && c'.state != Disconnected ==> e.DoEstablish? || e.DoShutdown?)
    && c.wire <= c'.wire && c.accepted <= c'.accepted && c.handed <= c'.handed
    && c.received <= c'.received && c.consumed <= c'.consumed
    && (c.established ==> c'.established)
    && c'.mark == c.mark && c'.highWaterSet == c.highWaterSet && c'.writeCompleteSet == c.writeCompleteSet
    && c.shutWr <= c'.shutWr
    && (c.shutWr == 1 ==> c'.wire == c.wire)
    && (c.shutWr < c'.shutWr ==> c'.wire == c'.accepted)
    && (c.shutWr == 1 && c.state != Disconnected && c'.output != c.output ==> e.RunQueuedSend?)
    && c'.closes == c.closes + (if c.state != Disconnected && c'.state == Disconnected then 1 else 0)
    && c'.writeCompletes == c.writeCompletes + (if c.writeCompleteSet && Completed(c, e, c') then 1 else 0)
    && (c.writeCompletes < c'.writeCompletes ==> c'.wire == c'.accepted)
    && c'.highWaters == c.highWaters + (if Crosses(c, c') then [|c'.output|] else [])
    && (c.state == Disconnected ==> OutputUntouched(c, c'))
    && (c.state == Disconnected && !e.Consume? ==> c'.input == c.input)
  }

  /** The step goes through, keeps the invariant and does nothing it may not do. */
  ghost predicate Good(c: Conn, e: Event, o: Outcome)
  {
    o.Ok? && Inv(o.conn) && StepOk(c, e, o.conn)
  }

  lemma InterestExact(c: Conn, i: Interest)
    requires Agrees(c.reg) && Adjust(c.reg.events, i) != NO_EVENTS
    ensures ChangeInterest(c, i) == Ok(c.(reg := Registered(Adjust(c.reg.events, i))))
  {
    ChangeExact(c.reg, i);
  }

  function Registered(m: EventMask): Reg { Reg(true, m, Some(m)) }

  lemma CloseExact(c: Conn)
    requires Agrees(c.reg) && (c.state == Connected || c.state == Disconnecting)
    ensures HandleClose(c) == Ok(c.(state := Disconnected, reg := Reg(false, c.reg.events, None), closes := c.closes + 1))
  {
    RemoveExact(c.reg);
  }

  lemma HandleCloseGood(c: Conn, e: Event)
    requires Inv(c) && (c.state == Connected || c.state == Disconnecting)
    ensures Good(c, e, HandleClose(c))
  {
    CloseExact(c);
  }

  /** A system call by itself is no step: only its count changes. */
  lemma ReframeCall(c: Conn, called: Conn, e: Event, o: Outcome)
    requires called == c.(writeCalls := called.writeCalls, readCalls := called.readCalls) && c.state != Disconnected
    requires Good(called, e, o)
    ensures Good(c, e, o)
  {
  }

  /** The high-water task queued when `rest` joins the backlog. */
  function Alarm(c: Conn, rest: seq<byte>): seq<nat>
  {
    if c.highWaterSet && |c.output| < c.mark <= |c.output| + |rest| then [|c.output| + |rest|] else []
  }

  lemma KeepRestExact(c: Conn, rest: seq<byte>)
    requires Agrees(c.reg) && rest != []
    ensures KeepRest(c, rest) == Ok(c.(output := c.output + rest,
                                       reg := Registered(c.reg.events.(pollOut := true)),
                                       highWaters := c.highWaters + Alarm(c, rest)))
  {
    InterestExact(c.(output := c.output + rest, highWaters := c.highWaters + Alarm(c, rest)), EnableWrite);
  }

  /** The conditions under which sendInLoop runs: send on a connected one, or a queued send. */
  predicate SendCall(c: Conn, data: seq<byte>, w: WriteResult, e: Event)
  {
    && c.established && WriteAnswer(c, |data|, w)
    && ((e.DoSend? && c.state == Connected) || e.RunQueuedSend?) && e.w == w
  }

  lemma SendInLoopGood(c: Conn, data: seq<byte>, w: WriteResult, e: Event)
    requires Inv(c) && SendCall(c, data, w, e)
    ensures Good(c, e, SendInLoop(c, data, w))
  {
    if c.state != Disconnected {
      FlattenSnoc(c.handed, data);
      if Writing(c) {
        SendBehindGood(c, data, w, e);
      } else if w.Wrote? {
        SendDirectGood(c, data, w, e);
      } else {
        SendRefusedGood(c, data, w, e);
      }
    }
  }

  /** sendInLoop leaves all but the first n bytes of `data` behind the backlog. */
  function Kept(c: Conn, data: seq<byte>, n: nat): Conn
    requires n <= |data|
  {
    c.(accepted := c.accepted + data, handed := c.handed + [data], wire := c.wire + data[..n],
       output := c.output + data[n..], reg := Registered(c.reg.events.(pollOut := true)),
       highWaters := c.highWaters + Alarm(c, data[n..]))
  }

  lemma KeptInv(c: Conn, data: seq<byte>, n: nat)
    requires Inv(c) && c.established && c.state != Disconnected
    requires n < |data| && (n > 0 ==> c.output == [])
    requires Flatten(c.handed + [data]) == c.accepted + data
    ensures Inv(Kept(c, data, n))
  {
    assert c.wire + c.output + data == c.wire + data[..n] + (c.output + data[n..]) by {
      assert data == data[..n] + data[n..];
    }
  }

  lemma KeptGood(c: Conn, data: seq<byte>, n: nat, w: WriteResult, e: Event)
    requires Inv(c) && SendCall(c, data, w, e) && c.state != Disconnected
    requires n < |data| && (n > 0 ==> c.output == [] && c.shutWr == 0)
    requires Flatten(c.handed + [data]) == c.accepted + data
    ensures Good(c, e, Ok(Kept(c, data, n)))
  {
    KeptInv(c, data, n);
    var c' := Kept(c, data, n);
    assert c'.output != [] && |c'.output| == |c.output| + |data[n..]|;
  }

  lemma SendBehindGood(c: Conn, data: seq<byte>, w: WriteResult, e: Event)
    requires Inv(c) && SendCall(c, data, w, e) && c.state != Disconnected && Writing(c)
    requires Flatten(c.handed + [data]) == c.accepted + data
    ensures Good(c, e, SendInLoop(c, data, w))
  {
    if data != [] {
      KeepRestExact(c.(accepted := c.accepted + data, handed := c.handed + [data]), data);
      assert SendInLoop(c, data, w) == Ok(Kept(c, data, 0));
      KeptGood(c, data, 0, w, e);
    }
  }

  lemma SendDirectGood(c: Conn, data: seq<byte>, w: WriteResult, e: Event)
    requires Inv(c) && SendCall(c, data, w, e) && c.state != Disconnected && !Writing(c) && w.Wrote?
    requires Flatten(c.handed + [data]) == c.accepted + data
    ensures Good(c, e, SendInLoop(c, data, w))
  {
    if w.n < |data| {
      var called := CallWrite(c);
      var sent := called.(accepted := c.accepted + data, handed := c.handed + [data], wire := c.wire + data[..w.n]);
      KeepRestExact(sent, data[w.n..]);
      assert SendInLoop(c, data, w) == Ok(Kept(called, data, w.n));
      KeptGood(called, data, w.n, w, e);
      ReframeCall(c, called, e, Ok(Kept(called, data, w.n)));
    } else {
      SendWholeGood(c, data, w, e);
    }
  }

  lemma SendWholeGood(c: Conn, data: seq<byte>, w: WriteResult, e: Event)
    requires Inv(c) && SendCall(c, data, w, e) && c.state != Disconnected && !Writing(c)
    requires w == Wrote(|data|)
    requires Flatten(c.handed + [data]) == c.accepted + data
    ensures Good(c, e, SendInLoop(c, data, w))
  {
    assert data[..|data|] == data;
  }

  lemma SendRefusedGood(c: Conn, data: seq<byte>, w: WriteResult, e: Event)
    requires Inv(c) && SendCall(c, data, w, e) && c.state != Disconnected && !Writing(c) && !w.Wrote?
    requires Flatten(c.handed + [data]) == c.accepted + data
    ensures Good(c, e, SendInLoop(c, data, w))
  {
    if BrokenPipe(w.errno) {
      SendBrokenGood(c, data, w, e);
    } else if data == [] {
      SendNothingGood(c, w, e);
    } else {
      SendKeptGood(c, data, w, e);
    }
  }

  /** Refused with an error that is no broken pipe: the whole message is kept, also after SHUT_WR. */
  lemma SendKeptGood(c: Conn, data: seq<byte>, w: WriteResult, e: Event)
    requires Inv(c) && SendCall(c, data, w, e) && c.state != Disconnected && !Writing(c)
    requires w.WriteFailed? && !BrokenPipe(w.errno) && data != []
    requires Flatten(c.handed + [data]) == c.accepted + data
    ensures Good(c, e, SendInLoop(c, data, w))
  {
    var called := CallWrite(c);
    KeepRestExact(called.(accepted := c.accepted + data, handed := c.handed + [data]), data);
    assert SendInLoop(c, data, w) == Ok(Kept(called, data, 0));
    KeptGood(called, data, 0, w, e);
    ReframeCall(c, called, e, Ok(Kept(called, data, 0)));
  }

  lemma SendNothingGood(c: Conn, w: WriteResult, e: Event)
    requires Inv(c) && SendCall(c, [], w, e) && c.state != Disconnected && !Writing(c)
    requires w.WriteFailed? && !BrokenPipe(w.errno)
    requires Flatten(c.handed + [[]]) == c.accepted + []
    ensures Good(c, e, SendInLoop(c, [], w))
  {
    assert c.accepted + [] == c.accepted;
  }

  lemma SendBrokenGood(c: Conn, data: seq<byte>, w: WriteResult, e: Event)
    requires Inv(c) && SendCall(c, data, w, e) && c.state != Disconnected && !Writing(c)
    requires w.WriteFailed? && BrokenPipe(w.errno)
    requires Flatten(c.handed + [data]) == c.accepted + data
    ensures Good(c, e, SendInLoop(c, data, w))
  {
    CloseExact(CallWrite(c.(accepted := c.accepted + data, handed := c.handed + [data])));
  }

  lemma HandleWriteGood(c: Conn, w: WriteResult, e: Event)
    requires Inv(c) && WriteAnswer(c, |c.output|, w) && e.Dispatch?
    requires c.state == Disconnected || Writing(c)
    requires OnWrite !in c.todo
    ensures Good(c, e, HandleWrite(c, w))
  {
    if c.state != Disconnected {
      match w {
        case WriteFailed(errno) =>
          if BrokenPipe(errno) {
            HandleCloseGood(CallWrite(c), e);
            ReframeCall(c, CallWrite(c), e, HandleClose(CallWrite(c)));
          }
        case Wrote(n) => DrainGood(c, n, e);
      }
    }
  }

  /** handleWrite after the kernel took the first n bytes of the backlog. */
  function AfterDrain(c: Conn, n: nat): Conn
    requires n <= |c.output|
  {
    CallWrite(c).(wire := c.wire + c.output[..n], output := c.output[n..])
  }

  lemma DrainGood(c: Conn, n: nat, e: Event)
    requires Inv(c) && e.Dispatch? && c.state != Disconnected && Writing(c) && c.established
    requires n <= |c.output| && OnWrite !in c.todo && c.shutWr == 0
    ensures Good(c, e, HandleWrite(c, Wrote(n)))
  {
    if n < |c.output| {
      DrainPartGood(c, n, e);
    } else {
      DrainAllGood(c, e);
    }
  }

  lemma DrainPartGood(c: Conn, n: nat, e: Event)
    requires Inv(c) && e.Dispatch? && c.state != Disconnected && Writing(c) && c.established
    requires n < |c.output| && OnWrite !in c.todo && c.shutWr == 0
    ensures Good(c, e, HandleWrite(c, Wrote(n)))
  {
    var sent := AfterDrain(c, n);
    assert c.accepted == sent.wire + sent.output;
    assert sent.output != [] && |sent.output| <= |c.output|;
  }

  lemma DrainAllGood(c: Conn, e: Event)
    requires Inv(c) && e.Dispatch? && c.state != Disconnected && Writing(c) && c.established
    requires OnWrite !in c.todo && c.shutWr == 0
    ensures Good(c, e, HandleWrite(c, Wrote(|c.output|)))
  {
    var sent := AfterDrain(c, |c.output|);
    assert c.accepted == sent.wire by {
      assert c.output[..|c.output|] == c.output;
    }
    InterestExact(sent, DisableWrite);
  }

  lemma ForceCloseGood(c: Conn)
    requires Inv(c)
    ensures Good(c, DoForceClose, ForceClose(c))
  {
    if c.state != Disconnected {
      CloseExact(c.(state := Disconnecting));
    }
  }

  lemma StopReadGood(c: Conn)
    requires Inv(c) && c.established && c.state != Disconnected
    ensures Good(c, DoStopRead, StopRead(c))
  {
    InterestExact(c, DisableRead);
  }

  lemma StartReadGood(c: Conn)
    requires Inv(c) && c.established && c.state != Disconnected
    ensures Good(c, DoStartRead, StartRead(c))
  {
    InterestExact(c, EnableRead);
  }

  lemma EstablishGood(c: Conn)
    requires Inv(c) && c.state == Connecting
    ensures Good(c, DoEstablish, Establish(c))
  {
    InterestExact(c.(state := Connected, established := true), EnableRead);
  }

  lemma HandlersShape(r: EventMask)
    ensures forall i :: 0 <= i < |Handlers(r)| && Handlers(r)[i] == OnWrite ==> i == |Handlers(r)| - 1
    ensures OnWrite in Handlers(r) <==> r.pollOut
  {
    var front := (if r.pollHup && !r.pollIn then [OnClose] else [])
                 + (if r.pollErr then [OnError] else [])
                 + (if r.pollIn || r.pollPri || r.pollRdHup then [OnRead] else []);
    assert Handlers(r) == front + (if r.pollOut then [OnWrite] else []);
    assert OnWrite !in front;
  }

  lemma UntouchedReframe(c: Conn, popped: Conn, c': Conn)
    requires popped == c.(todo := popped.todo, queued := popped.queued)
    requires OutputUntouched(popped, c')
    ensures OutputUntouched(c, c')
  {
  }

  /** Completion does not depend on the lists. */
  lemma CompletedReframe(c: Conn, popped: Conn, e: Event, c': Conn)
    requires popped == c.(todo := popped.todo, queued := popped.queued)
    ensures Completed(c, e, c') == Completed(popped, e, c') && Crosses(c, c') == Crosses(popped, c')
  {
  }

  /** Taking the next handler or queued send off its list is no step by itself. */
  lemma Reframe(c: Conn, popped: Conn, e: Event, c': Conn)
    requires popped == c.(todo := popped.todo, queued := popped.queued)
    requires StepOk(popped, e, c')
    ensures StepOk(c, e, c')
  {
    CompletedReframe(c, popped, e, c');
    if c.state == Disconnected {
      UntouchedReframe(c, popped, c');
    }
  }

  lemma PoppedInv(c: Conn, popped: Conn)
    requires Inv(c)
    requires popped == c.(todo := popped.todo, queued := popped.queued)
    requires popped.todo == c.todo || (c.todo != [] && popped.todo == c.todo[1..])
    requires popped.queued == c.queued || (c.queued != [] && popped.queued == c.queued[1..])
    ensures Inv(popped)
    ensures c.todo != [] && c.todo[0] == OnWrite && popped.todo == c.todo[1..] ==> OnWrite !in popped.todo
  {
    assert c.todo != [] ==> forall h :: h in c.todo[1..] ==> h in c.todo;
  }

  lemma HandleReadGood(c: Conn, r: ReadResult, e: Event)
    requires Inv(c) && e.Dispatch? && (c.state == Disconnected || c.established)
    ensures Good(c, e, HandleRead(c, r))
  {
    if c.state != Disconnected {
      if r.ReadFailed? || r.data == [] {
        HandleCloseGood(CallRead(c), e);
        ReframeCall(c, CallRead(c), e, HandleClose(CallRead(c)));
      } else {
        assert c.consumed + c.input + r.data == c.consumed + (c.input + r.data);
      }
    }
  }

  lemma DispatchGood(c: Conn, e: Event)
    requires Inv(c) && Possible(c, e) && !Misuse(c, e) && e.Dispatch?
    ensures Good(c, e, Step(c, e))
  {
    var popped := c.(todo := c.todo[1..]);
    PoppedInv(c, popped);
    match c.todo[0] {
      case OnClose => HandleCloseGood(popped, e);
      case OnError => HandleCloseGood(popped, e);
      case OnRead => HandleReadGood(popped, e.r, e);
      case OnWrite =>
        assert OnWrite in c.todo;
        HandleWriteGood(popped, e.w, e);
    }
    Reframe(c, popped, e, Step(c, e).conn);
  }

  lemma RunQueuedGood(c: Conn, e: Event)
    requires Inv(c) && Possible(c, e) && e.RunQueuedSend?
    ensures Good(c, e, Step(c, e))
  {
    var popped := c.(queued := c.queued[1..]);
    PoppedInv(c, popped);
    SendInLoopGood(popped, c.queued[0], e.w, e);
    Reframe(c, popped, e, Step(c, e).conn);
  }

  lemma PollGood(c: Conn, e: Event)
    requires Inv(c) && Possible(c, e) && e.Poll?
    ensures Good(c, e, Step(c, e))
  {
    HandlersShape(e.revents);
  }

  lemma ConsumeGood(c: Conn, e: Event)
    requires Inv(c) && Possible(c, e) && e.Consume?
    ensures Good(c, e, Step(c, e))
  {
    assert c.input == c.input[..e.n] + c.input[e.n..];
  }

  lemma QueueSendGood(c: Conn, e: Event)
    requires Inv(c) && Possible(c, e) && e.QueueSend?
    ensures Good(c, e, Step(c, e))
  {
  }

  lemma ShutdownGood(c: Conn)
    requires Inv(c) && c.state != Disconnected
    ensures Good(c, DoShutdown, Shutdown(c))
  {
  }

  lemma SendGood(c: Conn, e: Event)
    requires Inv(c) && Possible(c, e) && e.DoSend?
    ensures Good(c, e, Step(c, e))
  {
    if c.state == Connected {
      SendInLoopGood(c, e.data, e.w, e);
    }
  }

  /**
   Every event that can occur and is no misuse goes through: the asserts of handleWrite,
   sendInLoop and updateChannel never fail, the invariant is kept, and the step does only what
   StepOk allows.
   */
  lemma StepGood(c: Conn, e: Event)
    requires Inv(c) && Possible(c, e) && !Misuse(c, e)
    ensures Good(c, e, Step(c, e))
  {
    match e {
      case DoEstablish => EstablishGood(c);
      case DoSend(_, _) => SendGood(c, e);
      case QueueSend(_) => QueueSendGood(c, e);
      case RunQueuedSend(_) => RunQueuedGood(c, e);
      case DoShutdown => ShutdownGood(c);
      case DoForceClose => ForceCloseGood(c);
      case DoStopRead => StopReadGood(c);
      case DoStartRead => StartReadGood(c);
      case Consume(_) => ConsumeGood(c, e);
      case Poll(_) => PollGood(c, e);
      case Dispatch(_, _) => DispatchGood(c, e);
    }
  }

  /** An assert of the connection fails exactly in the misuses: the condition is the guard itself. */
  lemma AssertFailsExactlyOnMisuse(c: Conn, e: Event)
    requires Inv(c) && Possible(c, e)
    ensures Step(c, e) == AssertFailed <==> Misuse(c, e)
  {
    if !Misuse(c, e) {
      StepGood(c, e);
    }
  }
}
