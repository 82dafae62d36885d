/**
 The connection against what the kernel answered and the callers asked: bytes taken, delivered and
 consumed, the state, the reading interest, and the read handler that a poll calls for.
 */
module ConnectionLedger {
  import opened Bytes
  import opened PollSpec
  import opened ConnectionSpec
  import opened ConnectionProofs
  import opened ConnectionRuns
  import opened ConnectionBooks
  import opened ConnectionCalls

  // ---- bytes ----

  /** How many bytes the kernel says it took. */
  function TakenBy(c: Conn, e: Event): nat
  {
    if CallsWrite(c, e) && e.w.Wrote? then e.w.n else 0
  }

  /** The bytes the kernel delivered. */
  function DeliveredBy(c: Conn, e: Event): seq<byte>
  {
    if CallsRead(c, e) && e.r.Arrived? then e.r.data else []
  }

  function ConsumedBy(e: Event): nat
  {
    if e.Consume? then e.n else 0
  }

  predicate BytesMove(c: Conn, e: Event, c': Conn)
  {
    && |c'.wire| == |c.wire| + TakenBy(c, e)
    && c'.received == c.received + DeliveredBy(c, e)
    && |c'.consumed| == |c.consumed| + ConsumedBy(e)
  }

  lemma SendMoves(c: Conn, e: Event)
    requires Possible(c, e) && Step(c, e).Ok? && e.DoSend?
    ensures BytesMove(c, e, Step(c, e).conn)
  {
    assert c.received + [] == c.received;
    if c.state == Connected {
      SendBooks(c, e.data, e.w);
    }
  }

  lemma QueuedMoves(c: Conn, e: Event)
    requires Possible(c, e) && Step(c, e).Ok? && e.RunQueuedSend?
    ensures BytesMove(c, e, Step(c, e).conn)
  {
    assert c.received + [] == c.received;
    if c.state != Disconnected {
      SendBooks(c.(queued := c.queued[1..]), c.queued[0], e.w);
    }
  }

  lemma DispatchMoves(c: Conn, e: Event)
    requires Possible(c, e) && Step(c, e).Ok? && e.Dispatch?
    ensures BytesMove(c, e, Step(c, e).conn)
  {
    assert c.received + [] == c.received;
    HandlerBooks(c.(todo := c.todo[1..]), c.todo[0], e.r, e.w);
  }

  lemma QuietMoves(c: Conn, e: Event, c': Conn)
    requires SameBooks(c, c') && !e.DoSend? && !e.RunQueuedSend? && !e.Dispatch? && !e.Consume?
    ensures BytesMove(c, e, c')
  {
    assert c.received + [] == c.received;
  }

  lemma StepBytes(c: Conn, e: Event)
    requires Possible(c, e) && Step(c, e).Ok?
    ensures BytesMove(c, e, Step(c, e).conn)
  {
    match e
    case DoSend(_, _) => SendMoves(c, e);
    case QueueSend(_) => assert c.received + [] == c.received;
    case RunQueuedSend(_) => QueuedMoves(c, e);
    case Consume(_) => assert c.received + [] == c.received;
    case Poll(_) => assert c.received + [] == c.received;
    case Dispatch(_, _) => DispatchMoves(c, e);
    case _ =>
      QuietBooks(c, e);
      QuietMoves(c, e, Step(c, e).conn);
  }

  ghost function TakenBetween(states: seq<Conn>, events: seq<Event>, i: nat, j: nat): nat
    requires i <= j <= |events| < |states|
    decreases j
  {
    if i == j then 0 else TakenBetween(states, events, i, j - 1) + TakenBy(states[j - 1], events[j - 1])
  }

  ghost function DeliveredBetween(states: seq<Conn>, events: seq<Event>, i: nat, j: nat): seq<byte>
    requires i <= j <= |events| < |states|
    decreases j
  {
    if i == j then [] else DeliveredBetween(states, events, i, j - 1) + DeliveredBy(states[j - 1], events[j - 1])
  }

  ghost function ConsumedBetween(events: seq<Event>, i: nat, j: nat): nat
    requires i <= j <= |events|
    decreases j
  {
    if i == j then 0 else ConsumedBetween(events, i, j - 1) + ConsumedBy(events[j - 1])
  }

  lemma {:induction false} BytesBetween(states: seq<Conn>, events: seq<Event>, i: nat, j: nat)
    requires Chained(states, events) && i <= j < |states|
    ensures |states[j].wire| == |states[i].wire| + TakenBetween(states, events, i, j)
    ensures states[j].received == states[i].received + DeliveredBetween(states, events, i, j)
    ensures |states[j].consumed| == |states[i].consumed| + ConsumedBetween(events, i, j)
    decreases j
  {
    if i == j {
    } else {
      var k := j - 1;
      BytesBetween(states, events, i, k);
      assert Follows(states[k], events[k], states[k + 1]);
      StepBytes(states[k], events[k]);
      Associative(states[i].received, DeliveredBetween(states, events, i, k), DeliveredBy(states[k], events[k]));
    }
  }

  /**
   Between any two moments of any run the wire grows by exactly the number of bytes that write
   reported, and, while the connection is up, what is left of the accepted bytes is the backlog; what
   readv delivered, and no other byte, is consumed or in the input buffer, in order.
   */
  lemma KernelAnswersExactly(states: seq<Conn>, events: seq<Event>, i: nat, j: nat)
    requires IsRun(states, events) && i <= j < |states|
    ensures |states[j].wire| == |states[i].wire| + TakenBetween(states, events, i, j)
    ensures |states[j].wire| <= |states[j].accepted|
    ensures states[j].state != Disconnected ==>
              states[j].output == states[j].accepted[|states[i].wire| + TakenBetween(states, events, i, j)..]
    ensures states[j].consumed + states[j].input == states[i].received + DeliveredBetween(states, events, i, j)
    ensures |states[j].consumed| == |states[i].consumed| + ConsumedBetween(events, i, j)
  {
    BytesBetween(states, events, i, j);
    OutputConservation(states, events, j, j);
    ReceiveConservation(states, events, j, j);
  }

  // ---- the state ----

  predicate Broken(w: WriteResult)
  {
    w == WriteFailed(EPIPE) || w == WriteFailed(ECONNRESET)
  }

  /** What closes a connection that is up. */
  predicate ClosedBy(c: Conn, e: Event)
  {
    && c.state != Disconnected
    && match e
       case DoForceClose => true
       case DoSend(_, w) => CallsWrite(c, e) && Broken(w)
       case RunQueuedSend(w) => CallsWrite(c, e) && Broken(w)
       case Dispatch(r, w) =>
         c.todo != [] && (
           match c.todo[0]
           case OnClose => true
           case OnError => true
           case OnRead => r == ReadFailed || r == Arrived([])
           case OnWrite => Broken(w))
       case _ => false
  }

  function StateAfter(c: Conn, e: Event): ConnectState
  {
    if ClosedBy(c, e) then Disconnected
    else
      match e
      case DoEstablish => Connected
      case DoShutdown => Disconnecting
      case _ => c.state
  }

  lemma InterestState(c: Conn, i: Interest)
    ensures ChangeInterest(c, i).Ok? ==> ChangeInterest(c, i).conn.state == c.state
  {
  }

  lemma KeepRestState(c: Conn, rest: seq<byte>)
    ensures KeepRest(c, rest).Ok? ==> KeepRest(c, rest).conn.state == c.state
  {
    if rest != [] {
      InterestState(c.(output := c.output + rest, highWaters := c.highWaters + Alarm(c, rest)), EnableWrite);
    }
  }

  lemma SendState(c: Conn, data: seq<byte>, w: WriteResult)
    requires c.state != Disconnected && (w.Wrote? ==> w.n <= |data|) && SendInLoop(c, data, w).Ok?
    ensures SendInLoop(c, data, w).conn.state == if !Writing(c) && Broken(w) then Disconnected else c.state
  {
    var taken := c.(accepted := c.accepted + data, handed := c.handed + [data]);
    if Writing(c) {
      KeepRestState(taken, data);
    } else if w.WriteFailed? {
      KeepRestState(CallWrite(taken), data);
    } else if w.n < |data| {
      KeepRestState(CallWrite(taken).(wire := c.wire + data[..w.n]), data[w.n..]);
    }
  }

  lemma WriteState(c: Conn, w: WriteResult)
    requires c.state != Disconnected && (w.Wrote? ==> w.n <= |c.output|) && HandleWrite(c, w).Ok?
    ensures HandleWrite(c, w).conn.state == if Broken(w) then Disconnected else c.state
  {
    if w.Wrote? {
      InterestState(CallWrite(c).(wire := c.wire + c.output[..w.n], output := c.output[w.n..]), DisableWrite);
    }
  }

  lemma HandlerState(c: Conn, e: Event)
    requires Possible(c, e) && Step(c, e).Ok? && e.Dispatch?
    ensures Step(c, e).conn.state == StateAfter(c, e)
  {
    if c.state != Disconnected && c.todo[0] == OnWrite {
      WriteState(c.(todo := c.todo[1..]), e.w);
    }
  }

  lemma SendingState(c: Conn, e: Event)
    requires Possible(c, e) && Step(c, e).Ok? && (e.DoSend? || e.RunQueuedSend?)
    ensures Step(c, e).conn.state == StateAfter(c, e)
  {
    if e.DoSend? && c.state == Connected {
      SendState(c, e.data, e.w);
    } else if e.RunQueuedSend? && c.state != Disconnected {
      SendState(c.(queued := c.queued[1..]), c.queued[0], e.w);
    }
  }

  /** At every step of every run the next state is the one the event calls for: close exactly on the listed causes. */
  lemma StateExactly(states: seq<Conn>, events: seq<Event>, k: nat)
    requires Chained(states, events) && k < |events|
    ensures states[k + 1].state == StateAfter(states[k], events[k])
  {
    assert Follows(states[k], events[k], states[k + 1]);
    var c, e := states[k], events[k];
    match e
    case DoSend(_, _) => SendingState(c, e);
    case RunQueuedSend(_) => SendingState(c, e);
    case Dispatch(_, _) => HandlerState(c, e);
    case DoEstablish => InterestState(c.(state := Connected, established := true), EnableRead);
    case DoStopRead => InterestState(c, DisableRead);
    case DoStartRead => InterestState(c, EnableRead);
    case _ =>
  }

  // ---- reading interest ----

  predicate ReadingAfter(reading: bool, e: Event)
  {
    e.DoEstablish? || e.DoStartRead? || (reading && !e.DoStopRead?)
  }

  lemma InterestReading(c: Conn, i: Interest)
    ensures ChangeInterest(c, i).Ok? ==>
              (ChangeInterest(c, i).conn.reg.events.pollIn <==> i == EnableRead || (c.reg.events.pollIn && i != DisableRead && i != DisableAll))
  {
    InterestBits(c.reg.events, i);
  }

  lemma CloseReading(c: Conn)
    ensures HandleClose(c).Ok? ==> HandleClose(c).conn.reg.events == c.reg.events
  {
  }

  lemma KeepRestReading(c: Conn, rest: seq<byte>)
    ensures KeepRest(c, rest).Ok? ==> KeepRest(c, rest).conn.reg.events.pollIn == c.reg.events.pollIn
  {
    if rest != [] {
      InterestReading(c.(output := c.output + rest, highWaters := c.highWaters + Alarm(c, rest)), EnableWrite);
    }
  }

  lemma SendReading(c: Conn, data: seq<byte>, w: WriteResult)
    requires c.state != Disconnected && (w.Wrote? ==> w.n <= |data|) && SendInLoop(c, data, w).Ok?
    ensures SendInLoop(c, data, w).conn.reg.events.pollIn == c.reg.events.pollIn
  {
    var taken := c.(accepted := c.accepted + data, handed := c.handed + [data]);
    if Writing(c) {
      KeepRestReading(taken, data);
    } else if w.WriteFailed? {
      CloseReading(CallWrite(taken));
      KeepRestReading(CallWrite(taken), data);
    } else if w.n < |data| {
      KeepRestReading(CallWrite(taken).(wire := c.wire + data[..w.n]), data[w.n..]);
    }
  }

  lemma HandlerReading(c: Conn, h: Handler, r: ReadResult, w: WriteResult)
    requires (h == OnWrite && w.Wrote? ==> w.n <= |c.output|) && RunHandler(c, h, r, w).Ok?
    ensures RunHandler(c, h, r, w).conn.reg.events.pollIn == c.reg.events.pollIn
  {
    if h == OnWrite && c.state != Disconnected {
      WriteReading(c, w);
    } else if h == OnRead {
      CloseReading(CallRead(c));
    } else {
      CloseReading(c);
    }
  }

  lemma WriteReading(c: Conn, w: WriteResult)
    requires c.state != Disconnected && (w.Wrote? ==> w.n <= |c.output|) && HandleWrite(c, w).Ok?
    ensures HandleWrite(c, w).conn.reg.events.pollIn == c.reg.events.pollIn
  {
    if w.WriteFailed? {
      CloseReading(CallWrite(c));
    } else {
      InterestReading(CallWrite(c).(wire := c.wire + c.output[..w.n], output := c.output[w.n..]), DisableWrite);
    }
  }

  lemma SendingReading(c: Conn, e: Event)
    requires Possible(c, e) && Step(c, e).Ok? && (e.DoSend? || e.RunQueuedSend?)
    ensures Step(c, e).conn.reg.events.pollIn == c.reg.events.pollIn
  {
    if e.DoSend? && c.state == Connected {
      SendReading(c, e.data, e.w);
    } else if e.RunQueuedSend? && c.state != Disconnected {
      SendReading(c.(queued := c.queued[1..]), c.queued[0], e.w);
    }
  }

  lemma StepReading(c: Conn, e: Event)
    requires Possible(c, e) && Step(c, e).Ok?
    ensures Step(c, e).conn.reg.events.pollIn <==> ReadingAfter(c.reg.events.pollIn, e)
  {
    match e
    case DoEstablish => InterestReading(c.(state := Connected, established := true), EnableRead);
    case DoStopRead => InterestReading(c, DisableRead);
    case DoStartRead => InterestReading(c, EnableRead);
    case DoForceClose => CloseReading(c.(state := Disconnecting));
    case DoSend(_, _) => SendingReading(c, e);
    case RunQueuedSend(_) => SendingReading(c, e);
    case Dispatch(r, w) => HandlerReading(c.(todo := c.todo[1..]), c.todo[0], r, w);
    case _ =>
  }

  /** Whether reading was last switched on: by connectEstablished or startRead, and off by stopRead. */
  ghost predicate ReadingAsked(events: seq<Event>, j: nat, initially: bool)
    requires j <= |events|
    decreases j
  {
    if j == 0 then initially else ReadingAfter(ReadingAsked(events, j - 1, initially), events[j - 1])
  }

  /** isReading() is at every moment what was last asked for, whatever sends, drains and closes do. */
  lemma {:induction false} ReadingExactly(states: seq<Conn>, events: seq<Event>, j: nat)
    requires Chained(states, events) && j < |states|
    ensures states[j].reg.events.pollIn <==> ReadingAsked(events, j, states[0].reg.events.pollIn)
  {
    if j == 0 {
    } else {
      var k := j - 1;
      ReadingExactly(states, events, k);
      assert Follows(states[k], events[k], states[k + 1]);
      StepReading(states[k], events[k]);
    }
  }

  // ---- what a poll calls for ----

  function TodoAfter(c: Conn, e: Event): seq<Handler>
  {
    match e
    case Poll(revents) => Handlers(revents)
    case Dispatch(_, _) => if c.todo == [] then [] else c.todo[1..]
    case _ => c.todo
  }

  lemma StepTodo(c: Conn, e: Event)
    requires Possible(c, e) && Step(c, e).Ok?
    ensures Step(c, e).conn.todo == TodoAfter(c, e)
  {
    match e
    case DoSend(data, w) => if c.state == Connected { SendBooks(c, data, w); }
    case RunQueuedSend(w) => QueuedTodo(c, w);
    case Dispatch(r, w) => HandlerBooks(c.(todo := c.todo[1..]), c.todo[0], r, w);
    case QueueSend(_) =>
    case Consume(_) =>
    case Poll(_) =>
    case _ => QuietBooks(c, e);
  }

  lemma QueuedTodo(c: Conn, w: WriteResult)
    requires Possible(c, RunQueuedSend(w)) && Step(c, RunQueuedSend(w)).Ok?
    ensures Step(c, RunQueuedSend(w)).conn.todo == c.todo
  {
    if c.state != Disconnected {
      SendBooks(c.(queued := c.queued[1..]), c.queued[0], w);
    }
  }

  function ReadsDue(todo: seq<Handler>): nat
  {
    multiset(todo)[OnRead]
  }

  lemma ReadsDueStep(todo: seq<Handler>)
    requires todo != []
    ensures ReadsDue(todo) == One(todo[0] == OnRead) + ReadsDue(todo[1..])
  {
    assert todo == [todo[0]] + todo[1..];
  }

  lemma ReadsDueAfterPoll(r: EventMask)
    ensures ReadsDue(Handlers(r)) == One(r.pollIn || r.pollPri || r.pollRdHup)
  {
    HandlersExact(r);
    AtMostOnce(Handlers(r));
  }

  lemma {:induction false} AtMostOnce(hs: seq<Handler>)
    requires InOrder(hs)
    ensures ReadsDue(hs) == One(OnRead in hs)
  {
    if hs == [] {
    } else {
      ReadsDueStep(hs);
      AtMostOnce(hs[1..]);
      assert hs == [hs[0]] + hs[1..];
      assert forall h :: h in hs[1..] ==> Precedes(hs[0], h);
    }
  }

  /** A step that neither polls nor closes turns a read that is due into a call, or leaves it due. */
  lemma ReadsDueMoves(states: seq<Conn>, events: seq<Event>, k: nat)
    requires Chained(states, events) && k < |events| && !events[k].Poll? && states[k].state != Disconnected
    ensures states[k + 1].readCalls + ReadsDue(states[k + 1].todo) == states[k].readCalls + ReadsDue(states[k].todo)
  {
    assert Follows(states[k], events[k], states[k + 1]);
    var c, e := states[k], events[k];
    StepTodo(c, e);
    StepCalls(c, e);
    if e.Dispatch? {
      ReadsDueStep(c.todo);
    }
  }

  lemma {:induction false} ReadsDueKept(states: seq<Conn>, events: seq<Event>, i: nat, j: nat)
    requires IsRun(states, events) && i <= j < |states| && states[j].state != Disconnected
    requires forall k :: i <= k < j ==> !events[k].Poll?
    ensures states[j].readCalls + ReadsDue(states[j].todo) == states[i].readCalls + ReadsDue(states[i].todo)
    decreases j
  {
    if i == j {
    } else {
      var k := j - 1;
      NextLater(states, events, k);
      ReadsDueKept(states, events, i, k);
      ReadsDueMoves(states, events, k);
    }
  }

  /**
   A poll that reports EPOLLIN, EPOLLPRI or EPOLLRDHUP leads to exactly one readv, and any other to
   none, once its handlers have been dispatched, whatever happens in between short of a close.
   */
  lemma OneReadPerReport(states: seq<Conn>, events: seq<Event>, i: nat, j: nat)
    requires IsRun(states, events) && i < j < |states| && events[i].Poll?
    requires forall k :: i < k < j ==> !events[k].Poll?
    requires states[j].todo == [] && states[j].state != Disconnected
    ensures var r := events[i].revents;
            states[j].readCalls == states[i].readCalls + One(r.pollIn || r.pollPri || r.pollRdHup)
  {
    assert Follows(states[i], events[i], states[i + 1]);
    StepTodo(states[i], events[i]);
    StepCalls(states[i], events[i]);
    ReadsDueAfterPoll(events[i].revents);
    ReadsDueKept(states, events, i + 1, j);
  }
}
