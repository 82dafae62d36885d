/** Sends from the loop thread and, through the task queue, from other threads: one stream on the wire. */
module ConnectionStreams {
  import opened Bytes
  import opened PollSpec
  import opened ConnectionSpec
  import opened ConnectionProofs
  import opened ConnectionRuns
  import opened ConnectionBooks

  /** A message handed to sendInLoop: by send on the loop thread, or by a task that another thread queued. */
  datatype Sent = Sent(local: bool, data: seq<byte>)

  function Data(sent: seq<Sent>): (d: seq<seq<byte>>)
    ensures |d| == |sent|
    ensures forall i :: 0 <= i < |sent| ==> d[i] == sent[i].data
  {
    seq(|sent|, i requires 0 <= i < |sent| => sent[i].data)
  }

  lemma DataConcat(a: seq<Sent>, b: seq<Sent>)
    ensures Data(a + b) == Data(a) + Data(b)
  {
  }

  /** The messages among them that came through the queue. */
  function FromQueue(sent: seq<Sent>): seq<seq<byte>>
  {
    if sent == [] then []
    else
      var last := sent[|sent| - 1];
      FromQueue(sent[..|sent| - 1]) + (if last.local then [] else [last.data])
  }

  lemma FromQueueSnoc(sent: seq<Sent>, m: Sent)
    ensures FromQueue(sent + [m]) == FromQueue(sent) + (if m.local then [] else [m.data])
  {
    assert (sent + [m])[..|sent|] == sent;
  }

  // ---- what one event does to the queue and to the messages handed over ----

  /** send on the loop thread is refused unless connected; a queued send unless disconnected. */
  function SentBy(c: Conn, e: Event): seq<Sent>
  {
    match e
    case DoSend(data, _) => if c.state == Connected then [Sent(true, data)] else []
    case RunQueuedSend(_) => if c.queued != [] && c.state != Disconnected then [Sent(false, c.queued[0])] else []
    case _ => []
  }

  function PoppedBy(c: Conn, e: Event): seq<seq<byte>>
  {
    if e.RunQueuedSend? && c.queued != [] then [c.queued[0]] else []
  }

  function SubmittedBy(e: Event): seq<seq<byte>>
  {
    if e.QueueSend? then [e.data] else []
  }

  /** The queue loses its head to a queued send, gains a submitted message at its tail, and nothing else. */
  predicate QueueMoves(c: Conn, e: Event, c': Conn)
  {
    && c'.handed == c.handed + Data(SentBy(c, e))
    && PoppedBy(c, e) + c'.queued == c.queued + SubmittedBy(e)
  }

  lemma SendMoves(c: Conn, e: Event)
    requires Possible(c, e) && Step(c, e).Ok? && e.DoSend?
    ensures QueueMoves(c, e, Step(c, e).conn)
  {
    if c.state == Connected {
      SendBooks(c, e.data, e.w);
      assert Data([Sent(true, e.data)]) == [e.data];
    }
  }

  lemma RunQueuedMoves(c: Conn, e: Event)
    requires Possible(c, e) && Step(c, e).Ok? && e.RunQueuedSend?
    ensures QueueMoves(c, e, Step(c, e).conn)
  {
    assert c.queued == [c.queued[0]] + c.queued[1..];
    if c.state != Disconnected {
      SendBooks(c.(queued := c.queued[1..]), c.queued[0], e.w);
      assert Data([Sent(false, c.queued[0])]) == [c.queued[0]];
    }
  }

  lemma UntouchedMoves(c: Conn, e: Event, c': Conn)
    requires c'.handed == c.handed && c'.queued == c.queued && !e.DoSend? && !e.QueueSend? && !e.RunQueuedSend?
    ensures QueueMoves(c, e, c')
  {
  }

  lemma QueueStep(c: Conn, e: Event)
    requires Possible(c, e) && Step(c, e).Ok?
    ensures QueueMoves(c, e, Step(c, e).conn)
  {
    match e
    case DoSend(_, _) => SendMoves(c, e);
    case QueueSend(_) =>
    case Consume(_) =>
    case Poll(_) =>
    case RunQueuedSend(_) => RunQueuedMoves(c, e);
    case Dispatch(r, w) =>
      HandlerBooks(c.(todo := c.todo[1..]), c.todo[0], r, w);
      UntouchedMoves(c, e, Step(c, e).conn);
    case _ =>
      QuietBooks(c, e);
      UntouchedMoves(c, e, Step(c, e).conn);
  }

  /** On a connection that is up, what is taken off the queue is handed over. */
  lemma PoppedStep(c: Conn, e: Event, sent: seq<Sent>)
    requires c.state != Disconnected
    ensures FromQueue(sent + SentBy(c, e)) == FromQueue(sent) + PoppedBy(c, e)
  {
    var m := SentBy(c, e);
    if m == [] {
      assert sent + m == sent;
    } else {
      FromQueueSnoc(sent, m[0]);
    }
  }

  // ---- runs ----

  /** The messages other threads have queued up to moment j, in queue order. */
  ghost function Submitted(events: seq<Event>, j: nat): seq<seq<byte>>
    requires j <= |events|
    decreases j
  {
    if j == 0 then [] else Submitted(events, j - 1) + SubmittedBy(events[j - 1])
  }

  /** The messages taken off the queue up to moment j. */
  ghost function Popped(states: seq<Conn>, events: seq<Event>, j: nat): seq<seq<byte>>
    requires j <= |events| < |states|
    decreases j
  {
    if j == 0 then [] else Popped(states, events, j - 1) + PoppedBy(states[j - 1], events[j - 1])
  }

  /** The messages handed to sendInLoop up to moment j, in the order of the events. */
  ghost function SentUpTo(states: seq<Conn>, events: seq<Event>, j: nat): seq<Sent>
    requires j <= |events| < |states|
    decreases j
  {
    if j == 0 then [] else SentUpTo(states, events, j - 1) + SentBy(states[j - 1], events[j - 1])
  }

  /** On every run, closed or not: messages leave the queue once each, in the order of submission. */
  lemma {:induction false} QueueConserved(states: seq<Conn>, events: seq<Event>, j: nat)
    requires Chained(states, events) && j < |states| && states[0].queued == []
    ensures Popped(states, events, j) + states[j].queued == Submitted(events, j)
  {
    if j == 0 {
    } else {
      var k := j - 1;
      QueueConserved(states, events, k);
      assert Follows(states[k], events[k], states[k + 1]);
      QueueStep(states[k], events[k]);
      Shift(Popped(states, events, k), PoppedBy(states[k], events[k]), states[j].queued,
            states[k].queued, SubmittedBy(events[k]));
    }
  }

  lemma Shift<T>(done: seq<T>, popped: seq<T>, queue': seq<T>, queue: seq<T>, added: seq<T>)
    requires popped + queue' == queue + added
    ensures done + popped + queue' == done + queue + added
  {
    Associative(done, popped, queue');
    Associative(done, queue, added);
  }

  /** sendInLoop is handed the sends accepted on the loop thread and the queued ones, in event order. */
  lemma {:induction false} HandedInOrder(states: seq<Conn>, events: seq<Event>, j: nat)
    requires Chained(states, events) && j < |states| && states[0].handed == []
    ensures states[j].handed == Data(SentUpTo(states, events, j))
  {
    if j == 0 {
    } else {
      var k := j - 1;
      HandedInOrder(states, events, k);
      assert Follows(states[k], events[k], states[k + 1]);
      QueueStep(states[k], events[k]);
      DataConcat(SentUpTo(states, events, k), SentBy(states[k], events[k]));
    }
  }

  lemma ListsStep(states: seq<Conn>, events: seq<Event>, k: nat)
    requires k < |events| < |states|
    ensures SentUpTo(states, events, k + 1) == SentUpTo(states, events, k) + SentBy(states[k], events[k])
    ensures Popped(states, events, k + 1) == Popped(states, events, k) + PoppedBy(states[k], events[k])
  {
  }

  lemma UpBefore(states: seq<Conn>, events: seq<Event>, k: nat)
    requires IsRun(states, events) && k < |events| && states[k + 1].state != Disconnected
    ensures states[k].state != Disconnected
  {
    EveryPairLater(states, events, k, k + 1);
  }

  /** While the connection is up, no message taken off the queue has been refused. */
  lemma {:induction false} PoppedAreSent(states: seq<Conn>, events: seq<Event>, j: nat)
    requires IsRun(states, events) && j < |states| && states[j].state != Disconnected
    ensures FromQueue(SentUpTo(states, events, j)) == Popped(states, events, j)
  {
    if j == 0 {
    } else {
      var k := j - 1;
      UpBefore(states, events, k);
      PoppedAreSent(states, events, k);
      ListsStep(states, events, k);
      PoppedStep(states[k], events[k], SentUpTo(states, events, k));
    }
  }

  /**
   End to end, whoever sends: what sendInLoop accepted is the concatenation of the messages handed to
   it in event order; while the connection is up, wire and backlog together are exactly that, and the
   queued messages among them, followed by those still in the queue, are exactly the messages that
   other threads submitted, in the order of submission.
   */
  lemma CrossThreadStream(states: seq<Conn>, events: seq<Event>, j: nat)
    requires IsRun(states, events) && j < |states|
    requires states[0].handed == [] && states[0].queued == []
    ensures var sent := SentUpTo(states, events, j);
            && states[j].accepted == Flatten(Data(sent)) && states[j].wire <= states[j].accepted
            && (states[j].state != Disconnected ==>
                  && states[j].wire + states[j].output == Flatten(Data(sent))
                  && FromQueue(sent) + states[j].queued == Submitted(events, j))
  {
    HandedInOrder(states, events, j);
    OutputConservation(states, events, j, j);
    QueueConserved(states, events, j);
    if states[j].state != Disconnected {
      PoppedAreSent(states, events, j);
    }
  }
}
