/**
 The history of every timer, read off the log of firings: a timer fires at its first deadline, then
 at one interval after another, and nothing else is in the log under its address while it lives.
 */
module TimerHistory {
  import opened Bytes
  import opened TimerSpec
  import opened TimerProofs

  /** The firings of one address, in order. */
  function Firings(log: seq<Entry>, id: Address): seq<Entry>
  {
    if log == [] then []
    else
      var last := log[|log| - 1];
      Firings(log[..|log| - 1], id) + (if last.id == id then [last] else [])
  }

  lemma FiringsSnoc(log: seq<Entry>, e: Entry, id: Address)
    ensures Firings(log + [e], id) == Firings(log, id) + (if e.id == id then [e] else [])
  {
    assert (log + [e])[..|log|] == log;
  }

  /** The n-th firing is at the first deadline plus n intervals. */
  predicate OnGrid(fs: seq<Entry>, start: Time, interval: int, id: Address)
  {
    forall n :: 0 <= n < |fs| ==> fs[n] == Entry(start + n * interval, id)
  }

  /** The firings since the timer at this address was added are `count` many and on its grid. */
  predicate Traced(log: seq<Entry>, born: map<Address, nat>, id: Address, t: Timer, count: nat)
  {
    && id in born && born[id] <= |log|
    && |Firings(log[born[id]..], id)| == count
    && OnGrid(Firings(log[born[id]..], id), t.start, t.interval, id)
  }

  /** Every live timer's firings since it was added; the one in its turn has fired and is not yet restarted. */
  predicate History(q: Queue, turn: Option<Address>)
  {
    forall id :: id in q.heap ==>
      Traced(q.log, q.born, id, q.heap[id], q.heap[id].fired + (if turn == Some(id) then 1 else 0))
  }

  lemma AddTraces(q: Queue, turn: Option<Address>, id: Address, when: Time, interval: int, now: Time)
    requires History(q, turn) && id !in q.heap && turn != Some(id)
    ensures History(AddTimer(q, id, when, interval, now), turn)
  {
    assert q.log[|q.log|..] == [];
  }

  lemma CallTraces(q: Queue, batch: seq<Entry>, turn: Address, call: Call)
    requires PassInv(q, batch) && History(q, Some(turn)) && turn in q.heap && Allowed(q, call)
    ensures Perform(q, call).Ok? && History(Perform(q, call).q, Some(turn))
  {
    CallKeeps(q, batch, call);
    match call
    case AddCall(id, when, interval, now) => AddTraces(q, Some(turn), id, when, interval, now);
    case CancelCall(_) =>
  }

  lemma {:induction false} CallsTrace(q: Queue, batch: seq<Entry>, turn: Entry, calls: seq<Call>)
    requires PassInv(q, batch) && turn in batch && History(q, Some(turn.id)) && AllAllowed(q, calls)
    ensures PerformAll(q, calls).Ok? && History(PerformAll(q, calls).q, Some(turn.id))
    decreases |calls|
  {
    if calls == [] {
    } else {
      CallTraces(q, batch, turn.id, calls[0]);
      CallKeeps(q, batch, calls[0]);
      CallsTrace(Perform(q, calls[0]).q, batch, turn, calls[1..]);
    }
  }

  /** Firing adds one entry to the timer's own firings, at its next grid point, and to no other's. */
  lemma LoggedTrace(log: seq<Entry>, born: map<Address, nat>, e: Entry, id: Address, t: Timer)
    requires Traced(log, born, id, t, t.fired)
    requires e.id == id ==> TimerOk(t) && e.when == t.when
    ensures Traced(log + [e], born, id, t, t.fired + (if e.id == id then 1 else 0))
  {
    assert (log + [e])[born[id]..] == log[born[id]..] + [e];
    FiringsSnoc(log[born[id]..], e, id);
  }

  lemma LogTraces(q: Queue, batch: seq<Entry>)
    requires PassInv(q, batch) && batch != [] && History(q, None)
    ensures History(q.(log := q.log + [batch[0]]), Some(batch[0].id))
  {
    var e := batch[0];
    assert e in batch;
    forall id | id in q.heap
      ensures Traced(q.log + [e], q.born, id, q.heap[id], q.heap[id].fired + (if e.id == id then 1 else 0))
    {
      LoggedTrace(q.log, q.born, e, id, q.heap[id]);
    }
  }

  lemma SettleTraces(q: Queue, e: Entry)
    requires e.id in q.heap && History(q, Some(e.id))
    ensures History(Settle(q, e), None)
  {
  }

  /** One turn: the timer's firings gain exactly this one, and stay on the grid through the restart. */
  lemma FireOneTraces(q: Queue, batch: seq<Entry>, now: Time, calls: seq<Call>)
    requires PassInv(q, batch) && batch != [] && batch[0].when <= now && History(q, None)
    requires AllAllowed(q.(log := q.log + [batch[0]]), calls)
    ensures FireOne(q, batch[0], now, calls).Ok? && History(FireOne(q, batch[0], now, calls).q, None)
  {
    var e := batch[0];
    assert e in batch;
    var logged := q.(log := q.log + [e]);
    LogTraces(q, batch);
    CallsTrace(logged, batch, e, calls);
    CallsKeep(logged, batch, calls);
    var ran := PerformAll(logged, calls).q;
    SettleTraces(ran, e);
    assert FireOne(q, e, now, calls) == Ok(Settle(ran, e));
  }

  lemma {:induction false} FireAllTraces(q: Queue, batch: seq<Entry>, now: Time, scripts: seq<seq<Call>>)
    requires PassInv(q, batch) && Due(batch, now) && ScriptsAllowed(q, batch, now, scripts) && History(q, None)
    ensures FireAll(q, batch, now, scripts).Ok? && History(FireAll(q, batch, now, scripts).q, None)
    decreases |batch|
  {
    if batch == [] {
    } else {
      assert batch[0] in batch;
      FireOneKeeps(q, batch, now, CallsOf(scripts));
      FireOneTraces(q, batch, now, CallsOf(scripts));
      FireAllTraces(FireOne(q, batch[0], now, CallsOf(scripts)).q, batch[1..], now, OtherScripts(scripts));
    }
  }

  predicate Inv(q: Queue) { PassInv(q, []) && ArmInv(q) && History(q, None) }

  lemma EmptyInv()
    ensures Inv(EMPTY_QUEUE)
  {
  }

  /**
   One handleRead: goes through, fires exactly the expired timers, once each and in deadline
   order, leaves every live timer in the set under its own deadline and on its grid, and arms the timerfd again.
   */
  lemma PassKeeps(q: Queue, now: Time, scripts: seq<seq<Call>>, later: Time)
    requires Inv(q)
    requires ScriptsAllowed(TakeExpired(q, now), q.timers[..ExpiredCount(q.timers, now)], now, scripts)
    ensures var o := HandleRead(q, now, scripts, later);
            o.Ok? && Inv(o.q) && o.q.log == q.log + q.timers[..ExpiredCount(q.timers, now)]
  {
    SplitKeeps(q, now);
    var batch := q.timers[..ExpiredCount(q.timers, now)];
    FireAllKeeps(TakeExpired(q, now), batch, now, scripts);
    FireAllLogs(TakeExpired(q, now), batch, now, scripts);
    FireAllTraces(TakeExpired(q, now), batch, now, scripts);
    var fired := FireAll(TakeExpired(q, now), batch, now, scripts).q;
    if fired.timers != [] {
      DelayExact(fired.timers[0].when, later);
    }
  }
}
