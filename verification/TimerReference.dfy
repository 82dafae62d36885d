/**
 The timer queue against a table kept by the events alone: what was asked for, how often it has fired,
 and nothing of sets, heaps or descriptors.
 */
module TimerReference {
  import opened TimerSpec
  import opened TimerProofs
  import opened TimerHistory
  import opened TimerRuns

  /** What the caller asked for, and the firings since. */
  datatype Ref = Ref(start: Time, interval: int, fired: nat)

  type Table = map<Address, Ref>

  function RefCall(t: Table, call: Call): Table
  {
    match call
    case AddCall(id, when, interval, _) => t[id := Ref(when, interval, 0)]
    case CancelCall(target) => t - {target}
  }

  function RefCalls(t: Table, calls: seq<Call>): Table
    decreases |calls|
  {
    if calls == [] then t else RefCalls(RefCall(t, calls[0]), calls[1..])
  }

  /** A timer that has fired stays, one firing older, when it was asked for with an interval, and is gone otherwise. */
  function RefTurn(t: Table, id: Address): Table
  {
    if id in t && t[id].interval > 0 then t[id := t[id].(fired := t[id].fired + 1)] else t - {id}
  }

  function RefPass(t: Table, batch: seq<Entry>, scripts: seq<seq<Call>>): Table
    decreases |batch|
  {
    if batch == [] then t
    else RefPass(RefTurn(RefCalls(t, CallsOf(scripts)), batch[0].id), batch[1..], OtherScripts(scripts))
  }

  function RefEvent(t: Table, q: Queue, e: Event): Table
  {
    match e
    case DoCall(call) => RefCall(t, call)
    case KernelExpires(_) => t
    case DoHandleRead(now, scripts, _) => RefPass(t, q.timers[..ExpiredCount(q.timers, now)], scripts)
  }

  /** The queue's timers as such a table. */
  function TableOf(heap: map<Address, Timer>): Table
  {
    map id | id in heap :: Ref(heap[id].start, heap[id].interval, heap[id].fired)
  }

  lemma CallMatches(q: Queue, call: Call)
    requires Perform(q, call).Ok?
    ensures TableOf(Perform(q, call).q.heap) == RefCall(TableOf(q.heap), call)
  {
  }

  lemma {:induction false} CallsMatch(q: Queue, calls: seq<Call>)
    requires PerformAll(q, calls).Ok?
    ensures TableOf(PerformAll(q, calls).q.heap) == RefCalls(TableOf(q.heap), calls)
    decreases |calls|
  {
    if calls == [] {
    } else {
      CallMatches(q, calls[0]);
      CallsMatch(Perform(q, calls[0]).q, calls[1..]);
    }
  }

  lemma SettleMatches(q: Queue, e: Entry)
    requires e.id in q.heap && !q.heap[e.id].canceled
    ensures TableOf(Settle(q, e).heap) == RefTurn(TableOf(q.heap), e.id)
  {
  }

  lemma TurnMatches(q: Queue, batch: seq<Entry>, now: Time, calls: seq<Call>)
    requires PassInv(q, batch) && batch != [] && batch[0].when <= now
    requires AllAllowed(q.(log := q.log + [batch[0]]), calls)
    ensures FireOne(q, batch[0], now, calls).Ok?
    ensures TableOf(FireOne(q, batch[0], now, calls).q.heap) == RefTurn(RefCalls(TableOf(q.heap), calls), batch[0].id)
  {
    var e := batch[0];
    assert e in batch;
    var logged := q.(log := q.log + [e]);
    CallsKeep(logged, batch, calls);
    CallsMatch(logged, calls);
    var ran := PerformAll(logged, calls).q;
    NotCanceled(ran, batch, e.id);
    SettleMatches(ran, e);
    assert FireOne(q, e, now, calls) == Ok(Settle(ran, e));
  }

  lemma {:induction false} TurnsMatch(q: Queue, batch: seq<Entry>, now: Time, scripts: seq<seq<Call>>)
    requires PassInv(q, batch) && Due(batch, now) && ScriptsAllowed(q, batch, now, scripts)
    ensures FireAll(q, batch, now, scripts).Ok?
    ensures TableOf(FireAll(q, batch, now, scripts).q.heap) == RefPass(TableOf(q.heap), batch, scripts)
    decreases |batch|
  {
    if batch == [] {
    } else {
      assert batch[0] in batch;
      FireOneKeeps(q, batch, now, CallsOf(scripts));
      TurnMatches(q, batch, now, CallsOf(scripts));
      TurnsMatch(FireOne(q, batch[0], now, CallsOf(scripts)).q, batch[1..], now, OtherScripts(scripts));
    }
  }

  lemma EventMatches(q: Queue, e: Event)
    requires Inv(q) && Possible(q, e)
    ensures Step(q, e).Ok? && TableOf(Step(q, e).q.heap) == RefEvent(TableOf(q.heap), q, e)
  {
    StepKeeps(q, e);
    match e
    case DoCall(call) => CallMatches(q, call);
    case KernelExpires(_) =>
    case DoHandleRead(now, scripts, later) =>
      SplitKeeps(q, now);
      TurnsMatch(TakeExpired(q, now), q.timers[..ExpiredCount(q.timers, now)], now, scripts);
  }

  ghost function TableAt(states: seq<Queue>, events: seq<Event>, j: nat): Table
    requires j <= |events| < |states|
    decreases j
  {
    if j == 0 then TableOf(states[0].heap) else RefEvent(TableAt(states, events, j - 1), states[j - 1], events[j - 1])
  }

  lemma {:induction false} TablesAgree(states: seq<Queue>, events: seq<Event>, j: nat)
    requires IsRun(states, events) && j < |states|
    ensures TableOf(states[j].heap) == TableAt(states, events, j)
  {
    if j == 0 {
    } else {
      var k := j - 1;
      TablesAgree(states, events, k);
      EveryStateInv(states, events, k);
      assert Follows(states[k], events[k], states[k + 1]);
      EventMatches(states[k], events[k]);
    }
  }

  /**
   On every run the timers in use are exactly those the events ask for, with the first deadline and the
   interval they were asked for with; and the set holds, for each of them and for nothing else, the
   deadline that follows from these and the number of its firings.
   */
  lemma QueueMatchesRequests(states: seq<Queue>, events: seq<Event>, j: nat)
    requires IsRun(states, events) && j < |states|
    ensures var t, q := TableAt(states, events, j), states[j];
            && t.Keys == q.heap.Keys
            && (forall id :: id in t ==> q.heap[id].start == t[id].start && q.heap[id].interval == t[id].interval)
            && (forall e :: e in q.timers <==> e.id in t && e.when == t[e.id].start + t[e.id].fired * t[e.id].interval)
  {
    TablesAgree(states, events, j);
    TimersConserved(states, events, j);
    EveryStateInv(states, events, j);
    var t, q := TableAt(states, events, j), states[j];
    forall e: Entry | e.id in t
      ensures EntryOf(q.heap, e.id).when == t[e.id].start + t[e.id].fired * t[e.id].interval
    {
      assert TimerOk(q.heap[e.id]);
    }
  }

  // ---- one turn ----

  lemma {:induction false} CallsSpareTurn(q: Queue, batch: seq<Entry>, e: Entry, calls: seq<Call>)
    requires PassInv(q, batch) && e in batch && AllAllowed(q, calls)
    ensures PerformAll(q, calls).Ok? && e.id in PerformAll(q, calls).q.heap
    ensures PerformAll(q, calls).q.heap[e.id] == q.heap[e.id]
    decreases |calls|
  {
    if calls == [] {
    } else {
      CallKeeps(q, batch, calls[0]);
      CallsSpareTurn(Perform(q, calls[0]).q, batch, e, calls[1..]);
    }
  }

  /**
   A turn, whatever its callback adds and is allowed to cancel: a timer with an interval stays, with an
   entry one interval later, and any other is freed.
   */
  lemma TurnExact(q: Queue, batch: seq<Entry>, now: Time, calls: seq<Call>)
    requires PassInv(q, batch) && batch != [] && batch[0].when <= now
    requires AllAllowed(q.(log := q.log + [batch[0]]), calls)
    ensures batch[0].id in q.heap && FireOne(q, batch[0], now, calls).Ok?
    ensures var e, o := batch[0], FireOne(q, batch[0], now, calls).q;
            if q.heap[e.id].interval > 0
            then e.id in o.heap && o.heap[e.id].interval == q.heap[e.id].interval
                 && Entry(e.when + q.heap[e.id].interval, e.id) in o.timers
            else e.id !in o.heap
  {
    var e := batch[0];
    assert e in batch;
    var logged := q.(log := q.log + [e]);
    CallsKeep(logged, batch, calls);
    CallsSpareTurn(logged, batch, e, calls);
    var ran := PerformAll(logged, calls).q;
    assert FireOne(q, e, now, calls) == Ok(Settle(ran, e));
    InsertFacts(ran.timers, Entry(ran.heap[e.id].Restart().when, e.id));
  }
}
