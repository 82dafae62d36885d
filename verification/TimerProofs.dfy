/** What every operation and every pass of the timer queue keeps: ownership, order, exact expiry. */
module TimerProofs {
  import opened Bytes
  import opened TimerSpec

  /** Every entry stands for a live timer that is not cancelled, under that timer's own deadline. */
  predicate Backed(heap: map<Address, Timer>, es: seq<Entry>)
  {
    forall e :: e in es ==> e.id in heap && heap[e.id].when == e.when && !heap[e.id].canceled
  }

  predicate TimerOk(t: Timer)
  {
    t.when == t.start + t.fired * t.interval && (!t.Repeat() ==> t.fired == 0)
  }

  /** The deadline of a timer restarted k times is its first deadline plus k intervals. */
  predicate NoDrift(heap: map<Address, Timer>)
  {
    forall id :: id in heap ==> TimerOk(heap[id])
  }

  /** The entry a live timer has, wherever it is. */
  function EntryOf(heap: map<Address, Timer>, id: Address): Entry
    requires id in heap
  {
    Entry(heap[id].when, id)
  }

  /** No wakeup is ever programmed for less than 1 ms ahead. */
  predicate Programmed(q: Queue)
  {
    q.fd.armed.Some? ==> q.fd.armed.value >= q.setAt + MILLISECOND
  }

  /**
   The state inside handleRead with `batch` still to be fired; between passes the batch is empty.
   Every timer in use is either in the set or in the batch, once, under its own deadline.
   */
  predicate PassInv(q: Queue, batch: seq<Entry>)
  {
    && Sorted(q.timers) && Sorted(batch)
    && Backed(q.heap, q.timers) && Backed(q.heap, batch)
    && (forall e :: e in batch ==> e !in q.timers)
    && (forall id :: id in q.heap ==> EntryOf(q.heap, id) in q.timers || EntryOf(q.heap, id) in batch)
    && NoDrift(q.heap) && Programmed(q)
  }

  /** A waiting timer has its wakeup: readable, or armed for the earliest deadline or 1 ms after programming. */
  predicate ArmInv(q: Queue)
  {
    q.timers != [] ==>
      q.fd.readable || (q.fd.armed.Some? && q.fd.armed.value <= Max(q.timers[0].when, q.setAt + MILLISECOND))
  }

  /** What a caller owes: cancel only a timer that is in the set, so neither fired nor in the batch being fired. */
  predicate Allowed(q: Queue, call: Call)
  {
    match call
    case AddCall(id, _, _, _) => id !in q.heap
    case CancelCall(target) => target in q.heap && EntryOf(q.heap, target) in q.timers
  }

  predicate AllAllowed(q: Queue, calls: seq<Call>)
    decreases |calls|
  {
    calls == []
    || (Allowed(q, calls[0]) && (Perform(q, calls[0]).Ok? ==> AllAllowed(Perform(q, calls[0]).q, calls[1..])))
  }

  // ---- single operations ----

  lemma NotCanceled(q: Queue, batch: seq<Entry>, id: Address)
    requires PassInv(q, batch) && id in q.heap
    ensures !q.heap[id].canceled
  {
    assert EntryOf(q.heap, id) in q.timers || EntryOf(q.heap, id) in batch;
  }

  lemma AddKeeps(q: Queue, batch: seq<Entry>, id: Address, when: Time, interval: int, now: Time)
    requires PassInv(q, batch) && id !in q.heap
    ensures Entry(when, id) !in q.timers && PassInv(AddTimer(q, id, when, interval, now), batch)
  {
    var q' := AddTimer(q, id, when, interval, now);
    InsertFacts(q.timers, Entry(when, id));
    assert TimerOk(NewTimer(when, interval));
    DelayExact(when, now);
    forall x | x in q'.heap ensures EntryOf(q'.heap, x) in q'.timers || EntryOf(q'.heap, x) in batch {
      assert x != id ==> EntryOf(q'.heap, x) == EntryOf(q.heap, x);
    }
  }

  lemma RemoveAt(es: seq<Entry>, k: nat)
    requires Sorted(es) && k < |es|
    ensures Sorted(es[..k] + es[k + 1..])
    ensures forall x :: x in es[..k] + es[k + 1..] <==> x in es && x != es[k]
  {
    var r := es[..k] + es[k + 1..];
    forall i | 0 <= i < |r| ensures r[i] in es && r[i] != es[k] {
      assert r[i] == if i < k then es[i] else es[i + 1];
    }
    forall x | x in es && x != es[k] ensures x in r {
      var i :| 0 <= i < |es| && es[i] == x;
      assert x == if i < k then r[i] else r[i - 1];
    }
  }

  lemma PositionFound(es: seq<Entry>, e: Entry)
    requires e in es
    ensures Position(es, e.id) < |es|
  {
    var i :| 0 <= i < |es| && es[i] == e;
  }

  lemma CancelKeeps(q: Queue, batch: seq<Entry>, id: Address)
    requires PassInv(q, batch) && id in q.heap && EntryOf(q.heap, id) in q.timers
    ensures CancelTimer(q, id).Ok? && PassInv(CancelTimer(q, id).q, batch)
    ensures id !in CancelTimer(q, id).q.heap
  {
    PositionFound(q.timers, EntryOf(q.heap, id));
    var k := Position(q.timers, id);
    assert q.timers[k] in q.timers;
    RemoveAt(q.timers, k);
    Forget(q, batch, id, q.timers[..k] + q.timers[k + 1..]);
  }

  /** Dropping a timer's entry and its memory together leaves the others as they were. */
  lemma Forget(q: Queue, batch: seq<Entry>, id: Address, timers: seq<Entry>)
    requires PassInv(q, batch) && id in q.heap && EntryOf(q.heap, id) in q.timers
    requires Sorted(timers) && forall x :: x in timers <==> x in q.timers && x != EntryOf(q.heap, id)
    ensures PassInv(q.(timers := timers, heap := q.heap - {id}), batch)
  {
    var heap' := q.heap - {id};
    forall x | x in heap' ensures EntryOf(heap', x) in timers || EntryOf(heap', x) in batch {
      assert EntryOf(heap', x) == EntryOf(q.heap, x);
    }
  }

  lemma CallKeeps(q: Queue, batch: seq<Entry>, call: Call)
    requires PassInv(q, batch) && Allowed(q, call)
    ensures Perform(q, call).Ok? && PassInv(Perform(q, call).q, batch)
    ensures Perform(q, call).q.log == q.log
  {
    match call
    case AddCall(id, when, interval, now) => AddKeeps(q, batch, id, when, interval, now);
    case CancelCall(target) => CancelKeeps(q, batch, target);
  }

  lemma {:induction false} CallsKeep(q: Queue, batch: seq<Entry>, calls: seq<Call>)
    requires PassInv(q, batch) && AllAllowed(q, calls)
    ensures PerformAll(q, calls).Ok? && PassInv(PerformAll(q, calls).q, batch)
    ensures PerformAll(q, calls).q.log == q.log
    decreases |calls|
  {
    if calls == [] {
    } else {
      CallKeeps(q, batch, calls[0]);
      CallsKeep(Perform(q, calls[0]).q, batch, calls[1..]);
    }
  }

  // ---- one pass ----

  lemma FireOneKeeps(q: Queue, batch: seq<Entry>, now: Time, calls: seq<Call>)
    requires PassInv(q, batch) && batch != [] && batch[0].when <= now
    requires AllAllowed(q.(log := q.log + [batch[0]]), calls)
    ensures var o := FireOne(q, batch[0], now, calls);
            o.Ok? && PassInv(o.q, batch[1..]) && o.q.log == q.log + [batch[0]]
  {
    var e := batch[0];
    assert e in batch;
    var logged := q.(log := q.log + [e]);
    CallsKeep(logged, batch, calls);
    AfterCallback(PerformAll(logged, calls).q, batch);
  }

  /** The end of a turn: a repeating timer goes back into the set one interval later, any other is freed. */
  function Settle(q: Queue, e: Entry): Queue
    requires e.id in q.heap
  {
    var t := q.heap[e.id];
    if !t.canceled && t.Repeat()
    then q.(heap := q.heap[e.id := t.Restart()], timers := Insert(q.timers, Entry(t.Restart().when, e.id)))
    else q.(heap := q.heap - {e.id})
  }

  lemma AfterCallback(q: Queue, batch: seq<Entry>)
    requires PassInv(q, batch) && batch != []
    ensures batch[0].id in q.heap && PassInv(Settle(q, batch[0]), batch[1..])
  {
    var e, rest := batch[0], batch[1..];
    assert e in batch;
    assert forall x :: x in batch <==> x == e || x in rest;
    assert forall i :: 0 <= i < |rest| ==> Less(e, rest[i]);
    if q.heap[e.id].Repeat() {
      RestartKeeps(q, e, rest);
    } else {
      FreeKeeps(q, e, rest);
    }
  }

  /** `e` is out of the batch and not yet back in the set. */
  predicate InTurn(q: Queue, e: Entry, rest: seq<Entry>)
  {
    && Sorted(q.timers) && Sorted(rest)
    && Backed(q.heap, q.timers) && Backed(q.heap, rest) && Backed(q.heap, [e])
    && e !in q.timers && e !in rest
    && (forall x :: x in rest ==> x !in q.timers)
    && (forall id :: id in q.heap && id != e.id ==> EntryOf(q.heap, id) in q.timers || EntryOf(q.heap, id) in rest)
    && NoDrift(q.heap) && Programmed(q)
  }

  lemma RestartKeeps(q: Queue, e: Entry, rest: seq<Entry>)
    requires InTurn(q, e, rest) && e.id in q.heap && q.heap[e.id].Repeat()
    ensures PassInv(Settle(q, e), rest)
  {
    var q' := Settle(q, e);
    InsertFacts(q.timers, Entry(q.heap[e.id].Restart().when, e.id));
    RestartNoDrift(q.heap[e.id]);
    forall x | x in q'.heap ensures EntryOf(q'.heap, x) in q'.timers || EntryOf(q'.heap, x) in rest {
      assert x != e.id ==> EntryOf(q'.heap, x) == EntryOf(q.heap, x);
    }
  }

  lemma FreeKeeps(q: Queue, e: Entry, rest: seq<Entry>)
    requires InTurn(q, e, rest) && e.id in q.heap && !q.heap[e.id].Repeat()
    ensures PassInv(Settle(q, e), rest)
  {
    var q' := Settle(q, e);
    forall x | x in q'.heap ensures EntryOf(q'.heap, x) in q'.timers || EntryOf(q'.heap, x) in rest {
      assert EntryOf(q'.heap, x) == EntryOf(q.heap, x);
    }
  }

  lemma RestartNoDrift(t: Timer)
    requires TimerOk(t) && t.Repeat()
    ensures TimerOk(t.Restart())
  {
    assert (t.fired + 1) * t.interval == t.fired * t.interval + t.interval;
  }

  predicate Due(batch: seq<Entry>, now: Time)
  {
    forall e :: e in batch ==> e.when <= now
  }

  /** The calls made by the callbacks of a pass, each allowed at the moment it is made. */
  predicate ScriptsAllowed(q: Queue, batch: seq<Entry>, now: Time, scripts: seq<seq<Call>>)
    decreases |batch|
  {
    batch == []
    || (AllAllowed(q.(log := q.log + [batch[0]]), CallsOf(scripts))
        && (FireOne(q, batch[0], now, CallsOf(scripts)).Ok? ==>
              ScriptsAllowed(FireOne(q, batch[0], now, CallsOf(scripts)).q, batch[1..], now, OtherScripts(scripts))))
  }

  lemma {:induction false} FireAllKeeps(q: Queue, batch: seq<Entry>, now: Time, scripts: seq<seq<Call>>)
    requires PassInv(q, batch) && Due(batch, now) && ScriptsAllowed(q, batch, now, scripts)
    ensures FireAll(q, batch, now, scripts).Ok? && PassInv(FireAll(q, batch, now, scripts).q, [])
    decreases |batch|
  {
    if batch == [] {
    } else {
      assert batch[0] in batch;
      FireOneKeeps(q, batch, now, CallsOf(scripts));
      FireAllKeeps(FireOne(q, batch[0], now, CallsOf(scripts)).q, batch[1..], now, OtherScripts(scripts));
    }
  }

  lemma {:induction false} FireAllLogs(q: Queue, batch: seq<Entry>, now: Time, scripts: seq<seq<Call>>)
    requires PassInv(q, batch) && Due(batch, now) && ScriptsAllowed(q, batch, now, scripts)
    ensures FireAll(q, batch, now, scripts).Ok? && FireAll(q, batch, now, scripts).q.log == q.log + batch
    decreases |batch|
  {
    LogMoves(q.log, batch);
    if batch == [] {
    } else {
      assert batch[0] in batch;
      FireOneKeeps(q, batch, now, CallsOf(scripts));
      FireAllLogs(FireOne(q, batch[0], now, CallsOf(scripts)).q, batch[1..], now, OtherScripts(scripts));
    }
  }

  lemma LogMoves(log: seq<Entry>, batch: seq<Entry>)
    ensures if batch == [] then log + batch == log else log + [batch[0]] + batch[1..] == log + batch
  {
  }

  /** getExpired: exactly the entries whose deadline has been reached, in deadline order; the rest stays. */
  lemma ExpiredExact(timers: seq<Entry>, now: Time)
    requires Sorted(timers)
    ensures var k := ExpiredCount(timers, now);
            && timers == timers[..k] + timers[k..]
            && Sorted(timers[..k]) && Sorted(timers[k..])
            && (forall e :: e in timers[..k] ==> e.when <= now)
            && (forall e :: e in timers[k..] ==> e.when > now)
  {
    var k := ExpiredCount(timers, now);
    forall e | e in timers[k..] ensures e.when > now {
      var i :| 0 <= i < |timers[k..]| && timers[k..][i] == e;
      assert e == timers[k + i] && (i == 0 || Less(timers[k], timers[k + i]));
    }
    forall e | e in timers[..k] ensures e.when <= now {
      var i :| 0 <= i < k && timers[i] == e;
    }
  }

  lemma SplitKeeps(q: Queue, now: Time)
    requires PassInv(q, [])
    ensures PassInv(TakeExpired(q, now), q.timers[..ExpiredCount(q.timers, now)])
    ensures Due(q.timers[..ExpiredCount(q.timers, now)], now)
  {
    ExpiredExact(q.timers, now);
    var k := ExpiredCount(q.timers, now);
    var batch, rest := q.timers[..k], q.timers[k..];
    assert forall e :: e in q.timers <==> e in batch || e in rest;
  }
}
