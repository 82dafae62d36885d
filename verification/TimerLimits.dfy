/** Where the timer queue's promises stop: deadlines within a millisecond, and cancels of timers not in the set. */
module TimerLimits {
  import opened Bytes
  import opened TimerSpec
  import opened TimerProofs
  import opened TimerHistory
  import opened TimerRuns

  /** A new earliest timer is armed in time exactly when it is due no sooner than 1 ms from now. */
  lemma ArmedInTimeExactly(q: Queue, id: Address, when: Time, interval: int, now: Time)
    requires Inv(q) && id !in q.heap && (q.timers != [] ==> when < q.timers[0].when)
    ensures var q' := AddTimer(q, id, when, interval, now);
            && q'.timers != [] && q'.timers[0] == Entry(when, id) && q'.fd.armed.Some?
            && (q'.fd.armed.value <= when <==> now + MILLISECOND <= when)
  {
    InsertFacts(q.timers, Entry(when, id));
    DelayExact(when, now);
  }

  /** Between passes cancelTimer is safe exactly for a timer that is in the set. */
  lemma CancelSafeExactly(q: Queue, id: Address)
    requires Inv(q)
    ensures CancelTimer(q, id).Ok? <==> exists e :: e in q.timers && e.id == id
  {
    if id in q.heap {
      assert EntryOf(q.heap, id) in q.timers;
    }
  }

  /** A callback that cancels its own timer frees what handleRead goes on to read. */
  lemma SelfCancelIsUseAfterFree(q: Queue, batch: seq<Entry>, now: Time)
    requires PassInv(q, batch) && batch != [] && batch[0].when <= now
    ensures FireOne(q, batch[0], now, [CancelCall(batch[0].id)]) == UseAfterFree
  {
    assert batch[0] in batch;
    var logged := q.(log := q.log + [batch[0]]);
    var calls := [CancelCall(batch[0].id)];
    assert Perform(logged, calls[0]).Ok?;
    assert calls[1..] == [];
    assert PerformAll(Perform(logged, calls[0]).q, []) == Perform(logged, calls[0]);
  }

  /** The batch of a pass as far as its timers are still there: each once, due and not cancelled. */
  predicate Firable(q: Queue, batch: seq<Entry>, now: Time)
  {
    && (forall i, j :: 0 <= i < j < |batch| ==> batch[i].id != batch[j].id)
    && (forall e :: e in batch && e.id in q.heap ==> q.heap[e.id].Expired(now))
  }

  lemma BatchFirable(q: Queue, batch: seq<Entry>, now: Time)
    requires PassInv(q, batch) && Due(batch, now)
    ensures Firable(q, batch, now)
  {
    forall i, j | 0 <= i < j < |batch| ensures batch[i].id != batch[j].id {
      assert batch[i] in batch && batch[j] in batch && Less(batch[i], batch[j]);
    }
  }

  /** A batch that still holds a freed timer ends in a use after free. */
  lemma {:induction false} FreedInBatch(q: Queue, batch: seq<Entry>, now: Time, e: Entry)
    requires Firable(q, batch, now) && e in batch && e.id !in q.heap
    ensures FireAll(q, batch, now, []) == UseAfterFree
    decreases |batch|
  {
    if batch[0].id !in q.heap {
    } else {
      assert batch[0] in batch;
      assert e in batch[1..] && forall x :: x in batch[1..] ==> x in batch && x.id != batch[0].id;
      FreedInBatch(FireOne(q, batch[0], now, []).q, batch[1..], now, e);
    }
  }

  /** A callback that cancels another timer: that one is gone, the rest of the heap is as before. */
  lemma TurnThatCancels(q: Queue, e: Entry, now: Time, id: Address)
    requires e.id in q.heap && q.heap[e.id].Expired(now) && !q.heap[e.id].canceled
    requires id in q.heap && id != e.id && !q.heap[id].canceled
    ensures var o := FireOne(q, e, now, [CancelCall(id)]);
            && o.Ok? && id !in o.q.heap
            && (forall x :: x in o.q.heap && x != e.id ==> x in q.heap && o.q.heap[x] == q.heap[x])
  {
    var calls, logged := [CancelCall(id)], q.(log := q.log + [e]);
    assert calls[1..] == [];
    assert PerformAll(logged, calls) == CancelTimer(logged, id);
  }

  lemma TailFirable(q: Queue, q': Queue, batch: seq<Entry>, now: Time)
    requires Firable(q, batch, now) && batch != []
    requires forall x :: x in q'.heap && x != batch[0].id ==> x in q.heap && q'.heap[x] == q.heap[x]
    ensures Firable(q', batch[1..], now)
  {
    assert forall x :: x in batch[1..] ==> x in batch && x.id != batch[0].id;
  }

  lemma CancelThenFire(q: Queue, batch: seq<Entry>, now: Time, id: Address)
    requires PassInv(q, batch) && Due(batch, now) && batch != []
    requires id in q.heap && EntryOf(q.heap, id) !in q.timers
    ensures FireAll(q, batch, now, [[CancelCall(id)]]) == UseAfterFree
  {
    var e := EntryOf(q.heap, id);
    assert e in batch && batch[0] in batch;
    if e == batch[0] {
      SelfCancelIsUseAfterFree(q, batch, now);
    } else {
      assert e in batch[1..];
      BatchFirable(q, batch, now);
      TurnThatCancels(q, batch[0], now, id);
      var next := FireOne(q, batch[0], now, [CancelCall(id)]).q;
      TailFirable(q, next, batch, now);
      FreedInBatch(next, batch[1..], now, e);
    }
  }

  /**
   A cancel from inside a pass, made by the callback that fires next: the rest of the pass is safe
   exactly when the timer is in the set, so not itself and not a later one of the same batch.
   */
  lemma CancelInPassExactly(q: Queue, batch: seq<Entry>, now: Time, id: Address)
    requires PassInv(q, batch) && Due(batch, now) && batch != []
    ensures FireAll(q, batch, now, [[CancelCall(id)]]).Ok? <==> exists e :: e in q.timers && e.id == id
  {
    var scripts := [[CancelCall(id)]];
    if id in q.heap && EntryOf(q.heap, id) in q.timers {
      CancelInPassSafe(q, batch, now, id);
    } else if id in q.heap {
      CancelThenFire(q, batch, now, id);
    } else {
      assert batch[0] in batch;
    }
  }

  lemma CancelInPassSafe(q: Queue, batch: seq<Entry>, now: Time, id: Address)
    requires PassInv(q, batch) && Due(batch, now) && batch != []
    requires id in q.heap && EntryOf(q.heap, id) in q.timers
    ensures FireAll(q, batch, now, [[CancelCall(id)]]).Ok?
  {
    var scripts := [[CancelCall(id)]];
    assert batch[0] in batch;
    CallKeeps(q.(log := q.log + [batch[0]]), batch, CancelCall(id));
    FireOneKeeps(q, batch, now, scripts[0]);
    QuietScripts(FireOne(q, batch[0], now, scripts[0]).q, batch[1..], now);
    FireAllKeeps(q, batch, now, scripts);
  }

  // ---- arbitrary callbacks: a pass is safe exactly when every cancel is of a timer in the set ----

  /** The allocator's part: a timer is added at an address that is not in use at that moment. */
  predicate FreshCalls(q: Queue, calls: seq<Call>)
    decreases |calls|
  {
    calls == []
    || ((calls[0].AddCall? ==> calls[0].id !in q.heap)
        && (Perform(q, calls[0]).Ok? ==> FreshCalls(Perform(q, calls[0]).q, calls[1..])))
  }

  predicate FreshScripts(q: Queue, batch: seq<Entry>, now: Time, scripts: seq<seq<Call>>)
    decreases |batch|
  {
    batch == []
    || (FreshCalls(q.(log := q.log + [batch[0]]), CallsOf(scripts))
        && (FireOne(q, batch[0], now, CallsOf(scripts)).Ok? ==>
              FreshScripts(FireOne(q, batch[0], now, CallsOf(scripts)).q, batch[1..], now, OtherScripts(scripts))))
  }

  /** How many entries stand for this address. */
  function Count(es: seq<Entry>, id: Address): nat
  {
    if es == [] then 0 else (if es[0].id == id then 1 else 0) + Count(es[1..], id)
  }

  lemma {:induction false} CountConcat(a: seq<Entry>, b: seq<Entry>, id: Address)
    ensures Count(a + b, id) == Count(a, id) + Count(b, id)
  {
    if a == [] {
      assert a + b == b;
    } else {
      assert (a + b)[1..] == a[1..] + b;
      CountConcat(a[1..], b, id);
    }
  }

  lemma {:induction false} CountInsert(es: seq<Entry>, e: Entry, id: Address)
    requires e.id == id ==> e !in es
    ensures Count(Insert(es, e), id) == Count(es, id) + (if e.id == id then 1 else 0)
    ensures forall x :: x in Insert(es, e) <==> x in es || x == e
  {
    var r := Insert(es, e);
    if es == [] {
      assert r[1..] == [];
    } else if Less(e, es[0]) {
      assert r[1..] == es;
    } else if e != es[0] {
      CountInsert(es[1..], e, id);
      assert r[1..] == Insert(es[1..], e);
      assert es == [es[0]] + es[1..];
    }
  }

  lemma CountRemove(es: seq<Entry>, k: nat, id: Address)
    requires k < |es|
    ensures Count(es[..k] + es[k + 1..], id) == Count(es, id) - (if es[k].id == id then 1 else 0)
  {
    assert es == es[..k] + es[k..];
    assert es[k..][1..] == es[k + 1..];
    CountConcat(es[..k], es[k..], id);
    CountConcat(es[..k], es[k + 1..], id);
  }

  lemma {:induction false} CountNone(es: seq<Entry>, id: Address)
    ensures Count(es, id) == 0 <==> forall e :: e in es ==> e.id != id
  {
    if es == [] {
    } else {
      assert es == [es[0]] + es[1..];
      CountNone(es[1..], id);
    }
  }

  lemma {:induction false} CountOne(es: seq<Entry>, a: Entry, b: Entry)
    requires a in es && b in es && a.id == b.id && a != b
    ensures Count(es, a.id) >= 2
  {
    assert es == [es[0]] + es[1..];
    if es[0] == a {
      CountNone(es[1..], b.id);
    } else if es[0] == b {
      CountNone(es[1..], a.id);
    } else {
      CountOne(es[1..], a, b);
    }
  }

  predicate DistinctIds(batch: seq<Entry>)
  {
    forall i, j :: 0 <= i < j < |batch| ==> batch[i].id != batch[j].id
  }

  /** A timer of the batch was freed; what stands in the set under its address belongs to a later timer there. */
  predicate Doubled(q: Queue, batch: seq<Entry>, id: Address)
  {
    && DistinctIds(batch) && (exists e :: e in batch && e.id == id)
    && (if id in q.heap then Count(q.timers, id) == 1 && EntryOf(q.heap, id) in q.timers else Count(q.timers, id) == 0)
  }

  /** The set has an entry more under this address than there are timers at it. */
  predicate Dangling(q: Queue, batch: seq<Entry>, id: Address)
  {
    && (forall e :: e in batch ==> e.id != id)
    && Count(q.timers, id) > (if id in q.heap then 1 else 0)
  }

  predicate Spoiled(q: Queue, batch: seq<Entry>, id: Address)
  {
    Doubled(q, batch, id) || Dangling(q, batch, id)
  }

  lemma AddSpoils(q: Queue, batch: seq<Entry>, call: Call, id: Address)
    requires Spoiled(q, batch, id) && call.AddCall? && call.id !in q.heap && Perform(q, call).Ok?
    ensures Spoiled(Perform(q, call).q, batch, id)
  {
    CountInsert(q.timers, Entry(call.when, call.id), id);
  }

  lemma CancelSpoils(q: Queue, batch: seq<Entry>, target: Address, id: Address)
    requires Spoiled(q, batch, id) && CancelTimer(q, target).Ok?
    ensures Spoiled(CancelTimer(q, target).q, batch, id)
  {
    var k := Position(q.timers, target);
    CountNone(q.timers, target);
    var q' := CancelTimer(q, target).q;
    if k < |q.timers| {
      CountRemove(q.timers, k, id);
      if target != id && id in q.heap && EntryOf(q.heap, id) in q.timers {
        StillThere(q.timers, k, EntryOf(q.heap, id));
      }
    } else {
      assert forall e :: e in q.timers ==> e.id != target;
    }
  }

  lemma StillThere(es: seq<Entry>, k: nat, e: Entry)
    requires k < |es| && e in es && es[k] != e
    ensures e in es[..k] + es[k + 1..]
  {
    var i :| 0 <= i < |es| && es[i] == e;
    var r := es[..k] + es[k + 1..];
    assert e == if i < k then r[i] else r[i - 1];
  }

  lemma {:induction false} CallsSpoil(q: Queue, batch: seq<Entry>, calls: seq<Call>, id: Address)
    requires Spoiled(q, batch, id) && FreshCalls(q, calls) && PerformAll(q, calls).Ok?
    ensures Spoiled(PerformAll(q, calls).q, batch, id)
    decreases |calls|
  {
    if calls == [] {
    } else {
      match calls[0] {
        case AddCall(_, _, _, _) => AddSpoils(q, batch, calls[0], id);
        case CancelCall(target) => CancelSpoils(q, batch, target, id);
      }
      CallsSpoil(Perform(q, calls[0]).q, batch, calls[1..], id);
    }
  }

  /** A repeating timer's next entry is not in the set while its present one is the only one. */
  lemma NextIsNew(es: seq<Entry>, present: Entry, next: Entry)
    requires Count(es, present.id) == 1 && present in es && next.id == present.id && next != present
    ensures next !in es
  {
    if next in es {
      CountOne(es, present, next);
    }
  }

  /** The turn of the freed timer itself fires the later timer at its address and leaves one entry too many. */
  lemma OwnTurnSpoils(q: Queue, batch: seq<Entry>, id: Address)
    requires Doubled(q, batch, id) && batch != [] && batch[0].id == id && id in q.heap
    ensures Dangling(Settle(q, batch[0]), batch[1..], id)
  {
    var t := q.heap[id];
    if !t.canceled && t.Repeat() {
      var next := Entry(t.Restart().when, id);
      NextIsNew(q.timers, EntryOf(q.heap, id), next);
      CountInsert(q.timers, next, id);
    }
  }

  lemma OtherTurnSpoils(q: Queue, batch: seq<Entry>, id: Address)
    requires Spoiled(q, batch, id) && batch != [] && batch[0].id != id && batch[0].id in q.heap
    ensures Spoiled(Settle(q, batch[0]), batch[1..], id)
  {
    var e := batch[0];
    assert batch == [e] + batch[1..];
    CountInsert(q.timers, Entry(q.heap[e.id].Restart().when, e.id), id);
  }

  lemma TurnSpoils(q: Queue, batch: seq<Entry>, id: Address)
    requires Spoiled(q, batch, id) && batch != [] && batch[0].id in q.heap
    ensures Spoiled(Settle(q, batch[0]), batch[1..], id)
  {
    if batch[0].id == id {
      assert batch[0] in batch;
      OwnTurnSpoils(q, batch, id);
    } else {
      OtherTurnSpoils(q, batch, id);
    }
  }

  lemma {:induction false} BatchSpoils(q: Queue, batch: seq<Entry>, now: Time, scripts: seq<seq<Call>>, id: Address)
    requires Spoiled(q, batch, id) && FreshScripts(q, batch, now, scripts) && FireAll(q, batch, now, scripts).Ok?
    ensures Spoiled(FireAll(q, batch, now, scripts).q, [], id)
    decreases |batch|
  {
    if batch == [] {
    } else {
      var e, calls := batch[0], CallsOf(scripts);
      var logged := q.(log := q.log + [e]);
      var ran := if q.heap[e.id].canceled then q else PerformAll(logged, calls).q;
      if !q.heap[e.id].canceled {
        CallsSpoil(logged, batch, calls, id);
      }
      TurnSpoils(ran, batch, id);
      assert FireOne(q, e, now, calls) == Ok(Settle(ran, e));
      BatchSpoils(Settle(ran, e), batch[1..], now, OtherScripts(scripts), id);
    }
  }

  /** A spoiled queue does not meet the invariant. */
  lemma SpoiledIsBroken(q: Queue, id: Address)
    requires Spoiled(q, [], id)
    ensures !PassInv(q, [])
  {
    if PassInv(q, []) {
      CountNone(q.timers, id);
      var e :| e in q.timers && e.id == id;
      assert e == EntryOf(q.heap, id);
      OnlyOne(q.timers, e);
    }
  }

  lemma {:induction false} OnlyOne(es: seq<Entry>, e: Entry)
    requires Sorted(es) && forall x :: x in es && x.id == e.id ==> x == e
    ensures Count(es, e.id) <= 1
  {
    if es == [] {
    } else {
      assert es == [es[0]] + es[1..];
      if es[0].id == e.id {
        assert forall x :: x in es[1..] ==> Less(es[0], x);
        CountNone(es[1..], e.id);
      } else {
        OnlyOne(es[1..], e);
      }
    }
  }

  /** Cancelling a timer of the batch spoils the queue. */
  lemma BadCancelSpoils(q: Queue, batch: seq<Entry>, target: Address)
    requires PassInv(q, batch) && CancelTimer(q, target).Ok? && !Allowed(q, CancelCall(target))
    ensures Doubled(CancelTimer(q, target).q, batch, target)
  {
    CountNone(q.timers, target);
    forall i, j | 0 <= i < j < |batch| ensures batch[i].id != batch[j].id {
      assert batch[i] in batch && batch[j] in batch && Less(batch[i], batch[j]);
    }
    assert EntryOf(q.heap, target) in batch;
  }

  lemma {:induction false} BadCallsSpoil(q: Queue, batch: seq<Entry>, calls: seq<Call>) returns (id: Address)
    requires PassInv(q, batch) && FreshCalls(q, calls) && PerformAll(q, calls).Ok? && !AllAllowed(q, calls)
    ensures Spoiled(PerformAll(q, calls).q, batch, id)
    decreases |calls|
  {
    if Allowed(q, calls[0]) {
      CallKeeps(q, batch, calls[0]);
      id := BadCallsSpoil(Perform(q, calls[0]).q, batch, calls[1..]);
    } else {
      id := calls[0].target;
      BadCancelSpoils(q, batch, id);
      CallsSpoil(Perform(q, calls[0]).q, batch, calls[1..], id);
    }
  }

  lemma {:induction false} BadScriptsBreak(q: Queue, batch: seq<Entry>, now: Time, scripts: seq<seq<Call>>)
    requires PassInv(q, batch) && Due(batch, now) && FreshScripts(q, batch, now, scripts)
    requires FireAll(q, batch, now, scripts).Ok? && !ScriptsAllowed(q, batch, now, scripts)
    ensures !PassInv(FireAll(q, batch, now, scripts).q, [])
    decreases |batch|
  {
    var e, calls := batch[0], CallsOf(scripts);
    assert e in batch;
    var logged := q.(log := q.log + [e]);
    if AllAllowed(logged, calls) {
      FireOneKeeps(q, batch, now, calls);
      BadScriptsBreak(FireOne(q, e, now, calls).q, batch[1..], now, OtherScripts(scripts));
    } else {
      var ran := PerformAll(logged, calls).q;
      var id := BadCallsSpoil(logged, batch, calls);
      TurnSpoils(ran, batch, id);
      assert FireOne(q, e, now, calls) == Ok(Settle(ran, e));
      BatchSpoils(Settle(ran, e), batch[1..], now, OtherScripts(scripts), id);
      SpoiledIsBroken(FireAll(q, batch, now, scripts).q, id);
    }
  }

  /**
   Whatever the callbacks add and cancel: a pass goes through and leaves every timer in its place if
   and only if each cancel is of a timer that is in the set when it is made.
   */
  lemma PassSafeExactly(q: Queue, batch: seq<Entry>, now: Time, scripts: seq<seq<Call>>)
    requires PassInv(q, batch) && Due(batch, now) && FreshScripts(q, batch, now, scripts)
    ensures FireAll(q, batch, now, scripts).Ok? && PassInv(FireAll(q, batch, now, scripts).q, [])
            <==> ScriptsAllowed(q, batch, now, scripts)
  {
    if ScriptsAllowed(q, batch, now, scripts) {
      FireAllKeeps(q, batch, now, scripts);
    } else if FireAll(q, batch, now, scripts).Ok? {
      BadScriptsBreak(q, batch, now, scripts);
    }
  }

  lemma PerformTwo(q: Queue, a: Call, b: Call)
    requires Perform(q, a).Ok?
    ensures PerformAll(q, [a, b]) == Perform(Perform(q, a).q, b)
  {
    var calls, next := [a, b], Perform(q, a).q;
    assert calls[1..] == [b] && [b][1..] == [];
    assert PerformAll(next, [b]) == Perform(next, b);
  }

  /** Cancelling a timer of the batch frees it and leaves the set alone. */
  lemma BatchCancelExact(q: Queue, batch: seq<Entry>, id: Address)
    requires PassInv(q, batch) && id in q.heap && EntryOf(q.heap, id) !in q.timers
    ensures CancelTimer(q, id) == Ok(q.(heap := q.heap - {id}))
    ensures forall e :: e in q.timers ==> e.id != id
  {
    NotCanceled(q, batch, id);
  }

  lemma ReuseExact(q: Queue, id: Address, when: Time, clock: Time)
    requires id !in q.heap && forall e :: e in q.timers ==> e.id != id
    ensures var o := Perform(q, AddCall(id, when, 0, clock));
            o.Ok? && Entry(when, id) in o.q.timers && o.q.heap == q.heap[id := NewTimer(when, 0)]
  {
    CountInsert(q.timers, Entry(when, id), id);
  }

  /** Cancel a timer of the batch, then add one at its address. */
  lemma CancelAndReuse(q: Queue, batch: seq<Entry>, id: Address, when: Time, clock: Time)
    requires PassInv(q, batch) && id in q.heap && EntryOf(q.heap, id) !in q.timers
    ensures var o := PerformAll(q, [CancelCall(id), AddCall(id, when, 0, clock)]);
            o.Ok? && Entry(when, id) in o.q.timers && o.q.heap == q.heap[id := NewTimer(when, 0)]
  {
    BatchCancelExact(q, batch, id);
    var canceled := q.(heap := q.heap - {id});
    PerformTwo(q, CancelCall(id), AddCall(id, when, 0, clock));
    ReuseExact(canceled, id, when, clock);
    assert (q.heap - {id})[id := NewTimer(when, 0)] == q.heap[id := NewTimer(when, 0)];
  }

  /**
   Such a pass need not end in a use after free: when the callback cancels the next timer of its batch
   and the freed address is handed out again at once, both turns go through and an entry without a
   timer stays in the set.
   */
  lemma ReusedAddressDangles(q: Queue, batch: seq<Entry>, now: Time, when: Time, clock: Time)
    requires PassInv(q, batch) && Due(batch, now) && |batch| >= 2 && when <= now
    ensures var id := batch[1].id;
            var first := FireOne(q, batch[0], now, [CancelCall(id), AddCall(id, when, 0, clock)]);
            && first.Ok?
            && var second := FireOne(first.q, batch[1], now, []);
               second.Ok? && Entry(when, id) in second.q.timers && id !in second.q.heap
  {
    var e, id := batch[0], batch[1].id;
    var calls := [CancelCall(id), AddCall(id, when, 0, clock)];
    var logged := q.(log := q.log + [e]);
    assert e in batch && batch[1] in batch && Less(e, batch[1]);
    CancelAndReuse(logged, batch, id, when, clock);
    var ran := PerformAll(logged, calls).q;
    assert FireOne(q, e, now, calls) == Ok(Settle(ran, e));
    CountInsert(ran.timers, Entry(ran.heap[e.id].Restart().when, e.id), id);
  }
}
