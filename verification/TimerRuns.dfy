/** The timer queue over whole runs, and the catch-up of late repeating timers. */
module TimerRuns {
  import opened Arithmetic
  import opened Bytes
  import opened TimerSpec
  import opened TimerProofs
  import opened TimerHistory

  datatype Event =
    | DoCall(call: Call)
    | KernelExpires(at: Time)
    | DoHandleRead(now: Time, scripts: seq<seq<Call>>, later: Time)

  predicate Possible(q: Queue, e: Event)
  {
    match e
    case DoCall(call) => Allowed(q, call)
    case KernelExpires(at) => q.fd.armed.Some? && q.fd.armed.value <= at
    case DoHandleRead(now, scripts, _) =>
      ScriptsAllowed(TakeExpired(q, now), q.timers[..ExpiredCount(q.timers, now)], now, scripts)
  }

  function Step(q: Queue, e: Event): Outcome
  {
    match e
    case DoCall(call) => Perform(q, call)
    case KernelExpires(_) => Ok(Expire(q))
    case DoHandleRead(now, scripts, later) => HandleRead(q, now, scripts, later)
  }

  lemma AddArms(q: Queue, id: Address, when: Time, interval: int, now: Time)
    requires Inv(q) && id !in q.heap
    ensures ArmInv(AddTimer(q, id, when, interval, now))
  {
    InsertFacts(q.timers, Entry(when, id));
    DelayExact(when, now);
  }

  lemma AddInv(q: Queue, id: Address, when: Time, interval: int, now: Time)
    requires Inv(q) && id !in q.heap
    ensures Perform(q, AddCall(id, when, interval, now)).Ok?
    ensures Inv(Perform(q, AddCall(id, when, interval, now)).q)
  {
    AddKeeps(q, [], id, when, interval, now);
    AddArms(q, id, when, interval, now);
    AddTraces(q, None, id, when, interval, now);
  }

  lemma CancelInv(q: Queue, id: Address)
    requires Inv(q) && id in q.heap && EntryOf(q.heap, id) in q.timers
    ensures CancelTimer(q, id).Ok? && Inv(CancelTimer(q, id).q)
  {
    CancelKeeps(q, [], id);
    PositionFound(q.timers, EntryOf(q.heap, id));
    var k := Position(q.timers, id);
    var timers := q.timers[..k] + q.timers[k + 1..];
    if timers != [] {
      assert timers[0] == if k > 0 then q.timers[0] else q.timers[1];
    }
  }

  /**
   Every event keeps the invariant: no assert fails, nothing freed is ever touched, the timerfd
   stays armed and every timer stays on its grid.
   */
  lemma StepKeeps(q: Queue, e: Event)
    requires Inv(q) && Possible(q, e)
    ensures Step(q, e).Ok? && Inv(Step(q, e).q)
  {
    match e
    case DoCall(AddCall(id, when, interval, now)) => AddInv(q, id, when, interval, now);
    case DoCall(CancelCall(target)) => CancelInv(q, target);
    case KernelExpires(_) =>
    case DoHandleRead(now, scripts, later) => PassKeeps(q, now, scripts, later);
  }

  predicate Follows(q: Queue, e: Event, q': Queue)
  {
    Possible(q, e) && Step(q, e) == Ok(q')
  }

  ghost predicate IsRun(states: seq<Queue>, events: seq<Event>)
  {
    && |states| == |events| + 1
    && Inv(states[0])
    && forall i {:trigger Follows(states[i], events[i], states[i + 1])} ::
         0 <= i < |events| ==> Follows(states[i], events[i], states[i + 1])
  }

  lemma {:induction false} EveryStateInv(states: seq<Queue>, events: seq<Event>, i: nat)
    requires IsRun(states, events) && i < |states|
    ensures Inv(states[i])
  {
    if i == 0 {
    } else {
      var k := i - 1;
      EveryStateInv(states, events, k);
      assert Follows(states[k], events[k], states[k + 1]);
      StepKeeps(states[k], events[k]);
    }
  }

  /**
   Arming: at every moment a non-empty queue has its timerfd readable, or armed for a time no later
   than the earliest deadline or one millisecond after it was programmed, whichever is later; and it
   is armed by the earliest deadline exactly when it was programmed at least a millisecond before.
   */
  lemma AlwaysArmed(states: seq<Queue>, events: seq<Event>, i: nat)
    requires IsRun(states, events) && i < |states| && states[i].timers != []
    ensures states[i].fd.readable || states[i].fd.armed.Some?
    ensures !states[i].fd.readable ==>
              states[i].fd.armed.value <= Max(states[i].timers[0].when, states[i].setAt + MILLISECOND)
    ensures !states[i].fd.readable ==>
              (states[i].fd.armed.value <= states[i].timers[0].when
               <==> states[i].setAt + MILLISECOND <= states[i].timers[0].when)
    ensures forall e :: e in states[i].timers ==> states[i].timers[0].when <= e.when
  {
    EveryStateInv(states, events, i);
    var timers := states[i].timers;
    forall e | e in timers ensures timers[0].when <= e.when {
      var j :| 0 <= j < |timers| && timers[j] == e;
      assert j == 0 || Less(timers[0], timers[j]);
    }
  }

  /**
   Conservation: at every moment the timers in use are exactly those in the set, each once under its
   own deadline, none cancelled.
   */
  lemma TimersConserved(states: seq<Queue>, events: seq<Event>, i: nat)
    requires IsRun(states, events) && i < |states|
    ensures var q := states[i];
            && (forall id :: id in q.heap ==> EntryOf(q.heap, id) in q.timers && !q.heap[id].canceled)
            && (forall e :: e in q.timers ==> e.id in q.heap && e == EntryOf(q.heap, e.id))
            && (forall a, b :: 0 <= a < b < |q.timers| ==> q.timers[a].id != q.timers[b].id)
  {
    EveryStateInv(states, events, i);
    var q := states[i];
    forall a, b | 0 <= a < b < |q.timers| ensures q.timers[a].id != q.timers[b].id {
      assert q.timers[a] in q.timers && q.timers[b] in q.timers && Less(q.timers[a], q.timers[b]);
    }
  }

  /** What the log holds of one timer since it was added. */
  function FiredSoFar(q: Queue, id: Address): seq<Entry>
    requires id in q.born && q.born[id] <= |q.log|
  {
    Firings(q.log[q.born[id]..], id)
  }

  /**
   No drift: at every moment of every run the n-th firing of a live timer, as logged, was for its
   first deadline plus n intervals, and the next is due one interval after the last; a timer that
   does not repeat has not fired yet.
   */
  lemma NoDriftOverRuns(states: seq<Queue>, events: seq<Event>, i: nat, id: Address)
    requires IsRun(states, events) && i < |states| && id in states[i].heap
    ensures id in states[i].born && states[i].born[id] <= |states[i].log|
    ensures var t, fs := states[i].heap[id], FiredSoFar(states[i], id);
            && (forall n :: 0 <= n < |fs| ==> fs[n] == Entry(t.start + n * t.interval, id))
            && t.when == t.start + |fs| * t.interval
            && (!t.Repeat() ==> fs == [])
  {
    EveryStateInv(states, events, i);
    assert TimerOk(states[i].heap[id]);
  }

  /** A pass fires exactly the timers due at its clock reading, in deadline order and once each, however late it is. */
  lemma PassFiresDueTimersOnce(states: seq<Queue>, events: seq<Event>, i: nat)
    requires IsRun(states, events) && i < |events| && events[i].DoHandleRead?
    ensures var q, now := states[i], events[i].now;
            var due := q.timers[..ExpiredCount(q.timers, now)];
            && states[i + 1].log == q.log + due
            && (forall e :: e in q.timers ==> (e in due <==> e.when <= now))
            && (forall a, b :: 0 <= a < b < |due| ==> Less(due[a], due[b]) && due[a].id != due[b].id)
  {
    EveryStateInv(states, events, i);
    TimersConserved(states, events, i);
    assert Follows(states[i], events[i], states[i + 1]);
    var q, e := states[i], events[i];
    PassKeeps(q, e.now, e.scripts, e.later);
    ExpiredExact(q.timers, e.now);
    var k := ExpiredCount(q.timers, e.now);
    assert q.timers == q.timers[..k] + q.timers[k..];
  }

  // ---- a pass consumes the expiration ----

  lemma {:induction false} CallsLeaveUnreadable(q: Queue, calls: seq<Call>)
    requires !q.fd.readable && PerformAll(q, calls).Ok?
    ensures !PerformAll(q, calls).q.fd.readable
    decreases |calls|
  {
    if calls == [] {
    } else {
      CallsLeaveUnreadable(Perform(q, calls[0]).q, calls[1..]);
    }
  }

  lemma {:induction false} TurnsLeaveUnreadable(q: Queue, batch: seq<Entry>, now: Time, scripts: seq<seq<Call>>)
    requires !q.fd.readable && FireAll(q, batch, now, scripts).Ok?
    ensures !FireAll(q, batch, now, scripts).q.fd.readable
    decreases |batch|
  {
    if batch == [] {
    } else {
      if !q.heap[batch[0].id].canceled {
        CallsLeaveUnreadable(q.(log := q.log + [batch[0]]), CallsOf(scripts));
      }
      TurnsLeaveUnreadable(FireOne(q, batch[0], now, CallsOf(scripts)).q, batch[1..], now, OtherScripts(scripts));
    }
  }

  /** After handleRead the timerfd is not readable any more, so the poll does not report it at once. */
  lemma PassConsumesExpiration(q: Queue, now: Time, scripts: seq<seq<Call>>, later: Time)
    requires HandleRead(q, now, scripts, later).Ok?
    ensures !HandleRead(q, now, scripts, later).q.fd.readable
  {
    var batch := q.timers[..ExpiredCount(q.timers, now)];
    TurnsLeaveUnreadable(TakeExpired(q, now), batch, now, scripts);
    var fired := FireAll(TakeExpired(q, now), batch, now, scripts).q;
    if fired.timers != [] {
      DelayExact(fired.timers[0].when, later);
    }
  }

  // ---- catch-up ----

  /** How many times a timer with this deadline is overdue at `now`. */
  function Overdue(when: Time, interval: int, now: Time): nat
  {
    if when > now then 0
    else if interval <= 0 then 1
    else
      DivNonNegative(now - when, interval);
      (now - when) / interval + 1
  }

  /** The firings owed by the entries. */
  function Debt(es: seq<Entry>, heap: map<Address, Timer>, now: Time): nat
  {
    if es == [] then 0
    else (if es[0].id in heap then Overdue(es[0].when, heap[es[0].id].interval, now) else 0) + Debt(es[1..], heap, now)
  }

  lemma RestartPaysOne(when: Time, interval: int, now: Time)
    requires interval > 0 && when <= now
    ensures Overdue(when + interval, interval, now) + 1 == Overdue(when, interval, now)
  {
    var a := now - when;
    if a < interval {
      assert a / interval == 0;
    } else {
      DivStep(a, interval);
    }
  }

  lemma {:induction false} DebtFrame(es: seq<Entry>, heap: map<Address, Timer>, heap': map<Address, Timer>, now: Time)
    requires forall e :: e in es ==> e.id in heap && e.id in heap' && heap[e.id].interval == heap'[e.id].interval
    ensures Debt(es, heap, now) == Debt(es, heap', now)
  {
    if es == [] {
    } else {
      assert forall e :: e in es[1..] ==> e in es;
      DebtFrame(es[1..], heap, heap', now);
    }
  }

  lemma {:induction false} DebtInsert(es: seq<Entry>, e: Entry, heap: map<Address, Timer>, now: Time)
    requires e !in es && e.id in heap
    ensures Debt(Insert(es, e), heap, now) == Debt(es, heap, now) + Overdue(e.when, heap[e.id].interval, now)
  {
    var r := Insert(es, e);
    if es == [] {
      assert r[1..] == [];
    } else if Less(e, es[0]) {
      assert r[1..] == es;
    } else {
      DebtInsert(es[1..], e, heap, now);
      assert r[1..] == Insert(es[1..], e);
    }
  }

  function TotalDebt(q: Queue, batch: seq<Entry>, now: Time): nat
  {
    Debt(q.timers, q.heap, now) + Debt(batch, q.heap, now)
  }

  lemma RestartPays(q: Queue, e: Entry, rest: seq<Entry>, now: Time)
    requires InTurn(q, e, rest) && e.id in q.heap && q.heap[e.id].Repeat() && e.when <= now
    requires q.heap[e.id].when == e.when
    ensures TotalDebt(Settle(q, e), rest, now) + 1
            == TotalDebt(q, rest, now) + Overdue(e.when, q.heap[e.id].interval, now)
  {
    var q' := Settle(q, e);
    DebtFrame(q.timers, q.heap, q'.heap, now);
    DebtFrame(rest, q.heap, q'.heap, now);
    DebtInsert(q.timers, Entry(q.heap[e.id].Restart().when, e.id), q'.heap, now);
    RestartPaysOne(e.when, q.heap[e.id].interval, now);
  }

  lemma FreePays(q: Queue, e: Entry, rest: seq<Entry>, now: Time)
    requires InTurn(q, e, rest) && e.id in q.heap && !q.heap[e.id].Repeat() && e.when <= now
    requires q.heap[e.id].when == e.when
    ensures TotalDebt(Settle(q, e), rest, now) + 1
            == TotalDebt(q, rest, now) + Overdue(e.when, q.heap[e.id].interval, now)
  {
    var q' := Settle(q, e);
    DebtFrame(q.timers, q.heap, q'.heap, now);
    DebtFrame(rest, q.heap, q'.heap, now);
  }

  /** Firing one due timer pays exactly one of the firings owed, whatever its lateness. */
  lemma FireOnePays(q: Queue, batch: seq<Entry>, now: Time)
    requires PassInv(q, batch) && batch != [] && batch[0].when <= now
    ensures var o := FireOne(q, batch[0], now, []);
            o.Ok? && TotalDebt(o.q, batch[1..], now) + 1 == TotalDebt(q, batch, now)
  {
    var logged := q.(log := q.log + [batch[0]]);
    SettlePays(logged, batch, now);
    assert batch[0] in batch;
    assert FireOne(q, batch[0], now, []) == Ok(Settle(logged, batch[0]));
  }

  lemma TurnStarts(q: Queue, batch: seq<Entry>)
    requires PassInv(q, batch) && batch != []
    ensures InTurn(q, batch[0], batch[1..])
    ensures batch[0].id in q.heap && q.heap[batch[0].id].when == batch[0].when && !q.heap[batch[0].id].canceled
  {
    var e, rest := batch[0], batch[1..];
    assert e in batch;
    assert forall x :: x in batch <==> x == e || x in rest;
    assert forall i :: 0 <= i < |rest| ==> Less(e, rest[i]);
  }

  lemma {:induction false} QuietScripts(q: Queue, batch: seq<Entry>, now: Time)
    requires PassInv(q, batch) && Due(batch, now)
    ensures ScriptsAllowed(q, batch, now, [])
    decreases |batch|
  {
    if batch == [] {
    } else {
      assert batch[0] in batch;
      FireOneKeeps(q, batch, now, []);
      QuietScripts(FireOne(q, batch[0], now, []).q, batch[1..], now);
    }
  }

  lemma {:induction false} FireAllPays(q: Queue, batch: seq<Entry>, now: Time)
    requires PassInv(q, batch) && Due(batch, now)
    ensures FireAll(q, batch, now, []).Ok?
    ensures TotalDebt(FireAll(q, batch, now, []).q, [], now) + |batch| == TotalDebt(q, batch, now)
    decreases |batch|
  {
    if batch == [] {
    } else {
      assert batch[0] in batch && forall e :: e in batch[1..] ==> e in batch;
      FireOnePays(q, batch, now);
      FireOneKeeps(q, batch, now, []);
      FireAllPays(FireOne(q, batch[0], now, []).q, batch[1..], now);
    }
  }

  /** handleRead with callbacks that leave the queue alone, at a fixed clock. */
  function Pass(q: Queue, now: Time): Outcome
  {
    HandleRead(q, now, [], now)
  }

  lemma {:induction false} DebtSplit(a: seq<Entry>, b: seq<Entry>, heap: map<Address, Timer>, now: Time)
    ensures Debt(a + b, heap, now) == Debt(a, heap, now) + Debt(b, heap, now)
  {
    if a == [] {
      assert a + b == b;
    } else {
      assert (a + b)[1..] == a[1..] + b;
      DebtSplit(a[1..], b, heap, now);
    }
  }

  /** Each pass lowers the firings owed by exactly the number of timers that were due. */
  lemma PassPays(q: Queue, now: Time)
    requires Inv(q)
    ensures Pass(q, now).Ok? && Inv(Pass(q, now).q)
    ensures Debt(Pass(q, now).q.timers, Pass(q, now).q.heap, now) + ExpiredCount(q.timers, now)
            == Debt(q.timers, q.heap, now)
  {
    var k := ExpiredCount(q.timers, now);
    var taken, batch := TakeExpired(q, now), q.timers[..k];
    SplitKeeps(q, now);
    ExpiredExact(q.timers, now);
    QuietScripts(taken, batch, now);
    PassKeeps(q, now, [], now);
    FireAllPays(taken, batch, now);
    DebtSplit(batch, q.timers[k..], q.heap, now);
    assert q.timers == batch + q.timers[k..];
  }

  /** The passes needed, at a fixed clock, until nothing is due any more. */
  ghost function PassesToCatchUp(q: Queue, now: Time): nat
    requires Inv(q)
    decreases Debt(q.timers, q.heap, now)
  {
    if ExpiredCount(q.timers, now) == 0 then 0
    else
      PassPays(q, now);
      1 + PassesToCatchUp(Pass(q, now).q, now)
  }

  ghost function AfterPasses(q: Queue, now: Time, n: nat): Queue
    requires Inv(q)
    decreases n
  {
    if n == 0 then q
    else
      PassPays(q, now);
      AfterPasses(Pass(q, now).q, now, n - 1)
  }

  lemma OnePass(q: Queue, now: Time)
    requires Inv(q) && ExpiredCount(q.timers, now) > 0
    ensures Pass(q, now).Ok? && Inv(Pass(q, now).q)
    ensures Debt(Pass(q, now).q.timers, Pass(q, now).q.heap, now) < Debt(q.timers, q.heap, now)
    ensures PassesToCatchUp(q, now) == 1 + PassesToCatchUp(Pass(q, now).q, now)
    ensures AfterPasses(q, now, PassesToCatchUp(q, now))
            == AfterPasses(Pass(q, now).q, now, PassesToCatchUp(Pass(q, now).q, now))
  {
    PassPays(q, now);
  }

  /**
   Catch-up terminates: with the clock held still, a number of passes bounded by the firings owed
   leaves no timer due, and no timer's deadline strays from its grid.
   */
  lemma {:induction false} CatchUpTerminates(q: Queue, now: Time)
    requires Inv(q)
    ensures PassesToCatchUp(q, now) <= Debt(q.timers, q.heap, now)
    ensures ExpiredCount(AfterPasses(q, now, PassesToCatchUp(q, now)).timers, now) == 0
    ensures Inv(AfterPasses(q, now, PassesToCatchUp(q, now)))
    decreases Debt(q.timers, q.heap, now)
  {
    if ExpiredCount(q.timers, now) == 0 {
      assert PassesToCatchUp(q, now) == 0;
    } else {
      OnePass(q, now);
      CatchUpTerminates(Pass(q, now).q, now);
    }
  }

  // ---- catch-up with busy callbacks, over runs ----

  /** Adds no timer that is already due at `now`. */
  predicate Calm(call: Call, now: Time)
  {
    call.AddCall? ==> call.when > now
  }

  predicate AllCalm(calls: seq<Call>, now: Time)
  {
    forall i :: 0 <= i < |calls| ==> Calm(calls[i], now)
  }

  predicate CalmScripts(scripts: seq<seq<Call>>, now: Time)
  {
    forall i :: 0 <= i < |scripts| ==> AllCalm(scripts[i], now)
  }

  lemma AddPays(q: Queue, batch: seq<Entry>, call: Call, now: Time)
    requires PassInv(q, batch) && Allowed(q, call) && Calm(call, now) && call.AddCall?
    ensures Perform(q, call).Ok? && TotalDebt(Perform(q, call).q, batch, now) == TotalDebt(q, batch, now)
  {
    AddKeeps(q, batch, call.id, call.when, call.interval, call.now);
    var q' := Perform(q, call).q;
    DebtFrame(q.timers, q.heap, q'.heap, now);
    DebtFrame(batch, q.heap, q'.heap, now);
    DebtInsert(q.timers, Entry(call.when, call.id), q'.heap, now);
  }

  lemma DebtRemove(es: seq<Entry>, k: nat, heap: map<Address, Timer>, now: Time)
    requires k < |es|
    ensures Debt(es[..k] + es[k + 1..], heap, now) <= Debt(es, heap, now)
  {
    assert es == es[..k] + es[k..];
    DebtSplit(es[..k], es[k..], heap, now);
    DebtSplit(es[..k], es[k + 1..], heap, now);
    assert es[k..][1..] == es[k + 1..];
  }

  predicate OfOthers(es: seq<Entry>, heap: map<Address, Timer>, target: Address)
  {
    forall e :: e in es ==> e.id in heap && e.id != target
  }

  lemma DebtForget(es: seq<Entry>, heap: map<Address, Timer>, target: Address, now: Time)
    requires OfOthers(es, heap, target)
    ensures Debt(es, heap - {target}, now) == Debt(es, heap, now)
  {
    DebtFrame(es, heap, heap - {target}, now);
  }

  lemma CancelExact(q: Queue, target: Address)
    requires target in q.heap && !q.heap[target].canceled && EntryOf(q.heap, target) in q.timers
    ensures var k := Position(q.timers, target);
            && k < |q.timers| && q.timers[k].id == target
            && CancelTimer(q, target) == Ok(q.(timers := q.timers[..k] + q.timers[k + 1..], heap := q.heap - {target}))
  {
    PositionFound(q.timers, EntryOf(q.heap, target));
  }

  /** Apart from its own, no entry of the set and none of the batch is of this timer. */
  lemma RestOfOthers(q: Queue, batch: seq<Entry>, k: nat)
    requires PassInv(q, batch) && k < |q.timers|
    ensures OfOthers(q.timers[..k] + q.timers[k + 1..], q.heap, q.timers[k].id)
    ensures OfOthers(batch, q.heap, q.timers[k].id)
  {
    RemoveAt(q.timers, k);
    assert q.timers[k] in q.timers;
  }

  lemma CancelPays(q: Queue, batch: seq<Entry>, target: Address, now: Time)
    requires PassInv(q, batch) && Allowed(q, CancelCall(target))
    ensures CancelTimer(q, target).Ok? && TotalDebt(CancelTimer(q, target).q, batch, now) <= TotalDebt(q, batch, now)
  {
    NotCanceled(q, batch, target);
    CancelExact(q, target);
    var k := Position(q.timers, target);
    RestOfOthers(q, batch, k);
    DebtRemove(q.timers, k, q.heap, now);
    DebtForget(q.timers[..k] + q.timers[k + 1..], q.heap, target, now);
    DebtForget(batch, q.heap, target, now);
  }

  lemma {:induction false} CallsPay(q: Queue, batch: seq<Entry>, calls: seq<Call>, now: Time)
    requires PassInv(q, batch) && AllAllowed(q, calls) && AllCalm(calls, now)
    ensures PerformAll(q, calls).Ok? && TotalDebt(PerformAll(q, calls).q, batch, now) <= TotalDebt(q, batch, now)
    decreases |calls|
  {
    if calls == [] {
    } else {
      CallKeeps(q, batch, calls[0]);
      match calls[0] {
        case AddCall(_, _, _, _) => AddPays(q, batch, calls[0], now);
        case CancelCall(target) => CancelPays(q, batch, target, now);
      }
      CallsPay(Perform(q, calls[0]).q, batch, calls[1..], now);
    }
  }

  lemma SettlePays(q: Queue, batch: seq<Entry>, now: Time)
    requires PassInv(q, batch) && batch != [] && batch[0].when <= now
    ensures batch[0].id in q.heap
    ensures TotalDebt(Settle(q, batch[0]), batch[1..], now) + 1 == TotalDebt(q, batch, now)
  {
    var e, rest := batch[0], batch[1..];
    TurnStarts(q, batch);
    if q.heap[e.id].Repeat() {
      RestartPays(q, e, rest, now);
    } else {
      FreePays(q, e, rest, now);
    }
  }

  lemma BusyTurnPays(q: Queue, batch: seq<Entry>, clock: Time, calls: seq<Call>, now: Time)
    requires PassInv(q, batch) && batch != [] && batch[0].when <= clock <= now
    requires AllAllowed(q.(log := q.log + [batch[0]]), calls) && AllCalm(calls, now)
    ensures var o := FireOne(q, batch[0], clock, calls);
            o.Ok? && TotalDebt(o.q, batch[1..], now) + 1 <= TotalDebt(q, batch, now)
  {
    var e := batch[0];
    assert e in batch;
    var logged := q.(log := q.log + [e]);
    CallsKeep(logged, batch, calls);
    CallsPay(logged, batch, calls, now);
    var ran := PerformAll(logged, calls).q;
    SettlePays(ran, batch, now);
    assert FireOne(q, e, clock, calls) == Ok(Settle(ran, e));
  }

  lemma {:induction false} BusyBatchPays(q: Queue, batch: seq<Entry>, clock: Time, scripts: seq<seq<Call>>, now: Time)
    requires PassInv(q, batch) && Due(batch, clock) && clock <= now
    requires ScriptsAllowed(q, batch, clock, scripts) && CalmScripts(scripts, now)
    ensures FireAll(q, batch, clock, scripts).Ok?
    ensures TotalDebt(FireAll(q, batch, clock, scripts).q, [], now) + |batch| <= TotalDebt(q, batch, now)
    decreases |batch|
  {
    if batch == [] {
    } else {
      assert batch[0] in batch;
      FireOneKeeps(q, batch, clock, CallsOf(scripts));
      BusyTurnPays(q, batch, clock, CallsOf(scripts), now);
      BusyBatchPays(FireOne(q, batch[0], clock, CallsOf(scripts)).q, batch[1..], clock, OtherScripts(scripts), now);
    }
  }

  /** Programming the timerfd at the end of a pass leaves the timers alone. */
  lemma PassEnd(q: Queue, clock: Time, scripts: seq<seq<Call>>, later: Time)
    requires FireAll(TakeExpired(q, clock), q.timers[..ExpiredCount(q.timers, clock)], clock, scripts).Ok?
    ensures var fired := FireAll(TakeExpired(q, clock), q.timers[..ExpiredCount(q.timers, clock)], clock, scripts).q;
            var o := HandleRead(q, clock, scripts, later);
            o.Ok? && o.q.timers == fired.timers && o.q.heap == fired.heap
  {
  }

  lemma TakenDebt(q: Queue, clock: Time, now: Time)
    ensures TotalDebt(TakeExpired(q, clock), q.timers[..ExpiredCount(q.timers, clock)], now) == Owed(q, now)
  {
    var k := ExpiredCount(q.timers, clock);
    DebtSplit(q.timers[..k], q.timers[k..], q.heap, now);
    assert q.timers == q.timers[..k] + q.timers[k..];
  }

  lemma BusyPassPays(q: Queue, clock: Time, scripts: seq<seq<Call>>, later: Time, now: Time)
    requires PassInv(q, []) && clock <= now && CalmScripts(scripts, now)
    requires ScriptsAllowed(TakeExpired(q, clock), q.timers[..ExpiredCount(q.timers, clock)], clock, scripts)
    ensures var o := HandleRead(q, clock, scripts, later);
            o.Ok? && Owed(o.q, now) + ExpiredCount(q.timers, clock) <= Owed(q, now)
  {
    SplitKeeps(q, clock);
    BusyBatchPays(TakeExpired(q, clock), q.timers[..ExpiredCount(q.timers, clock)], clock, scripts, now);
    PassEnd(q, clock, scripts, later);
    TakenDebt(q, clock, now);
  }

  /** Reads no clock later than `now` and adds no timer already due then. */
  predicate CalmEvent(e: Event, now: Time)
  {
    match e
    case DoCall(call) => Calm(call, now)
    case KernelExpires(_) => true
    case DoHandleRead(clock, scripts, _) => clock <= now && CalmScripts(scripts, now)
  }

  /** The firings still owed by the whole queue at `now`. */
  function Owed(q: Queue, now: Time): nat
  {
    Debt(q.timers, q.heap, now)
  }

  lemma StepPays(q: Queue, e: Event, now: Time)
    requires Inv(q) && Possible(q, e) && CalmEvent(e, now)
    ensures Step(q, e).Ok? && |Step(q, e).q.log| - |q.log| + Owed(Step(q, e).q, now) <= Owed(q, now)
  {
    match e
    case DoCall(call) =>
      CallKeeps(q, [], call);
      match call {
        case AddCall(_, _, _, _) => AddPays(q, [], call, now);
        case CancelCall(target) => CancelPays(q, [], target, now);
      }
    case KernelExpires(_) =>
    case DoHandleRead(clock, scripts, later) =>
      PassKeeps(q, clock, scripts, later);
      BusyPassPays(q, clock, scripts, later, now);
  }

  lemma NextPays(states: seq<Queue>, events: seq<Event>, k: nat, now: Time)
    requires IsRun(states, events) && k < |events| && CalmEvent(events[k], now)
    ensures |states[k + 1].log| - |states[k].log| + Owed(states[k + 1], now) <= Owed(states[k], now)
  {
    EveryStateInv(states, events, k);
    assert Follows(states[k], events[k], states[k + 1]);
    StepPays(states[k], events[k], now);
  }

  /**
   Catch-up over runs: whatever callbacks and callers add and cancel, as long as no clock reading
   passes `now` and nobody adds a timer already due at `now`, the firings made and the firings still
   owed at `now` never exceed those owed at the start.
   */
  lemma {:induction false} FiringsBounded(states: seq<Queue>, events: seq<Event>, i: nat, j: nat, now: Time)
    requires IsRun(states, events) && i <= j < |states|
    requires forall k :: i <= k < j ==> CalmEvent(events[k], now)
    ensures |states[j].log| - |states[i].log| + Owed(states[j], now) <= Owed(states[i], now)
    decreases j
  {
    if i == j {
    } else {
      var k := j - 1;
      FiringsBounded(states, events, i, k, now);
      NextPays(states, events, k, now);
    }
  }
}
