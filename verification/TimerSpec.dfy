/**
 TimerQueue: an ordered set of (deadline, timer) pairs multiplexed onto one one-shot timerfd.
 Times are nanoseconds on one clock. A timer's identity is its address; the heap maps the
 addresses in use to their timers, so touching a freed timer is visible as UseAfterFree; a failed
 assert is AssertFailed.
 */
module TimerSpec {
  import opened Bytes

  type Time = int
  type Address = nat

  const MILLISECOND: int := 1_000_000
  const NANO_DEN: int := 1_000_000_000

  /** `start` and `fired` are history: the first deadline and the number of restarts. */
  datatype Timer = Timer(when: Time, interval: int, canceled: bool, start: Time, fired: nat) {
    predicate Repeat() { interval > 0 }

    predicate Expired(now: Time) { now >= when }

    function Restart(): Timer
    {
      this.(when := when + interval, fired := fired + 1)
    }
  }

  function NewTimer(when: Time, interval: int): Timer
  {
    Timer(when, interval, false, when, 0)
  }

  // ---- the timer descriptor ----

  datatype Timespec = Timespec(sec: int, nsec: int)

  function DurationFromNow(when: Time, now: Time): Timespec
  {
    var ns := if when - now < MILLISECOND then MILLISECOND else when - now;
    Timespec(ns / NANO_DEN, ns % NANO_DEN)
  }

  datatype TimerFd = TimerFd(armed: Option<Time>, readable: bool)

  /** timerfd_settime with a relative value: zero disarms, anything else arms and drops old expirations. */
  function SetTime(value: Timespec, now: Time): TimerFd
  {
    if value == Timespec(0, 0) then TimerFd(None, false)
    else TimerFd(Some(now + value.sec * NANO_DEN + value.nsec), false)
  }

  function Max(a: int, b: int): int { if a < b then b else a }

  /** The delay programmed is exactly max(when - now, 1 ms), split canonically, and never the disarming zero. */
  lemma DelayExact(when: Time, now: Time)
    ensures var d := DurationFromNow(when, now);
            && d.sec * 1_000_000_000 + d.nsec == Max(when - now, 1_000_000)
            && 0 <= d.nsec < 1_000_000_000 && 0 <= d.sec && d != Timespec(0, 0)
    ensures SetTime(DurationFromNow(when, now), now) == TimerFd(Some(Max(when, now + 1_000_000)), false)
    ensures SetTime(DurationFromNow(when, now), now).armed.value <= when <==> now + 1_000_000 <= when
    ensures Max(when, now) >= when && Max(when, now) >= now && (Max(when, now) == when || Max(when, now) == now)
  {
  }

  // ---- the ordered set ----

  datatype Entry = Entry(when: Time, id: Address)

  predicate Less(a: Entry, b: Entry)
  {
    a.when < b.when || (a.when == b.when && a.id < b.id)
  }

  predicate Sorted(es: seq<Entry>)
  {
    forall i, j :: 0 <= i < j < |es| ==> Less(es[i], es[j])
  }

  /** std::set::insert. */
  function Insert(es: seq<Entry>, e: Entry): seq<Entry>
  {
    if es == [] then [e]
    else if Less(e, es[0]) then [e] + es
    else if e == es[0] then es
    else [es[0]] + Insert(es[1..], e)
  }

  /** std::set::lower_bound: how many entries come before `key`. */
  function LowerBound(es: seq<Entry>, key: Entry): (k: nat)
    ensures k <= |es|
    ensures forall i :: 0 <= i < k ==> Less(es[i], key)
    ensures k < |es| ==> !Less(es[k], key)
  {
    if es == [] || !Less(es[0], key) then 0
    else
      var rest := LowerBound(es[1..], key);
      assert forall i :: 1 <= i < rest + 1 ==> es[i] == es[1..][i - 1];
      rest + 1
  }

  lemma {:induction false} InsertFacts(es: seq<Entry>, e: Entry)
    requires Sorted(es)
    ensures Sorted(Insert(es, e))
    ensures forall x :: x in Insert(es, e) <==> x in es || x == e
    ensures Insert(es, e)[0] == e || (es != [] && Insert(es, e)[0] == es[0])
  {
    if es == [] {
    } else {
      var tail := es[1..];
      assert es == [es[0]] + tail;
      if !Less(e, es[0]) && e != es[0] {
        InsertFacts(tail, e);
        var r := Insert(tail, e);
        forall i | 0 <= i < |r|
          ensures Less(es[0], r[i])
        {
          assert r[i] in r;
        }
      }
    }
  }

  // ---- the queue ----

  /**
   `setAt` is when the timerfd was last programmed; `log` lists the firings as (deadline, timer);
   `born` is the length the log had when the timer at an address was added.
   */
  datatype Queue = Queue(
    timers: seq<Entry>,
    heap: map<Address, Timer>,
    fd: TimerFd,
    setAt: Time,
    log: seq<Entry>,
    born: map<Address, nat>)

  datatype Outcome = Ok(q: Queue) | UseAfterFree | AssertFailed {
    predicate IsFailure() { !Ok? }

    function PropagateFailure(): Outcome
      requires IsFailure()
    {
      this
    }

    function Extract(): Queue
      requires !IsFailure()
    {
      q
    }
  }

  const EMPTY_QUEUE := Queue([], map[], TimerFd(None, false), 0, [], map[])

  function TimerfdSet(q: Queue, when: Time, now: Time): Queue
  {
    q.(fd := SetTime(DurationFromNow(when, now), now), setAt := now)
  }

  /** addTimer on the loop thread, the entry being new; `id` is the address the allocator hands out. */
  function AddTimer(q: Queue, id: Address, when: Time, interval: int, now: Time): Queue
  {
    var e := Entry(when, id);
    var added := q.(heap := q.heap[id := NewTimer(when, interval)], timers := Insert(q.timers, e),
                    born := q.born[id := |q.log|]);
    if added.timers[0] == e then TimerfdSet(added, when, now) else added
  }

  /** The position of the first entry of this timer, or the length. */
  function Position(es: seq<Entry>, id: Address): (k: nat)
    ensures k <= |es|
    ensures k < |es| ==> es[k].id == id
    ensures forall i :: 0 <= i < k ==> es[i].id != id
  {
    if es == [] || es[0].id == id then 0
    else
      var rest := Position(es[1..], id);
      assert forall i :: 1 <= i < rest + 1 ==> es[i] == es[1..][i - 1];
      rest + 1
  }

  /** cancelTimer on the loop thread: marks the timer, drops its entry if there is one, frees it either way. */
  function CancelTimer(q: Queue, id: Address): Outcome
  {
    if id !in q.heap then UseAfterFree
    else if q.heap[id].canceled then AssertFailed
    else
      var k := Position(q.timers, id);
      var timers := if k < |q.timers| then q.timers[..k] + q.timers[k + 1..] else q.timers;
      Ok(q.(timers := timers, heap := q.heap - {id}))
  }

  /** What a timer callback may do to the queue it runs in. */
  datatype Call = AddCall(id: Address, when: Time, interval: int, now: Time) | CancelCall(target: Address)

  function Perform(q: Queue, call: Call): Outcome
  {
    match call
    case AddCall(id, when, interval, now) =>
      if Entry(when, id) in q.timers then AssertFailed else Ok(AddTimer(q, id, when, interval, now))
    case CancelCall(target) => CancelTimer(q, target)
  }

  function PerformAll(q: Queue, calls: seq<Call>): Outcome
    decreases |calls|
  {
    if calls == [] then Ok(q)
    else
      var next :- Perform(q, calls[0]);
      PerformAll(next, calls[1..])
  }

  /** One turn of the loop in handleRead; `calls` is what the callback does. */
  function FireOne(q: Queue, e: Entry, now: Time, calls: seq<Call>): Outcome
  {
    if e.id !in q.heap then UseAfterFree
    else if !q.heap[e.id].Expired(now) then AssertFailed
    else
      var ran :- if q.heap[e.id].canceled then Ok(q) else PerformAll(q.(log := q.log + [e]), calls);
      if e.id !in ran.heap then UseAfterFree
      else
        var t := ran.heap[e.id];
        if !t.canceled && t.Repeat() then
          Ok(ran.(heap := ran.heap[e.id := t.Restart()], timers := Insert(ran.timers, Entry(t.Restart().when, e.id))))
        else Ok(ran.(heap := ran.heap - {e.id}))
  }

  function CallsOf(scripts: seq<seq<Call>>): seq<Call>
  {
    if scripts == [] then [] else scripts[0]
  }

  function OtherScripts(scripts: seq<seq<Call>>): seq<seq<Call>>
  {
    if scripts == [] then [] else scripts[1..]
  }

  function FireAll(q: Queue, batch: seq<Entry>, now: Time, scripts: seq<seq<Call>>): Outcome
    decreases |batch|
  {
    if batch == [] then Ok(q)
    else
      var next :- FireOne(q, batch[0], now, CallsOf(scripts));
      FireAll(next, batch[1..], now, OtherScripts(scripts))
  }

  function ExpiredCount(timers: seq<Entry>, now: Time): (k: nat)
    ensures k <= |timers|
  {
    LowerBound(timers, Entry(now + 1, 0))
  }

  /** The start of handleRead: consume the expiration, take the expired entries out of the set. */
  function TakeExpired(q: Queue, now: Time): Queue
  {
    q.(fd := q.fd.(readable := false), timers := q.timers[ExpiredCount(q.timers, now)..])
  }

  /** handleRead; `later` is the clock when the timerfd is programmed again. */
  function HandleRead(q: Queue, now: Time, scripts: seq<seq<Call>>, later: Time): Outcome
  {
    var fired :- FireAll(TakeExpired(q, now), q.timers[..ExpiredCount(q.timers, now)], now, scripts);
    Ok(if fired.timers != [] then TimerfdSet(fired, fired.timers[0].when, later) else fired)
  }

  /** The kernel's side: the armed time is reached. */
  function Expire(q: Queue): Queue
  {
    q.(fd := TimerFd(None, true))
  }
}
