/** TimerQueue's own code, proved to compute the functions of TimerSpec. */
module TimerQueues {
  import opened Bytes
  import opened TimerSpec
  import opened TimerProofs
  import opened TimerHistory

  class TimerQueue {
    /** The ordered set timers_. */
    var timers: seq<Entry>
    /** The timers allocated and not yet deleted, by address. */
    var heap: map<Address, Timer>
    var timerfd: TimerFd
    ghost var setAt: Time
    ghost var log: seq<Entry>
    ghost var born: map<Address, nat>

    ghost function Model(): Queue
      reads this
    {
      Queue(timers, heap, timerfd, setAt, log, born)
    }

    constructor ()
      ensures Model() == EMPTY_QUEUE && Inv(Model())
    {
      timers, heap, timerfd := [], map[], TimerFd(None, false);
      setAt, log, born := 0, [], map[];
    }

    /** The timerfd is armed for the deadline, or for 1 ms from now if that is later. */
    method TimerfdSet(when: Time, now: Time)
      modifies this`timerfd, this`setAt
      ensures timerfd == TimerFd(Some(Max(when, now + MILLISECOND)), false) && setAt == now
      ensures Model() == TimerSpec.TimerfdSet(old(Model()), when, now)
    {
      DelayExact(when, now);
      timerfd := SetTime(DurationFromNow(when, now), now);
      setAt := now;
    }

    /**
     `id` is the address of the new Timer; `now` is read only when the timerfd is programmed. Called
     from a callback, `batch` is what the pass has still to fire.
     */
    method AddTimer(id: Address, when: Time, interval: int, now: Time, ghost batch: seq<Entry>)
      requires PassInv(Model(), batch) && id !in heap
      modifies this
      ensures PassInv(Model(), batch) && Perform(old(Model()), AddCall(id, when, interval, now)) == Ok(Model())
      ensures id in heap && heap[id].interval == interval && heap[id].start == when == heap[id].when
      ensures Entry(when, id) in timers && forall x :: x != id ==> (x in heap <==> x in old(heap))
    {
      AddKeeps(Model(), batch, id, when, interval, now);
      InsertFacts(timers, Entry(when, id));
      heap := heap[id := NewTimer(when, interval)];
      born := born[id := |log|];
      var entry := Entry(when, id);
      assert entry !in timers;
      timers := Insert(timers, entry);
      if timers[0] == entry {
        TimerfdSet(when, now);
      }
    }

    /** The timer must still exist; that it is not cancelled yet is proved. */
    method CancelTimer(id: Address, ghost batch: seq<Entry>)
      requires PassInv(Model(), batch) && id in heap
      modifies this`timers, this`heap
      ensures TimerSpec.CancelTimer(old(Model()), id) == Ok(Model()) && heap == old(heap) - {id}
    {
      NotCanceled(Model(), batch, id);
      CancelAndDrop(id);
    }

    /** cancel(), the search through the set, and the delete. */
    method CancelAndDrop(id: Address)
      requires id in heap && !heap[id].canceled
      modifies this`timers, this`heap
      ensures TimerSpec.CancelTimer(old(Model()), id) == Ok(Model())
    {
      heap := heap[id := heap[id].(canceled := true)];
      var it := 0;
      while it < |timers|
        invariant 0 <= it <= |timers|
        invariant forall i :: 0 <= i < it ==> timers[i].id != id
      {
        if timers[it].id == id {
          timers := timers[..it] + timers[it + 1..];
          heap := heap - {id};
          return;
        }
        it := it + 1;
      }
      heap := heap - {id};
    }

    method GetExpired(now: Time) returns (ret: seq<Entry>)
      modifies this`timers
      ensures ret == old(timers)[..ExpiredCount(old(timers), now)]
      ensures timers == old(timers)[ExpiredCount(old(timers), now)..]
      ensures forall e :: e in ret ==> e.when <= now
    {
      var end := LowerBound(timers, Entry(now + 1, 0));
      ret := timers[..end];
      timers := timers[end..];
    }

    /** What a callback does to this queue. */
    method RunCallback(calls: seq<Call>, ghost batch: seq<Entry>)
      requires PassInv(Model(), batch) && AllAllowed(Model(), calls)
      modifies this
      ensures PerformAll(old(Model()), calls) == Ok(Model())
      decreases |calls|
    {
      if calls != [] {
        CallKeeps(Model(), batch, calls[0]);
        match calls[0] {
          case AddCall(id, when, interval, now) => AddTimer(id, when, interval, now, batch);
          case CancelCall(target) => CancelTimer(target, batch);
        }
        RunCallback(calls[1..], batch);
      }
    }

    /** The body of the loop in handleRead for one expired entry. */
    method Fire(e: Entry, calls: seq<Call>, now: Time, ghost batch: seq<Entry>)
      requires PassInv(Model(), batch) && batch != [] && batch[0] == e && e.when <= now
      requires AllAllowed(Model().(log := log + [e]), calls)
      modifies this
      ensures FireOne(old(Model()), e, now, calls) == Ok(Model())
    {
      FireOneKeeps(Model(), batch, now, calls);
      assert e in batch;
      assert heap[e.id].Expired(now);
      if !heap[e.id].canceled {
        log := log + [e];
        RunCallback(calls, batch);
      }
      var timer := heap[e.id];
      if !timer.canceled && timer.Repeat() {
        heap := heap[e.id := timer.Restart()];
        timers := Insert(timers, Entry(heap[e.id].when, e.id));
      } else {
        heap := heap - {e.id};
      }
    }

    method FireEach(expired: seq<Entry>, scripts: seq<seq<Call>>, now: Time)
      requires PassInv(Model(), expired) && ScriptsAllowed(Model(), expired, now, scripts)
      requires forall e :: e in expired ==> e.when <= now
      modifies this
      ensures FireAll(old(Model()), expired, now, scripts) == Ok(Model())
    {
      ghost var whole := FireAll(Model(), expired, now, scripts);
      var i, remaining := 0, scripts;
      while i < |expired|
        invariant 0 <= i <= |expired|
        invariant PassInv(Model(), expired[i..]) && ScriptsAllowed(Model(), expired[i..], now, remaining)
        invariant FireAll(Model(), expired[i..], now, remaining) == whole
      {
        ghost var batch := expired[i..];
        assert batch[0] in expired && batch[1..] == expired[i + 1..];
        FireOneKeeps(Model(), batch, now, CallsOf(remaining));
        Fire(expired[i], CallsOf(remaining), now, batch);
        remaining := OtherScripts(remaining);
        i := i + 1;
      }
    }

    /** handleRead up to the point where the timerfd is programmed again. */
    method FireExpired(now: Time, scripts: seq<seq<Call>>)
      requires PassInv(Model(), [])
      requires ScriptsAllowed(TakeExpired(Model(), now), timers[..ExpiredCount(timers, now)], now, scripts)
      modifies this
      ensures FireAll(TakeExpired(old(Model()), now), old(timers)[..ExpiredCount(old(timers), now)], now, scripts) == Ok(Model())
    {
      ghost var taken := TakeExpired(Model(), now);
      SplitKeeps(Model(), now);
      timerfd := timerfd.(readable := false);
      var expired := GetExpired(now);
      assert Model() == taken;
      FireEach(expired, scripts, now);
    }

    /** `scripts` is what the callbacks do, in firing order; `later` is the clock at the end of the pass. */
    method HandleRead(now: Time, scripts: seq<seq<Call>>, later: Time)
      requires Inv(Model())
      requires ScriptsAllowed(TakeExpired(Model(), now), timers[..ExpiredCount(timers, now)], now, scripts)
      modifies this
      ensures TimerSpec.HandleRead(old(Model()), now, scripts, later) == Ok(Model())
      ensures Inv(Model()) && log == old(log) + old(timers)[..ExpiredCount(old(timers), now)]
    {
      PassKeeps(Model(), now, scripts, later);
      FireExpired(now, scripts);
      if timers != [] {
        TimerfdSet(timers[0].when, later);
      }
    }
  }
}
