/**
 EventLoop's own code: the methods that touch pendingTasks_, quit_, doingPendingTasks_ and the
 eventfd, each proved to be the corresponding steps of the interleaving machine taken in a row.
 */
module EventLoops {
  import opened Bytes
  import opened EventLoopSpec
  import opened EventLoopProofs

  datatype Caller = OnLoopThread | OnThread(p: nat)

  class EventLoop {
    var pendingTasks: seq<Task>
    var quit: bool
    var doingPendingTasks: bool
    var wakeupCounter: nat

    /** The rest of the machine's state: program counters and history. */
    ghost var rest: State

    ghost function Model(): State
      reads this
    {
      rest.(pending := pendingTasks, quit := quit, doing := doingPendingTasks, counter := wakeupCounter)
    }

    constructor (ghost threads: nat)
      ensures Model() == Init(threads) && Inv(Model())
    {
      pendingTasks, quit, doingPendingTasks, wakeupCounter := [], false, false, 0;
      rest := Init(threads);
    }

    /** write of 1 to the eventfd: refused, leaving the counter positive, when it is full. */
    method Wakeup()
      modifies this`wakeupCounter
      ensures wakeupCounter == WriteEventfd(old(wakeupCounter))
      ensures old(wakeupCounter) <= EVENTFD_MAX ==> 0 < wakeupCounter <= EVENTFD_MAX
    {
      if wakeupCounter < EVENTFD_MAX {
        wakeupCounter := wakeupCounter + 1;
      }
    }

    method QueueInLoop(task: Task, caller: Caller)
      requires Inv(Model())
      requires caller.OnThread? ==> ProducerIs(Model(), caller.p, Idle)
      requires caller.OnLoopThread? ==> InUserCode(Model()) && Model().pc != BeforeLoop
      modifies this
      ensures Inv(Model()) && pendingTasks == old(pendingTasks) + [task]
      ensures if caller.OnThread? || old(doingPendingTasks) then wakeupCounter > 0 else wakeupCounter == old(wakeupCounter)
      ensures Model() == if caller.OnThread?
                         then Next(Next(old(Model()), Push(caller.p, task)), Wake(caller.p))
                         else Next(Next(old(Model()), LoopPush(task)), LoopDecide)
    {
      ghost var push := if caller.OnThread? then Push(caller.p, task) else LoopPush(task);
      ghost var wake := if caller.OnThread? then Wake(caller.p) else LoopDecide;
      StepKeeps(Model(), push);
      StepKeeps(Next(Model(), push), wake);
      pendingTasks := pendingTasks + [task];
      rest := rest.(pushed := rest.pushed + [task]);
      if caller.OnThread? || doingPendingTasks {
        Wakeup();
      }
      assert caller.OnThread? ==> rest.producers[caller.p := OwesWakeup][caller.p := Idle] == rest.producers;
    }

    method Quit(caller: Caller)
      requires Inv(Model()) && Model().pc != BeforeLoop
      requires caller.OnThread? ==> ProducerIs(Model(), caller.p, Idle)
      requires caller.OnLoopThread? ==> InUserCode(Model())
      modifies this
      ensures Inv(Model()) && quit
      ensures if caller.OnThread? then wakeupCounter > 0 else wakeupCounter == old(wakeupCounter)
      ensures Model() == if caller.OnThread?
                         then Next(Next(old(Model()), SetQuit(caller.p)), Wake(caller.p))
                         else Next(old(Model()), LoopQuit)
    {
      if caller.OnThread? {
        StepKeeps(Model(), SetQuit(caller.p));
        StepKeeps(Next(Model(), SetQuit(caller.p)), Wake(caller.p));
      } else {
        StepKeeps(Model(), LoopQuit);
      }
      quit := true;
      rest := rest.(quitAsked := true);
      if caller.OnThread? {
        Wakeup();
        assert rest.producers[caller.p := OwesWakeup][caller.p := Idle] == rest.producers;
      }
    }

    /** The wakeup channel's read handler. */
    method HandleRead()
      requires Inv(Model()) && Enabled(Model(), ReadWakeup)
      modifies this
      ensures Inv(Model()) && wakeupCounter == 0 && Model() == Next(old(Model()), ReadWakeup)
    {
      StepKeeps(Model(), ReadWakeup);
      wakeupCounter := 0;
      rest := rest.(pc := Dispatching(false));
    }

    /**
     doPendingTasks: `queues[k]` is what the k-th task of the batch queues while it runs. The batch
     is exactly what was pending; everything the tasks queue stays for the next pass, signalled.
     */
    method DoPendingTasks(queues: seq<seq<Task>>)
      requires Inv(Model()) && Enabled(Model(), SwapTasks)
      requires |queues| == |pendingTasks|
      modifies this
      ensures Inv(Model()) && rest.pc == AtCheck && !doingPendingTasks
      ensures rest.executed == old(rest.executed) + old(pendingTasks)
      ensures rest.pushed == old(rest.pushed) + pendingTasks
      ensures pendingTasks == Flatten(queues)
      ensures pendingTasks != [] ==> Wakeful(Model())
    {
      ghost var executedAll := rest.executed + pendingTasks;
      var tasks := SwapOut();
      var k := 0;
      while k < |tasks|
        invariant 0 <= k <= |tasks|
        invariant InBatch(tasks[k..])
        invariant rest.executed + tasks[k..] == executedAll
        invariant pendingTasks + Flatten(queues[k..]) == Flatten(queues)
        invariant rest.pushed == old(rest.pushed) + pendingTasks
      {
        ghost var executed, pending := rest.executed, pendingTasks;
        assert tasks[k..][1..] == tasks[k + 1..] && queues[k..][1..] == queues[k + 1..];
        RunOne(tasks[k..], queues[k]);
        Associative(executed, [tasks[k]], tasks[k + 1..]);
        Associative(pending, queues[k], Flatten(queues[k + 1..]));
        k := k + 1;
      }
      EndBatch();
    }

    /** The swap under the lock, then doingPendingTasks_ = true. */
    method SwapOut() returns (tasks: seq<Task>)
      requires Inv(Model()) && Enabled(Model(), SwapTasks)
      modifies this
      ensures tasks == old(pendingTasks) && pendingTasks == [] && InBatch(tasks)
      ensures rest.executed == old(rest.executed) && rest.pushed == old(rest.pushed)
    {
      StepKeeps(Model(), SwapTasks);
      tasks := pendingTasks;
      pendingTasks := [];
      rest := rest.(batch := tasks, batchEnd := |rest.pushed|, pc := Swapped);
      StepKeeps(Model(), SetDoing);
      doingPendingTasks := true;
      rest := rest.(pc := Running);
    }

    method EndBatch()
      requires InBatch([])
      modifies this`doingPendingTasks, this`rest
      ensures Inv(Model()) && rest.pc == AtCheck && !doingPendingTasks
      ensures rest.executed == old(rest.executed) && rest.pushed == old(rest.pushed)
      ensures pendingTasks != [] ==> Wakeful(Model())
    {
      StepKeeps(Model(), FinishBatch);
      doingPendingTasks := false;
      rest := rest.(pc := AtCheck);
    }

    /** doPendingTasks is in its loop with these tasks still to run. */
    ghost predicate InBatch(tasks: seq<Task>)
      reads this
    {
      Inv(Model()) && rest.pc == Running && !rest.loopPushed && doingPendingTasks && rest.batch == tasks
    }

    method RunOne(tasks: seq<Task>, queues: seq<Task>)
      requires InBatch(tasks) && tasks != []
      modifies this
      ensures InBatch(tasks[1..])
      ensures rest.executed == old(rest.executed) + [tasks[0]]
      ensures pendingTasks == old(pendingTasks) + queues
      ensures rest.pushed == old(rest.pushed) + queues
    {
      StepKeeps(Model(), RunTask);
      rest := rest.(executed := rest.executed + [tasks[0]], batch := rest.batch[1..]);
      QueueAll(tasks[1..], queues);
    }

    /** What one task's body does to the queue. */
    method QueueAll(tasks: seq<Task>, queues: seq<Task>)
      requires InBatch(tasks)
      modifies this
      ensures InBatch(tasks) && rest.executed == old(rest.executed)
      ensures pendingTasks == old(pendingTasks) + queues
      ensures rest.pushed == old(rest.pushed) + queues
      decreases |queues|
    {
      if queues != [] {
        ghost var before := Model();
        QueueInLoop(queues[0], OnLoopThread);
        assert Model().batch == before.batch && Model().executed == before.executed;
        assert Model().pushed == before.pushed + [queues[0]];
        QueueAll(tasks, queues[1..]);
      }
    }
  }
}
