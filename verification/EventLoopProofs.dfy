/** No lost wakeup, FIFO exactly-once execution, bounded passes and progress, over every interleaving. */
module EventLoopProofs {
  import opened EventLoopSpec

  /** The eventfd is readable, or a producer is about to make it so. */
  predicate Wakeful(s: State)
  {
    s.counter > 0 || OwesWakeup in s.producers
  }

  /** Every task ever pushed is executed, in the current batch, or pending, and in that order. */
  predicate QueueInv(s: State)
  {
    && s.executed + s.batch + s.pending == s.pushed
    && (s.batch != [] ==> s.pc == Swapped || s.pc == Running)
    && (s.pc == Swapped || s.pc == Running ==> |s.executed| + |s.batch| == s.batchEnd <= |s.pushed|)
  }

  predicate WakeInv(s: State)
  {
    && (s.doing <==> s.pc == Running)
    && (s.loopPushed ==> s.pc.Dispatching? || s.pc == Running)
    && (s.pc == Dispatching(true) ==> s.counter > 0)
    && (s.pending != [] && !s.pc.Dispatching? && s.pc != Exited ==> Wakeful(s) || s.loopPushed)
    && (s.pc == AtPoll && s.quit ==> Wakeful(s))
    && (s.pc == BeforeLoop ==> !s.quitAsked)
    && (s.pc == Exited ==> s.quit)
    && s.quit == s.quitAsked
    && s.counter <= EVENTFD_MAX
  }

  predicate Inv(s: State) { QueueInv(s) && WakeInv(s) }

  lemma InitInv(n: nat)
    ensures Inv(Init(n))
  {
  }

  lemma QueueKept(s: State, step: Step)
    requires QueueInv(s) && Enabled(s, step) && InContract(s, step)
    requires s.loopPushed ==> s.pc.Dispatching? || s.pc == Running
    ensures QueueInv(Next(s, step))
  {
    match step
    case Push(_, t) => assert s.executed + s.batch + (s.pending + [t]) == s.pushed + [t];
    case LoopPush(t) => assert s.executed + s.batch + (s.pending + [t]) == s.pushed + [t];
    case RunTask => assert s.executed + [s.batch[0]] + s.batch[1..] == s.executed + s.batch;
    case _ =>
  }

  lemma WakefulKept(s: State, step: Step)
    requires Enabled(s, step) && Wakeful(s) && step != ReadWakeup
    ensures Wakeful(Next(s, step))
  {
    if s.counter == 0 {
      var i :| 0 <= i < |s.producers| && s.producers[i] == OwesWakeup;
      var after := Next(s, step).producers;
      if step != Wake(i) {
        assert after[i] == OwesWakeup;
      }
    }
  }

  lemma PromiseMade(s: State, step: Step)
    requires Enabled(s, step) && (step.Push? || step.SetQuit?)
    ensures Wakeful(Next(s, step))
  {
    assert Next(s, step).producers[step.p] == OwesWakeup;
  }

  lemma WakeKept(s: State, step: Step)
    requires Inv(s) && Enabled(s, step) && InContract(s, step)
    ensures WakeInv(Next(s, step))
  {
    if step.Push? || step.SetQuit? {
      PromiseMade(s, step);
    } else if Wakeful(s) && step != ReadWakeup {
      WakefulKept(s, step);
    }
  }

  /** Every step of every thread keeps the invariant. */
  lemma StepKeeps(s: State, step: Step)
    requires Inv(s) && Enabled(s, step) && InContract(s, step)
    ensures Inv(Next(s, step))
  {
    QueueKept(s, step);
    WakeKept(s, step);
  }

  ghost predicate Follows(s: State, step: Step, s': State)
  {
    Enabled(s, step) && InContract(s, step) && s' == Next(s, step)
  }

  /** Any interleaving that starts in an invariant state, the initial one for example. */
  ghost predicate IsRun(states: seq<State>, steps: seq<Step>)
  {
    && |states| == |steps| + 1
    && Inv(states[0])
    && forall i {:trigger Follows(states[i], steps[i], states[i + 1])} ::
         0 <= i < |steps| ==> Follows(states[i], steps[i], states[i + 1])
  }

  lemma {:induction false} EveryStateInv(states: seq<State>, steps: seq<Step>, i: nat)
    requires IsRun(states, steps) && i < |states|
    ensures Inv(states[i])
  {
    if i == 0 {
    } else {
      var k := i - 1;
      EveryStateInv(states, steps, k);
      assert Follows(states[k], steps[k], states[k + 1]);
      StepKeeps(states[k], steps[k]);
    }
  }

  /**
   No lost wakeup: whenever the loop stands at the blocking poll with work queued or a quit
   requested, the eventfd is readable or some producer still owes its write; once no producer
   owes one, poll is able to return for the wakeup descriptor. A quit is never forgotten.
   */
  lemma NoLostWakeup(states: seq<State>, steps: seq<Step>, i: nat)
    requires IsRun(states, steps) && i < |states| && states[i].pc == AtPoll
    requires states[i].pending != [] || states[i].quitAsked
    ensures states[i].counter > 0 || OwesWakeup in states[i].producers
    ensures OwesWakeup !in states[i].producers ==> Enabled(states[i], PollReturns(true))
    ensures states[i].quit == states[i].quitAsked
  {
    EveryStateInv(states, steps, i);
  }

  /** The read in handleRead always finds the counter positive: its error branch is never taken. */
  lemma WakeupReadSucceeds(states: seq<State>, steps: seq<Step>, i: nat)
    requires IsRun(states, steps) && i < |steps| && steps[i] == ReadWakeup
    ensures 0 < states[i].counter <= EVENTFD_MAX
  {
    EveryStateInv(states, steps, i);
    assert Follows(states[i], steps[i], states[i + 1]);
  }

  /** Exactly once, first in first out: executed, then the rest of the batch, then pending, is all that was pushed. */
  lemma {:induction false} FifoExactlyOnce(states: seq<State>, steps: seq<Step>, i: nat, j: nat)
    requires IsRun(states, steps) && i <= j < |states|
    ensures states[i].executed + states[i].batch + states[i].pending == states[i].pushed
    ensures states[i].executed <= states[j].executed <= states[j].pushed
    ensures states[i].pushed <= states[j].pushed
    decreases j
  {
    EveryStateInv(states, steps, i);
    if i == j {
    } else {
      var k := j - 1;
      FifoExactlyOnce(states, steps, i, k);
      assert Follows(states[k], steps[k], states[k + 1]);
      HistoryGrows(states[k], steps[k]);
    }
    EveryStateInv(states, steps, j);
    ExecutedFirst(states[j]);
  }

  lemma HistoryGrows(s: State, step: Step)
    requires Enabled(s, step)
    ensures s.executed <= Next(s, step).executed && s.pushed <= Next(s, step).pushed
  {
  }

  lemma ExecutedFirst(s: State)
    requires QueueInv(s)
    ensures s.executed <= s.pushed
  {
    assert s.executed + (s.batch + s.pending) == s.pushed;
  }

  /**
   A pass runs exactly the tasks that were pending at its swap, in order: what those tasks or
   other threads queue meanwhile is left for a later pass, so every pass is finite.
   */
  lemma {:induction false} PassRunsExactlyItsBatch(states: seq<State>, steps: seq<Step>, i: nat, j: nat)
    requires IsRun(states, steps) && i < j < |states|
    requires steps[i] == SwapTasks
    requires forall k :: i < k < j ==> steps[k] != FinishBatch
    ensures states[j].pc == Swapped || states[j].pc == Running
    ensures states[j].executed + states[j].batch == states[i].executed + states[i].pending
    ensures states[j].batchEnd == |states[i].pushed|
    decreases j
  {
    var k := j - 1;
    assert Follows(states[k], steps[k], states[k + 1]);
    if k == i {
      EveryStateInv(states, steps, i);
      assert states[i].batch == [];
    } else {
      PassRunsExactlyItsBatch(states, steps, i, k);
      assert steps[k] == RunTask ==>
          states[k].executed + [states[k].batch[0]] + states[k].batch[1..] == states[k].executed + states[k].batch;
    }
  }

  /** At the end of the pass everything that was pending at the swap has run, and nothing else. */
  lemma PassComplete(states: seq<State>, steps: seq<Step>, i: nat, j: nat)
    requires IsRun(states, steps) && i < j < |steps|
    requires steps[i] == SwapTasks && steps[j] == FinishBatch
    requires forall k :: i < k < j ==> steps[k] != FinishBatch
    ensures states[j].executed == states[i].executed + states[i].pending
  {
    PassRunsExactlyItsBatch(states, steps, i, j);
    assert Follows(states[j], steps[j], states[j + 1]);
  }

  // ---- progress: what the loop thread does when left alone ----

  predicate Quiet(s: State)
  {
    Inv(s) && s.pc != BeforeLoop && s.pc != Exited && !s.quit && OwesWakeup !in s.producers
  }

  /** The loop thread's next step; the poll returns for the wakeup descriptor. */
  function LoopStep(s: State): Step
  {
    if s.loopPushed then LoopDecide
    else
      match s.pc
      case AtPoll => PollReturns(true)
      case Dispatching(due) => if due then ReadWakeup else SwapTasks
      case Swapped => SetDoing
      case Running => if s.batch != [] then RunTask else FinishBatch
      case _ => CheckQuit
  }

  function PcRank(s: State): nat
  {
    match s.pc
    case Swapped => 7
    case Running => 6
    case AtCheck => 5
    case AtPoll => 4
    case Dispatching(due) => if due then 3 else 2
    case _ => 0
  }

  lemma QuietStep(s: State)
    requires Quiet(s) && s.executed != s.pushed
    ensures Enabled(s, LoopStep(s)) && InContract(s, LoopStep(s))
    ensures var s' := Next(s, LoopStep(s));
            Quiet(s') && s'.pushed == s.pushed && s.executed <= s'.executed
    ensures var s' := Next(s, LoopStep(s));
            || |s'.pending| < |s.pending|
            || (s'.pending == s.pending && |s'.batch| < |s.batch|)
            || (s'.pending == s.pending && s'.batch == s.batch && s.loopPushed && !s'.loopPushed)
            || (s'.pending == s.pending && s'.batch == s.batch && s'.loopPushed == s.loopPushed && PcRank(s') < PcRank(s))
  {
    assert s.batch == [] && s.pending == [] ==> s.executed + s.batch + s.pending == s.executed;
    StepKeeps(s, LoopStep(s));
  }

  /** How many steps of its own the loop thread needs to run everything pushed so far. */
  ghost function StepsToDrain(s: State): nat
    requires Quiet(s)
    decreases |s.pending|, |s.batch|, s.loopPushed, PcRank(s)
  {
    if s.executed == s.pushed then 0
    else
      QuietStep(s);
      1 + StepsToDrain(Next(s, LoopStep(s)))
  }

  /** The loop thread taking k steps on its own. */
  ghost function LoopAlone(s: State, k: nat): State
    requires Quiet(s) && k <= StepsToDrain(s)
    decreases k
  {
    if k == 0 then s
    else
      QuietStep(s);
      LoopAlone(Next(s, LoopStep(s)), k - 1)
  }

  /**
   Progress: from any reachable state inside loop() with no producer in mid-step and no quit
   requested, the loop thread alone is never blocked and runs every task pushed so far.
   */
  lemma {:induction false} LoopDrainsQueue(s: State)
    requires Quiet(s)
    ensures LoopAlone(s, StepsToDrain(s)).executed == s.pushed
    decreases StepsToDrain(s)
  {
    if s.executed == s.pushed {
    } else {
      QuietStep(s);
      LoopDrainsQueue(Next(s, LoopStep(s)));
    }
  }

  // ---- progress among producers: bounded response ----

  /** The loop thread's own steps; pushes and wakeups made by user code on it are not counted. */
  predicate OwnStep(step: Step)
  {
    match step
    case EnterLoop => true
    case CheckQuit => true
    case PollReturns(_) => true
    case ReadWakeup => true
    case SwapTasks => true
    case SetDoing => true
    case RunTask => true
    case FinishBatch => true
    case _ => false
  }

  /** How many steps at most lie before the next task is run, while one is waiting. */
  function StepsToNextTask(s: State): nat
  {
    match s.pc
    case BeforeLoop => 9
    case Swapped => if s.batch == [] then 8 else 2
    case Running => if s.batch == [] then 7 else 1
    case AtCheck => 6
    case AtPoll => 5
    case Dispatching(due) => if due then 4 else 3
    case Exited => 0
  }

  /** A bound on the loop's own steps until the first n tasks ever pushed have been executed. */
  function Remaining(s: State, n: nat): nat
  {
    if |s.executed| >= n then 0 else 10 * (n - |s.executed|) + StepsToNextTask(s)
  }

  /** Whatever step any thread takes, short of a quit, the bound does not grow, and a step of the loop lowers it. */
  lemma RemainingFalls(s: State, step: Step, n: nat)
    requires Inv(s) && Enabled(s, step) && InContract(s, step) && n <= |s.pushed|
    requires !Next(s, step).quit && |Next(s, step).executed| < n
    ensures Remaining(Next(s, step), n) + (if OwnStep(step) then 1 else 0) <= Remaining(s, n)
  {
    assert |s.executed| + |s.batch| + |s.pending| == |s.pushed|;
  }

  ghost function OwnSteps(steps: seq<Step>, i: nat, j: nat): nat
    requires i <= j <= |steps|
    decreases j
  {
    if i == j then 0 else OwnSteps(steps, i, j - 1) + (if OwnStep(steps[j - 1]) then 1 else 0)
  }

  lemma {:induction false} RemainingOverRuns(states: seq<State>, steps: seq<Step>, i: nat, j: nat)
    requires IsRun(states, steps) && i <= j < |states| && !states[j].quit
    requires |states[j].executed| < |states[i].pushed|
    ensures Remaining(states[j], |states[i].pushed|) + OwnSteps(steps, i, j) <= Remaining(states[i], |states[i].pushed|)
    decreases j
  {
    if i == j {
    } else {
      var k := j - 1;
      EveryStateInv(states, steps, k);
      FifoExactlyOnce(states, steps, i, k);
      assert Follows(states[k], steps[k], states[k + 1]);
      EveryStateInv(states, steps, j);
      StaysUnquit(states[k], steps[k]);
      RemainingOverRuns(states, steps, i, k);
      RemainingFalls(states[k], steps[k], |states[i].pushed|);
    }
  }

  lemma StaysUnquit(s: State, step: Step)
    requires Inv(s) && Enabled(s, step) && InContract(s, step) && !Next(s, step).quit
    ensures !s.quit && |s.executed| <= |Next(s, step).executed|
  {
    StepKeeps(s, step);
  }

  /**
   Bounded response over every interleaving: as long as nobody quits, every task pushed by moment i has
   been executed once the loop thread has taken ten steps of its own per task still waiting then, and
   ten more, whatever other threads and running tasks push meanwhile.
   */
  lemma BoundedResponse(states: seq<State>, steps: seq<Step>, i: nat, j: nat)
    requires IsRun(states, steps) && i <= j < |states| && !states[j].quit
    requires OwnSteps(steps, i, j) >= 10 * (|states[i].pushed| - |states[i].executed|) + 10
    ensures states[i].pushed <= states[j].executed
  {
    FifoExactlyOnce(states, steps, i, j);
    if |states[j].executed| < |states[i].pushed| {
      RemainingOverRuns(states, steps, i, j);
    }
  }

  // ---- a quit is served ----

  predicate Quitting(s: State)
  {
    Inv(s) && s.pc != BeforeLoop && s.quit && OwesWakeup !in s.producers
  }

  function ExitRank(s: State): nat
  {
    match s.pc
    case AtPoll => 6
    case Dispatching(due) => if due then 5 else 4
    case Swapped => 3
    case Running => 2
    case AtCheck => 1
    case _ => 0
  }

  lemma QuittingStep(s: State)
    requires Quitting(s) && s.pc != Exited
    ensures Enabled(s, LoopStep(s)) && InContract(s, LoopStep(s))
    ensures var s' := Next(s, LoopStep(s));
            && Quitting(s')
            && (|| ExitRank(s') < ExitRank(s)
                || (ExitRank(s') == ExitRank(s) && |s'.batch| < |s.batch|)
                || (ExitRank(s') == ExitRank(s) && s'.batch == s.batch && s.loopPushed && !s'.loopPushed))
  {
    StepKeeps(s, LoopStep(s));
  }

  /** The loop thread on its own until loop() returns. */
  ghost function RunToExit(s: State): State
    requires Quitting(s)
    decreases ExitRank(s), |s.batch|, s.loopPushed
  {
    if s.pc == Exited then s
    else
      QuittingStep(s);
      RunToExit(Next(s, LoopStep(s)))
  }

  /** Once quit is set and signalled, the loop thread leaves loop() by its own steps, after finishing the batch it has. */
  lemma {:induction false} QuitIsServed(s: State)
    requires Quitting(s)
    ensures RunToExit(s).pc == Exited && s.executed + s.batch <= RunToExit(s).executed
    decreases ExitRank(s), |s.batch|, s.loopPushed
  {
    if s.pc != Exited {
      QuittingStep(s);
      var next := Next(s, LoopStep(s));
      QuitIsServed(next);
      BatchAdvances(s, LoopStep(s));
      PrefixTransitive(s.executed + s.batch, next.executed + next.batch, RunToExit(next).executed);
    } else {
      assert s.executed + s.batch == s.executed;
    }
  }

  lemma BatchAdvances(s: State, step: Step)
    requires Inv(s) && Enabled(s, step)
    ensures s.executed + s.batch <= Next(s, step).executed + Next(s, step).batch
  {
    match step
    case RunTask => assert s.executed + [s.batch[0]] + s.batch[1..] == s.executed + s.batch;
    case SwapTasks => assert s.executed + s.batch == s.executed;
    case _ =>
  }

  lemma PrefixTransitive(a: seq<Task>, b: seq<Task>, c: seq<Task>)
    requires a <= b <= c
    ensures a <= c
  {
  }

  // ---- where the promises stop ----

  /**
   queueInLoop on the loop thread before loop(): the task waits at the poll, and it is signalled
   exactly when some other thread's wakeup was pending anyway.
   */
  lemma EarlyQueueingIsNotSignalled(s: State, t: Task)
    requires Inv(s) && s.pc == BeforeLoop
    ensures Enabled(s, LoopPush(t)) && !InContract(s, LoopPush(t))
    ensures var polling := Next(Next(Next(Next(s, LoopPush(t)), LoopDecide), EnterLoop), CheckQuit);
            && polling.pc == AtPoll && polling.pending == s.pending + [t]
            && (Wakeful(polling) <==> Wakeful(s))
            && (Enabled(polling, PollReturns(true)) <==> s.counter > 0)
  {
  }

  /** quit before loop(), by another thread or on the loop thread: the request is overwritten and the loop goes on to poll. */
  lemma EarlyQuitIsForgotten(s: State, p: nat)
    requires Inv(s) && s.pc == BeforeLoop
    ensures Enabled(s, LoopQuit) && !InContract(s, LoopQuit)
    ensures var polling := Next(Next(Next(s, LoopQuit), EnterLoop), CheckQuit);
            polling.quitAsked && !polling.quit && polling.pc == AtPoll && (Wakeful(polling) <==> Wakeful(s))
    ensures ProducerIs(s, p, Idle) ==>
              && Enabled(s, SetQuit(p)) && !InContract(s, SetQuit(p))
              && var polling := Next(Next(Next(Next(s, SetQuit(p)), Wake(p)), EnterLoop), CheckQuit);
                 polling.quitAsked && !polling.quit && polling.pc == AtPoll
  {
  }
}
