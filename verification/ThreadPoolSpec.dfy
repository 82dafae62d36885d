/**
 ThreadPool as an interleaving machine: producers, workers that sleep on the condition variable,
 and the destructor. Each critical section and each notify is one step.
 */
module ThreadPoolSpec {
  import opened Bytes

  type Task = nat

  /** Ready: about to evaluate the wait predicate under the lock. Gone: returned from its function. */
  datatype Worker = Ready | Asleep | Busy(task: Task) | Gone

  datatype Pool = Pool(
    tasks: seq<Task>,
    stop: bool,
    workers: seq<Worker>,
    notifyOneOwed: nat,
    notifyAllOwed: bool,
    accepted: seq<Task>,
    taken: seq<Task>,
    done: seq<Task>)

  function Init(size: nat): Pool
  {
    Pool([], false, seq(size, _ => Ready), 0, false, [], [], [])
  }

  datatype Step =
    | Add(t: Task)
    | NotifyOne(w: Option<nat>)
    | WakeSpuriously(i: nat)
    | Evaluate(i: nat)
    | Finish(i: nat)
    | Stop
    | NotifyAll

  predicate Enabled(p: Pool, step: Step)
  {
    match step
    case Add(_) => true
    case NotifyOne(w) =>
      p.notifyOneOwed > 0
      && (if w.Some? then w.value < |p.workers| && p.workers[w.value] == Asleep else Asleep !in p.workers)
    case WakeSpuriously(i) => i < |p.workers| && p.workers[i] == Asleep
    case Evaluate(i) => i < |p.workers| && p.workers[i] == Ready
    case Finish(i) => i < |p.workers| && p.workers[i].Busy?
    case Stop => !p.stop
    case NotifyAll => p.notifyAllOwed
  }

  function WakeAll(ws: seq<Worker>): (r: seq<Worker>)
    ensures |r| == |ws|
    ensures forall i :: 0 <= i < |ws| ==> r[i] == if ws[i] == Asleep then Ready else ws[i]
  {
    if ws == [] then [] else [if ws[0] == Asleep then Ready else ws[0]] + WakeAll(ws[1..])
  }

  function Next(p: Pool, step: Step): Pool
    requires Enabled(p, step)
  {
    match step
    case Add(t) =>
      if p.stop then p
      else p.(tasks := p.tasks + [t], accepted := p.accepted + [t], notifyOneOwed := p.notifyOneOwed + 1)
    case NotifyOne(w) =>
      p.(notifyOneOwed := p.notifyOneOwed - 1,
         workers := if w.Some? then p.workers[w.value := Ready] else p.workers)
    case WakeSpuriously(i) => p.(workers := p.workers[i := Ready])
    case Evaluate(i) =>
      if p.tasks == [] then p.(workers := p.workers[i := if p.stop then Gone else Asleep])
      else p.(workers := p.workers[i := Busy(p.tasks[0])], tasks := p.tasks[1..], taken := p.taken + [p.tasks[0]])
    case Finish(i) => p.(workers := p.workers[i := Ready], done := p.done + [p.workers[i].task])
    case Stop => p.(stop := true, notifyAllOwed := true)
    case NotifyAll => p.(notifyAllOwed := false, workers := WakeAll(p.workers))
  }

  // ---- invariant ----

  function Holding(w: Worker): multiset<Task>
  {
    if w.Busy? then multiset{w.task} else multiset{}
  }

  /** The tasks in the workers' hands. */
  function InHand(ws: seq<Worker>): multiset<Task>
  {
    if ws == [] then multiset{} else Holding(ws[0]) + InHand(ws[1..])
  }

  lemma {:induction false} InHandUpdate(ws: seq<Worker>, i: nat, w: Worker)
    requires i < |ws|
    ensures InHand(ws[i := w]) + Holding(ws[i]) == InHand(ws) + Holding(w)
  {
    var after := ws[i := w];
    if i == 0 {
      assert after[1..] == ws[1..];
    } else {
      InHandUpdate(ws[1..], i - 1, w);
      assert after[1..] == ws[1..][i - 1 := w];
      Regroup(Holding(ws[0]), InHand(after[1..]), Holding(ws[i]), InHand(ws[1..]), Holding(w));
    }
  }

  lemma Regroup(a: multiset<Task>, b: multiset<Task>, c: multiset<Task>, d: multiset<Task>, e: multiset<Task>)
    requires b + c == d + e
    ensures a + b + c == a + d + e
  {
    assert a + b + c == a + (b + c);
    assert a + d + e == a + (d + e);
  }

  lemma {:induction false} InHandWakeAll(ws: seq<Worker>)
    ensures InHand(WakeAll(ws)) == InHand(ws)
  {
    if ws == [] {
    } else {
      InHandWakeAll(ws[1..]);
      assert WakeAll(ws)[1..] == WakeAll(ws[1..]);
    }
  }

  predicate Awake(w: Worker) { w == Ready || w.Busy? }

  predicate SomeAwake(ws: seq<Worker>)
  {
    exists i :: 0 <= i < |ws| && Awake(ws[i])
  }

  predicate TaskInv(p: Pool)
  {
    p.taken + p.tasks == p.accepted && multiset(p.done) + InHand(p.workers) == multiset(p.taken)
  }

  /** Queued work always has a worker on its way to it, and no worker sleeps through the shutdown. */
  predicate WakeInv(p: Pool)
  {
    && |p.workers| > 0
    && (p.tasks != [] ==> p.notifyOneOwed > 0 || SomeAwake(p.workers))
    && (Gone in p.workers ==> p.stop && p.tasks == [])
    && (p.stop && !p.notifyAllOwed ==> Asleep !in p.workers)
    && (p.notifyAllOwed ==> p.stop)
  }

  predicate Inv(p: Pool) { TaskInv(p) && WakeInv(p) }

  lemma {:induction false} NothingInHand(ws: seq<Worker>)
    requires forall i :: 0 <= i < |ws| ==> !ws[i].Busy?
    ensures InHand(ws) == multiset{}
  {
    if ws == [] {
    } else {
      NothingInHand(ws[1..]);
    }
  }

  lemma InitInv(size: nat)
    requires size > 0
    ensures Inv(Init(size))
  {
    NothingInHand(Init(size).workers);
  }

  lemma TasksKept(p: Pool, step: Step)
    requires TaskInv(p) && Enabled(p, step)
    ensures TaskInv(Next(p, step))
  {
    match step
    case Add(t) => assert p.taken + (p.tasks + [t]) == p.taken + p.tasks + [t];
    case NotifyOne(w) => if w.Some? { IdleUpdate(p.workers, w.value, Ready); }
    case WakeSpuriously(i) => IdleUpdate(p.workers, i, Ready);
    case Evaluate(i) =>
      if p.tasks == [] {
        IdleUpdate(p.workers, i, Next(p, step).workers[i]);
      } else {
        TakeKept(p, i);
      }
    case Finish(i) => FinishKept(p, i);
    case Stop =>
    case NotifyAll => InHandWakeAll(p.workers);
  }

  lemma TakeKept(p: Pool, i: nat)
    requires TaskInv(p) && Enabled(p, Evaluate(i)) && p.tasks != []
    ensures TaskInv(Next(p, Evaluate(i)))
  {
    var q := Next(p, Evaluate(i));
    InHandUpdate(p.workers, i, Busy(p.tasks[0]));
    assert InHand(q.workers) + Holding(p.workers[i]) == InHand(q.workers);
    assert q.taken + q.tasks == p.taken + p.tasks;
  }

  lemma FinishKept(p: Pool, i: nat)
    requires TaskInv(p) && Enabled(p, Finish(i))
    ensures TaskInv(Next(p, Finish(i)))
  {
    var q := Next(p, Finish(i));
    InHandUpdate(p.workers, i, Ready);
    assert InHand(p.workers) + Holding(Ready) == InHand(p.workers);
    assert multiset(q.done) == multiset(p.done) + Holding(p.workers[i]);
  }

  lemma IdleUpdate(ws: seq<Worker>, i: nat, w: Worker)
    requires i < |ws| && !ws[i].Busy? && !w.Busy?
    ensures InHand(ws[i := w]) == InHand(ws)
  {
    InHandUpdate(ws, i, w);
    assert InHand(ws[i := w]) + Holding(ws[i]) == InHand(ws[i := w]);
    assert InHand(ws) + Holding(w) == InHand(ws);
  }

  lemma AwakeKept(p: Pool, step: Step)
    requires Enabled(p, step) && SomeAwake(p.workers)
    requires step.Evaluate? ==> p.tasks != []
    ensures SomeAwake(Next(p, step).workers)
  {
    var i :| 0 <= i < |p.workers| && Awake(p.workers[i]);
    assert Awake(Next(p, step).workers[i]);
  }

  lemma NotifyAwakes(p: Pool, w: Option<nat>)
    requires WakeInv(p) && Enabled(p, NotifyOne(w)) && p.tasks != []
    ensures SomeAwake(Next(p, NotifyOne(w)).workers)
  {
    var after := Next(p, NotifyOne(w)).workers;
    if w.Some? {
      assert Awake(after[w.value]);
    } else {
      assert p.workers[0] in p.workers;
      assert Awake(after[0]);
    }
  }

  lemma SleepersAndLeavers(p: Pool, step: Step)
    requires WakeInv(p) && Enabled(p, step)
    ensures var q := Next(p, step);
            && (Gone in q.workers ==> q.stop && q.tasks == [])
            && (q.stop && !q.notifyAllOwed ==> Asleep !in q.workers)
  {
    var q := Next(p, step);
    forall i | 0 <= i < |q.workers|
      ensures q.workers[i] == Gone ==> q.stop && q.tasks == []
      ensures q.workers[i] == Asleep && q.stop ==> q.notifyAllOwed
    {
      assert p.workers[i] in p.workers;
    }
  }

  /** Every step of every thread keeps the invariant. */
  lemma StepKeeps(p: Pool, step: Step)
    requires Inv(p) && Enabled(p, step)
    ensures Inv(Next(p, step))
  {
    TasksKept(p, step);
    SleepersAndLeavers(p, step);
    var q := Next(p, step);
    if q.tasks != [] && q.notifyOneOwed == 0 {
      if step.NotifyOne? {
        NotifyAwakes(p, step.w);
      } else {
        AwakeKept(p, step);
      }
    }
  }

  // ---- runs ----

  predicate Follows(p: Pool, step: Step, q: Pool)
  {
    Enabled(p, step) && q == Next(p, step)
  }

  ghost predicate IsRun(states: seq<Pool>, steps: seq<Step>)
  {
    Chained(states, steps) && Inv(states[0])
  }

  ghost predicate Chained(states: seq<Pool>, steps: seq<Step>)
  {
    && |states| == |steps| + 1
    && forall i {:trigger Follows(states[i], steps[i], states[i + 1])} ::
         0 <= i < |steps| ==> Follows(states[i], steps[i], states[i + 1])
  }

  lemma {:induction false} EveryStateInv(states: seq<Pool>, steps: seq<Step>, i: nat)
    requires IsRun(states, steps) && i < |states|
    ensures Inv(states[i])
  {
    if i == 0 {
    } else {
      var k := i - 1;
      EveryStateInv(states, steps, k);
      assert Follows(states[k], steps[k], states[k + 1]);
      StepKeeps(states[k], steps[k]);
    }
  }

  // ---- the tasks of the Add steps ----

  /** Some step before moment j was the destructor's stop. */
  ghost predicate StoppedBefore(steps: seq<Step>, j: nat)
    requires j <= |steps|
  {
    exists k :: 0 <= k < j && steps[k] == Stop
  }

  /** The tasks added before the stop, in the order of the steps. */
  ghost function AddedUpTo(steps: seq<Step>, j: nat): seq<Task>
    requires j <= |steps|
    decreases j
  {
    if j == 0 then []
    else if steps[j - 1].Add? && !StoppedBefore(steps, j - 1) then AddedUpTo(steps, j - 1) + [steps[j - 1].t]
    else AddedUpTo(steps, j - 1)
  }

  lemma StopStep(p: Pool, step: Step)
    requires Enabled(p, step)
    ensures Next(p, step).stop <==> p.stop || step == Stop
    ensures Next(p, step).accepted == p.accepted + (if step.Add? && !p.stop then [step.t] else [])
  {
  }

  /** On every run from a new pool: stopped exactly after the stop, and accepted exactly what was added before it. */
  lemma {:induction false} AcceptedAreAdded(states: seq<Pool>, steps: seq<Step>, size: nat, j: nat)
    requires Chained(states, steps) && states[0] == Init(size) && j < |states|
    ensures states[j].stop <==> StoppedBefore(steps, j)
    ensures states[j].accepted == AddedUpTo(steps, j)
  {
    if j == 0 {
    } else {
      var k := j - 1;
      AcceptedAreAdded(states, steps, size, k);
      assert Follows(states[k], steps[k], states[k + 1]);
      StopStep(states[k], steps[k]);
      assert StoppedBefore(steps, j) <==> StoppedBefore(steps, k) || steps[k] == Stop;
    }
  }

  predicate AllGone(p: Pool)
  {
    forall i :: 0 <= i < |p.workers| ==> p.workers[i] == Gone
  }

  /**
   On every run of a pool with workers: the tasks taken so far, followed by those queued, are exactly
   the tasks added before the stop, in order; each of them is run at most once; and when every worker
   has returned nothing is queued and each has been run exactly as often as it was added.
   */
  lemma PoolDrains(states: seq<Pool>, steps: seq<Step>, size: nat, i: nat)
    requires Chained(states, steps) && states[0] == Init(size) && size > 0 && i < |states|
    ensures states[i].taken + states[i].tasks == AddedUpTo(steps, i)
    ensures multiset(states[i].done) <= multiset(states[i].taken)
    ensures AllGone(states[i]) ==> states[i].tasks == [] && multiset(states[i].done) == multiset(AddedUpTo(steps, i))
  {
    InitInv(size);
    AcceptedAreAdded(states, steps, size, i);
    EveryStateInv(states, steps, i);
    DrainedWhenGone(states[i]);
  }

  lemma DrainedWhenGone(p: Pool)
    requires Inv(p)
    ensures multiset(p.done) <= multiset(p.taken)
    ensures AllGone(p) ==> p.tasks == [] && multiset(p.done) == multiset(p.accepted)
  {
    assert multiset(p.done) + InHand(p.workers) == multiset(p.taken);
    if AllGone(p) {
      assert p.workers[0] in p.workers;
      NothingInHand(p.workers);
      assert p.taken + [] == p.taken;
    }
  }

  /** The tasks whose runs have ended, in the order of the steps. */
  ghost function FinishedUpTo(states: seq<Pool>, steps: seq<Step>, j: nat): seq<Task>
    requires j <= |steps| < |states|
    decreases j
  {
    if j == 0 then []
    else
      var p, step := states[j - 1], steps[j - 1];
      FinishedUpTo(states, steps, j - 1)
      + (if step.Finish? && step.i < |p.workers| && p.workers[step.i].Busy? then [p.workers[step.i].task] else [])
  }

  /** What is recorded as run is what workers have finished. */
  lemma {:induction false} DoneIsFinished(states: seq<Pool>, steps: seq<Step>, size: nat, j: nat)
    requires Chained(states, steps) && states[0] == Init(size) && j < |states|
    ensures states[j].done == FinishedUpTo(states, steps, j)
  {
    if j == 0 {
    } else {
      var k := j - 1;
      DoneIsFinished(states, steps, size, k);
      assert Follows(states[k], steps[k], states[k + 1]);
    }
  }

  /** While work is queued some worker can move, or the notify that will let one move is still to come. */
  lemma QueuedWorkIsServed(states: seq<Pool>, steps: seq<Step>, i: nat)
    requires IsRun(states, steps) && i < |states| && states[i].tasks != []
    ensures states[i].notifyOneOwed > 0
            || exists k :: 0 <= k < |states[i].workers| && (Enabled(states[i], Evaluate(k)) || Enabled(states[i], Finish(k)))
  {
    EveryStateInv(states, steps, i);
    if SomeAwake(states[i].workers) {
      var k :| 0 <= k < |states[i].workers| && Awake(states[i].workers[k]);
      assert Enabled(states[i], Evaluate(k)) || Enabled(states[i], Finish(k));
    }
  }

  // ---- the destructor's join ends ----

  predicate WorkerStep(step: Step) { step.Evaluate? || step.Finish? }

  /** The destructor has notified and waits in join. */
  predicate Joining(p: Pool) { Inv(p) && p.stop && !p.notifyAllOwed }

  function Weight(ws: seq<Worker>): nat
  {
    if ws == [] then 0 else WorkerWeight(ws[0]) + Weight(ws[1..])
  }

  function WorkerWeight(w: Worker): nat
  {
    match w
    case Gone => 0
    case Busy(_) => 2
    case _ => 1
  }

  /** An upper bound on the worker steps that are still to come. */
  function Work(p: Pool): nat { 3 * |p.tasks| + Weight(p.workers) }

  lemma {:induction false} WeightUpdate(ws: seq<Worker>, i: nat, w: Worker)
    requires i < |ws|
    ensures Weight(ws[i := w]) + WorkerWeight(ws[i]) == Weight(ws) + WorkerWeight(w)
  {
    if i == 0 {
      assert ws[i := w][1..] == ws[1..];
    } else {
      WeightUpdate(ws[1..], i - 1, w);
      assert ws[i := w][1..] == ws[1..][i - 1 := w];
    }
  }

  lemma StepLightens(p: Pool, step: Step)
    requires p.stop && Enabled(p, step) && step != NotifyAll
    ensures Work(Next(p, step)) + (if WorkerStep(step) then 1 else 0) <= Work(p)
  {
    match step
    case NotifyOne(w) => if w.Some? { WeightUpdate(p.workers, w.value, Ready); }
    case WakeSpuriously(i) => WeightUpdate(p.workers, i, Ready);
    case Evaluate(i) => WeightUpdate(p.workers, i, Next(p, step).workers[i]);
    case Finish(i) => WeightUpdate(p.workers, i, Ready);
    case _ =>
  }

  lemma JoinStep(p: Pool, step: Step)
    requires Joining(p) && Enabled(p, step)
    ensures Joining(Next(p, step))
    ensures Work(Next(p, step)) + (if WorkerStep(step) then 1 else 0) <= Work(p)
  {
    StepKeeps(p, step);
    StepLightens(p, step);
  }

  /** The number of worker steps among the steps from i to j. */
  ghost function WorkerSteps(steps: seq<Step>, i: nat, j: nat): nat
    requires i <= j <= |steps|
    decreases j
  {
    if i == j then 0 else WorkerSteps(steps, i, j - 1) + (if WorkerStep(steps[j - 1]) then 1 else 0)
  }

  /** Once the destructor waits in join, whatever the schedule, workers take at most Work more steps. */
  lemma {:induction false} JoinIsBounded(states: seq<Pool>, steps: seq<Step>, i: nat, j: nat)
    requires IsRun(states, steps) && i <= j < |states| && Joining(states[i])
    ensures Joining(states[j])
    ensures WorkerSteps(steps, i, j) + Work(states[j]) <= Work(states[i])
    decreases j
  {
    if i == j {
    } else {
      var k := j - 1;
      JoinIsBounded(states, steps, i, k);
      assert Follows(states[k], steps[k], states[k + 1]);
      JoinStep(states[k], steps[k]);
    }
  }

  /** And they only run out of steps by returning: the join is not a deadlock. */
  lemma JoinNeverBlocks(p: Pool)
    requires Joining(p)
    ensures AllGone(p) || exists k :: 0 <= k < |p.workers| && (Enabled(p, Evaluate(k)) || Enabled(p, Finish(k)))
  {
    if !AllGone(p) {
      var k :| 0 <= k < |p.workers| && p.workers[k] != Gone;
      assert p.workers[k] in p.workers;
      assert Enabled(p, Evaluate(k)) || Enabled(p, Finish(k));
    }
  }

  /** A pool built with no workers accepts tasks and, on every run, never runs one: at least one worker is needed. */
  lemma {:induction false} NoWorkersNoDrain(states: seq<Pool>, steps: seq<Step>, i: nat)
    requires Chained(states, steps) && states[0] == Init(0) && i < |states|
    ensures states[i].workers == [] && states[i].taken == [] && states[i].done == []
    ensures states[i].tasks == states[i].accepted
  {
    if i == 0 {
    } else {
      var k := i - 1;
      NoWorkersNoDrain(states, steps, k);
      assert Follows(states[k], steps[k], states[k + 1]);
    }
  }
}
