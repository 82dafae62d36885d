/**
 The task queue and the wakeup protocol of EventLoop as an interleaving machine: any number of
 producer threads and the loop thread, each moving one atomic step at a time.
 */
module EventLoopSpec {

  type Task = nat

  /** The largest value an eventfd counter holds; a write beyond it is refused. */
  const EVENTFD_MAX: nat := 0xFFFF_FFFF_FFFF_FFFE

  /** Where the loop thread stands in loop() and doPendingTasks(). */
  datatype LoopPc =
    | BeforeLoop
    | AtCheck
    | AtPoll
    | Dispatching(readDue: bool)
    | Swapped
    | Running
    | Exited

  /** A producer between its push (or its quit_ store) and its wakeup(). */
  datatype Producer = Idle | OwesWakeup

  datatype State = State(
    pending: seq<Task>,
    batch: seq<Task>,
    executed: seq<Task>,
    pushed: seq<Task>,
    counter: nat,
    quit: bool,
    quitAsked: bool,
    doing: bool,
    pc: LoopPc,
    loopPushed: bool,
    batchEnd: nat,
    producers: seq<Producer>)

  function Init(n: nat): State
  {
    State([], [], [], [], 0, false, false, false, BeforeLoop, false, 0, seq(n, _ => Idle))
  }

  datatype Step =
    | Push(p: nat, t: Task)
    | SetQuit(p: nat)
    | Wake(p: nat)
    | EnterLoop
    | CheckQuit
    | PollReturns(wakeupReady: bool)
    | ReadWakeup
    | SwapTasks
    | SetDoing
    | RunTask
    | FinishBatch
    | LoopPush(t: Task)
    | LoopDecide
    | LoopQuit

  predicate ProducerIs(s: State, p: nat, what: Producer)
  {
    p < |s.producers| && s.producers[p] == what
  }

  /** User code runs on the loop thread inside handlers and tasks, and before loop() is called. */
  predicate InUserCode(s: State)
  {
    !s.loopPushed && (s.pc == BeforeLoop || s.pc.Dispatching? || s.pc == Running)
  }

  predicate Enabled(s: State, step: Step)
  {
    match step
    case Push(p, _) => ProducerIs(s, p, Idle)
    case SetQuit(p) => ProducerIs(s, p, Idle)
    case Wake(p) => ProducerIs(s, p, OwesWakeup)
    case EnterLoop => s.pc == BeforeLoop && !s.loopPushed
    case CheckQuit => s.pc == AtCheck
    case PollReturns(ready) => s.pc == AtPoll && (ready ==> s.counter > 0)
    case ReadWakeup => s.pc == Dispatching(true) && !s.loopPushed
    case SwapTasks => s.pc == Dispatching(false) && !s.loopPushed
    case SetDoing => s.pc == Swapped
    case RunTask => s.pc == Running && !s.loopPushed && s.batch != []
    case FinishBatch => s.pc == Running && !s.loopPushed && s.batch == []
    case LoopPush(_) => InUserCode(s)
    case LoopDecide => s.loopPushed
    case LoopQuit => InUserCode(s)
  }

  /** What callers owe: no queueing on the loop thread, and no quit by anyone, before loop() has started. */
  predicate InContract(s: State, step: Step)
  {
    step.LoopPush? || step.LoopQuit? || step.SetQuit? ==> s.pc != BeforeLoop
  }

  function WriteEventfd(counter: nat): nat
  {
    if counter < EVENTFD_MAX then counter + 1 else counter
  }

  function Next(s: State, step: Step): State
    requires Enabled(s, step)
  {
    match step
    case Push(p, t) =>
      s.(pending := s.pending + [t], pushed := s.pushed + [t], producers := s.producers[p := OwesWakeup])
    case SetQuit(p) => s.(quit := true, quitAsked := true, producers := s.producers[p := OwesWakeup])
    case Wake(p) => s.(counter := WriteEventfd(s.counter), producers := s.producers[p := Idle])
    case EnterLoop => s.(quit := false, pc := AtCheck)
    case CheckQuit => s.(pc := if s.quit then Exited else AtPoll)
    case PollReturns(ready) => s.(pc := Dispatching(ready))
    case ReadWakeup => s.(counter := 0, pc := Dispatching(false))
    case SwapTasks => s.(batch := s.pending, pending := [], batchEnd := |s.pushed|, pc := Swapped)
    case SetDoing => s.(doing := true, pc := Running)
    case RunTask => s.(executed := s.executed + [s.batch[0]], batch := s.batch[1..])
    case FinishBatch => s.(doing := false, pc := AtCheck)
    case LoopPush(t) => s.(pending := s.pending + [t], pushed := s.pushed + [t], loopPushed := true)
    case LoopDecide => s.(counter := if s.doing then WriteEventfd(s.counter) else s.counter, loopPushed := false)
    case LoopQuit => s.(quit := true, quitAsked := true)
  }
}
