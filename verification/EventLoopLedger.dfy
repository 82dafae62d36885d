/** The event loop's books against the steps that were taken: nothing is pushed, run or signalled but by a step. */
module EventLoopLedger {
  import opened EventLoopSpec
  import opened EventLoopProofs

  function PushedBy(step: Step): seq<Task>
  {
    match step
    case Push(_, t) => [t]
    case LoopPush(t) => [t]
    case _ => []
  }

  /** The tasks queued by the steps before moment j, in order. */
  ghost function PushedUpTo(steps: seq<Step>, j: nat): seq<Task>
    requires j <= |steps|
    decreases j
  {
    if j == 0 then [] else PushedUpTo(steps, j - 1) + PushedBy(steps[j - 1])
  }

  /** How many tasks the loop has run before moment j. */
  ghost function RunsUpTo(steps: seq<Step>, j: nat): nat
    requires j <= |steps|
    decreases j
  {
    if j == 0 then 0 else RunsUpTo(steps, j - 1) + (if steps[j - 1] == RunTask then 1 else 0)
  }

  predicate AsksToQuit(step: Step) { step.SetQuit? || step.LoopQuit? }

  ghost predicate QuitBefore(steps: seq<Step>, j: nat)
    requires j <= |steps|
  {
    exists k :: 0 <= k < j && AsksToQuit(steps[k])
  }

  /** Writes to the eventfd since it was last read: by producers, and by queueing inside a batch. */
  ghost function Signals(states: seq<State>, steps: seq<Step>, j: nat): nat
    requires j <= |steps| < |states|
    decreases j
  {
    if j == 0 || steps[j - 1] == ReadWakeup then 0
    else
      Signals(states, steps, j - 1)
      + (if steps[j - 1].Wake? || (steps[j - 1].LoopDecide? && states[j - 1].pc == Running) then 1 else 0)
  }

  function Min(a: nat, b: nat): nat { if a < b then a else b }

  lemma StepEntries(s: State, step: Step)
    requires Inv(s) && Enabled(s, step) && InContract(s, step)
    ensures var s' := Next(s, step);
            && s'.pushed == s.pushed + PushedBy(step)
            && |s'.executed| == |s.executed| + (if step == RunTask then 1 else 0)
            && (s'.quit <==> s.quit || AsksToQuit(step))
            && s'.counter == (if step == ReadWakeup then 0
                              else if step.Wake? || (step.LoopDecide? && s.pc == Running)
                                then Min(0xFFFF_FFFF_FFFF_FFFE, s.counter + 1)
                              else s.counter)
  {
    StepKeeps(s, step);
  }

  lemma NextEntries(states: seq<State>, steps: seq<Step>, k: nat)
    requires IsRun(states, steps) && k < |steps|
    ensures var s, s', step := states[k], states[k + 1], steps[k];
            && s'.pushed == s.pushed + PushedBy(step)
            && |s'.executed| == |s.executed| + (if step == RunTask then 1 else 0)
            && (s'.quit <==> s.quit || AsksToQuit(step))
            && s'.counter == (if step == ReadWakeup then 0
                              else if step.Wake? || (step.LoopDecide? && s.pc == Running)
                                then Min(0xFFFF_FFFF_FFFF_FFFE, s.counter + 1)
                              else s.counter)
  {
    EveryStateInv(states, steps, k);
    assert Follows(states[k], steps[k], states[k + 1]);
    StepEntries(states[k], steps[k]);
  }

  /**
   On every run from a new loop: the tasks pushed are those of the push steps, in order; one task is
   executed per run step; and the eventfd holds the number of writes since it was last read, up to its
   maximum.
   */
  lemma {:induction false} LedgerExact(states: seq<State>, steps: seq<Step>, n: nat, j: nat)
    requires IsRun(states, steps) && states[0] == Init(n) && j < |states|
    ensures states[j].pushed == PushedUpTo(steps, j)
    ensures |states[j].executed| == RunsUpTo(steps, j)
    ensures states[j].counter == Min(0xFFFF_FFFF_FFFF_FFFE, Signals(states, steps, j))
  {
    if j == 0 {
    } else {
      LedgerExact(states, steps, n, j - 1);
      NextEntries(states, steps, j - 1);
    }
  }

  /** And quit is set exactly after a request. */
  lemma {:induction false} QuitExactly(states: seq<State>, steps: seq<Step>, n: nat, j: nat)
    requires IsRun(states, steps) && states[0] == Init(n) && j < |states|
    ensures states[j].quit <==> QuitBefore(steps, j)
  {
    if j == 0 {
    } else {
      var k := j - 1;
      QuitExactly(states, steps, n, k);
      NextEntries(states, steps, k);
      assert QuitBefore(steps, j) <==> QuitBefore(steps, k) || AsksToQuit(steps[k]);
    }
  }

  /** What has been executed is exactly the first tasks pushed, as many as run steps were taken. */
  lemma ExecutedExactly(states: seq<State>, steps: seq<Step>, n: nat, j: nat)
    requires IsRun(states, steps) && states[0] == Init(n) && j < |states|
    ensures RunsUpTo(steps, j) <= |PushedUpTo(steps, j)|
    ensures states[j].executed == PushedUpTo(steps, j)[..RunsUpTo(steps, j)]
  {
    LedgerExact(states, steps, n, j);
    FifoExactlyOnce(states, steps, j, j);
  }
}
