/**
 AsyncLogging with any passes at all: exactly which runs lose lines, exactly when the refill of the
 spares fails, and what becomes of an append that comes after the final flush.
 */
module LoggingLosses {
  import opened Bytes
  import opened LoggingSpec
  import opened LoggingProofs

  /**
   An exchange keeps every line exactly when it collects nothing, or newBuffer1 is there, so that
   the last collected buffer is not emptied for it, and at most 25 buffers are collected.
   */
  predicate Lossless(s: Log, step: Step)
  {
    step.DoExchange? ==> Collected(s) == [] || (s.spare1 && |Collected(s)| <= 25)
  }

  /** What an exchange goes on to write is a prefix of what it collected, and all of it when lossless. */
  lemma KeptExact(s: Log)
    ensures var all, kept := Collected(s), Limited(Taken(s));
            && |kept| <= |all| && kept == all[..|kept|]
            && (Lossless(s, DoExchange) <==> |kept| == |all|)
            && |kept| == (if |Taken(s)| > 25 then 2 else |Taken(s)|)
            && |Taken(s)| == (if s.spare1 || all == [] then |all| else |all| - 1)
  {
  }

  lemma ExchangeLosesExactly(s: Log)
    requires FrontInv(s) && s.current.Some? && s.pc == PassStart && s.toWrite == []
    ensures Lossless(s, DoExchange) ==> Everything(Exchange(s)) == Everything(s)
    ensures !Lossless(s, DoExchange) ==> |Everything(Exchange(s))| < |Everything(s)|
  {
    ExchangeKeeps(s);
    KeptExact(s);
    var k := |Limited(Taken(s))|;
    if !Lossless(s, DoExchange) {
      CollectedFacts(s);
      DroppingShows(s.file, Collected(s), k);
    }
  }

  lemma DroppingShows(file: Contents, all: seq<Contents>, k: nat)
    requires k < |all| && all[|all| - 1] != []
    ensures |file + Flatten(all)| > |file + Flatten(all[..k])|
  {
    var kept, dropped := all[..k], all[k..];
    assert all == kept + dropped;
    FlattenConcat(kept, dropped);
    LastCounts(dropped);
  }

  lemma LastCounts(bs: seq<Contents>)
    requires bs != [] && bs[|bs| - 1] != []
    ensures Flatten(bs) != []
  {
    var front, last := bs[..|bs| - 1], bs[|bs| - 1];
    assert bs == front + [last];
    FlattenSnoc(front, last);
  }

  /** What holds on every run, whatever the passes find: the books are in order, lines may be missing. */
  predicate LooseInv(s: Log)
  {
    && FrontInv(s)
    && (s.pc != Writing ==> s.toWrite == [] && s.written == 0)
    && (s.pc == PassStart ==> s.spare2)
    && (s.pc == Writing ==> !s.spare1 && s.toWrite != [])
    && |Everything(s)| <= |s.appended|
  }

  lemma InvIsLoose(s: Log)
    requires Inv(s)
    ensures LooseInv(s)
  {
  }

  lemma FlushKeepsLoose(s: Log)
    requires LooseInv(s) && s.pc == PassStart
    ensures LooseInv(FinalFlush(s)) && Everything(FinalFlush(s)) == Everything(s)
  {
    EverythingCollected(s);
    SizeZero(s.current.value);
    DoneIsEmpty(FinalFlush(s));
  }

  /** What a step adds to the lines appended so far. */
  function Added(step: Step): Contents
  {
    if step.DoAppend? then Copied(step.line) else []
  }

  /** A step keeps the books; it adds its own line and, when lossless, keeps all others. */
  predicate Accounted(s: Log, step: Step, s': Log)
    requires LooseInv(s)
  {
    && LooseInv(s')
    && s'.appended == s.appended + Added(step)
    && (if Lossless(s, step) then Everything(s') == Everything(s) + Added(step) else |Everything(s')| < |Everything(s)|)
  }

  lemma AppendAccounted(s: Log, line: Line)
    requires LooseInv(s) && s.current.Some?
    ensures Append(s, line).Ok? && Accounted(s, DoAppend(line), Append(s, line).log)
  {
    AppendFront(s, line);
    AppendAdds(s, line);
  }

  lemma ExchangeAccounted(s: Log)
    requires LooseInv(s) && s.pc == PassStart
    ensures Accounted(s, DoExchange, Exchange(s))
  {
    ExchangeKeeps(s);
    ExchangeLosesExactly(s);
  }

  lemma WriteAccounted(s: Log)
    requires LooseInv(s) && s.pc == Writing && s.written < |s.toWrite|
    ensures Accounted(s, DoWrite, WriteBuffer(s))
  {
    WriteKeeps(s);
  }

  lemma RecycleAccounted(s: Log)
    requires LooseInv(s) && s.pc == Writing && s.written == |s.toWrite| && Recycle(s).Ok?
    ensures Accounted(s, DoRecycle, Recycle(s).log)
  {
    assert Underway(Recycle(s).log) == Underway(s);
  }

  lemma StepAccounted(s: Log, step: Step)
    requires LooseInv(s) && Enabled(s, step) && Next(s, step).Ok?
    ensures Accounted(s, step, Next(s, step).log)
  {
    match step
    case DoAppend(line) => AppendAccounted(s, line);
    case DoExchange => ExchangeAccounted(s);
    case DoWrite => WriteAccounted(s);
    case DoRecycle => RecycleAccounted(s);
    case DoStop => assert Underway(s.(running := false)) == Underway(s);
    case DoFinalFlush => FlushKeepsLoose(s);
  }

  ghost predicate LooselyFollows(s: Log, step: Step, s': Log)
  {
    Enabled(s, step) && Next(s, step) == Ok(s')
  }

  /** Any interleaving of steps that go through: passes may be idle or overloaded, appends may come late. */
  ghost predicate IsLooseRun(states: seq<Log>, steps: seq<Step>)
  {
    && |states| == |steps| + 1
    && Inv(states[0])
    && forall i {:trigger LooselyFollows(states[i], steps[i], states[i + 1])} ::
         0 <= i < |steps| ==> LooselyFollows(states[i], steps[i], states[i + 1])
  }

  ghost predicate LosslessUpTo(states: seq<Log>, steps: seq<Step>, j: nat)
    requires j <= |steps| < |states|
  {
    forall k :: 0 <= k < j ==> Lossless(states[k], steps[k])
  }

  lemma BalanceStep(s: Log, step: Step, s': Log)
    requires LooseInv(s) && LooselyFollows(s, step, s')
    ensures LooseInv(s')
    ensures Everything(s') == s'.appended <==> Everything(s) == s.appended && Lossless(s, step)
  {
    StepAccounted(s, step);
    SameTail(Everything(s), s.appended, Added(step));
  }

  /**
   Without any condition on the passes: all appended lines are in the log or on their way to it
   exactly when no exchange so far emptied a collected buffer for reuse or collected more than 25.
   */
  lemma {:induction false} NothingLostExactly(states: seq<Log>, steps: seq<Step>, j: nat)
    requires IsLooseRun(states, steps) && j < |states|
    ensures LooseInv(states[j])
    ensures Everything(states[j]) == states[j].appended <==> LosslessUpTo(states, steps, j)
  {
    if j == 0 {
      InvIsLoose(states[0]);
    } else {
      var k := j - 1;
      NothingLostExactly(states, steps, k);
      assert LooselyFollows(states[k], steps[k], states[k + 1]);
      BalanceStep(states[k], steps[k], states[j]);
      assert LosslessUpTo(states, steps, j) <==> LosslessUpTo(states, steps, k) && Lossless(states[k], steps[k]);
    }
  }

  // ---- after the final flush ----

  /** An append that finds the final flush done comes too late. */
  ghost predicate OnTimeUpTo(states: seq<Log>, steps: seq<Step>, j: nat)
    requires j <= |steps| < |states|
  {
    forall k :: 0 <= k < j ==> OnTime(states[k], steps[k])
  }

  predicate OnTime(s: Log, step: Step)
  {
    step.DoAppend? && step.line != [] ==> s.pc != Finished
  }

  /** Nothing reaches the log after the final flush. */
  lemma FinishedStep(s: Log, step: Step)
    requires s.pc == Finished && Enabled(s, step) && Next(s, step).Ok?
    ensures Next(s, step).log.pc == Finished && Next(s, step).log.file == s.file
  {
  }

  lemma {:induction false} FinishedIsFinal(states: seq<Log>, steps: seq<Step>, i: nat, j: nat)
    requires IsLooseRun(states, steps) && i <= j < |states| && states[i].pc == Finished
    ensures states[j].pc == Finished && states[j].file == states[i].file
    decreases j
  {
    if i == j {
    } else {
      var k := j - 1;
      FinishedIsFinal(states, steps, i, k);
      assert LooselyFollows(states[k], steps[k], states[k + 1]);
      FinishedStep(states[k], steps[k]);
    }
  }

  /**
   An append after the final flush crashes exactly when the flush took a non-empty current buffer
   away; otherwise it goes through and its line stays out of the log.
   */
  lemma LateAppendExactly(s: Log, line: Line)
    requires LooseInv(s) && Enabled(s, DoFinalFlush)
    ensures s.current.Some?
    ensures Append(FinalFlush(s), line) == Crash <==> Size(s.current.value) > 0
    ensures Size(s.current.value) == 0 ==> Append(FinalFlush(s), line).log.file == FinalFlush(s).file
  {
  }

  lemma FileIsPrefix(s: Log)
    requires LooseInv(s)
    ensures s.file <= Everything(s)
  {
  }

  /** What is on its way after the final flush is what came too late. */
  lemma LateStep(s: Log, step: Step, s': Log)
    requires LooseInv(s) && LooselyFollows(s, step, s') && s'.pc == Finished
    ensures LooseInv(s')
    ensures s.pc != Finished ==> Everything(s') == s'.file
    ensures s.pc == Finished ==> (Everything(s') == s'.file <==> Everything(s) == s.file && OnTime(s, step))
  {
    StepAccounted(s, step);
    if s.pc == Finished {
      FinishedStep(s, step);
      FileIsPrefix(s);
    } else {
      SizeZero(s.current.value);
      DoneIsEmpty(s');
    }
  }

  lemma NextLate(states: seq<Log>, steps: seq<Step>, k: nat)
    requires IsLooseRun(states, steps) && k < |steps| && states[k + 1].pc == Finished
    ensures LooseInv(states[k]) && LooseInv(states[k + 1])
    ensures states[k].pc != Finished ==> Everything(states[k + 1]) == states[k + 1].file
    ensures states[k].pc == Finished ==>
              (Everything(states[k + 1]) == states[k + 1].file
               <==> Everything(states[k]) == states[k].file && OnTime(states[k], steps[k]))
  {
    NothingLostExactly(states, steps, k);
    assert LooselyFollows(states[k], steps[k], states[k + 1]);
    LateStep(states[k], steps[k], states[k + 1]);
  }

  lemma {:induction false} FlushedExactly(states: seq<Log>, steps: seq<Step>, j: nat)
    requires IsLooseRun(states, steps) && j < |states| && states[j].pc == Finished && states[0].pc != Finished
    ensures LooseInv(states[j])
    ensures Everything(states[j]) == states[j].file <==> OnTimeUpTo(states, steps, j)
  {
    var k := j - 1;
    NextLate(states, steps, k);
    assert OnTimeUpTo(states, steps, j) <==> OnTimeUpTo(states, steps, k) && OnTime(states[k], steps[k]);
    if states[k].pc == Finished {
      FlushedExactly(states, steps, k);
    } else {
      NoneLateBefore(states, steps, k);
    }
  }

  lemma NoneLateBefore(states: seq<Log>, steps: seq<Step>, k: nat)
    requires IsLooseRun(states, steps) && k < |states| && states[k].pc != Finished
    ensures OnTimeUpTo(states, steps, k)
  {
    forall i | 0 <= i < k ensures OnTime(states[i], steps[i]) {
      if states[i].pc == Finished {
        FinishedIsFinal(states, steps, i, k);
      }
    }
  }

  /**
   Once the background thread has finished, the log is everything that was appended exactly when no
   exchange lost lines and no line came after the final flush.
   */
  lemma FinalLogExactly(states: seq<Log>, steps: seq<Step>, j: nat)
    requires IsLooseRun(states, steps) && j < |states| && states[j].pc == Finished && states[0].pc != Finished
    ensures states[j].file == states[j].appended
            <==> LosslessUpTo(states, steps, j) && OnTimeUpTo(states, steps, j)
  {
    NothingLostExactly(states, steps, j);
    FlushedExactly(states, steps, j);
    FileIsPrefix(states[j]);
  }

  lemma SameTail<T>(a: seq<T>, b: seq<T>, c: seq<T>)
    ensures a + c == b + c <==> a == b
  {
    assert a + c == b + c ==> a == (a + c)[..|a|] && b == (b + c)[..|b|];
  }

  /** newBuffer1 is there at the start of the next pass exactly when this pass had something to write. */
  lemma SpareAfterPassExactly(s: Log)
    requires FrontInv(s) && s.current.Some? && s.pc == PassStart
    ensures Exchange(s).pc == PassStart <==> Taken(s) == []
    ensures Exchange(s).pc == PassStart ==> !Exchange(s).spare1
    ensures Exchange(s).pc == Writing ==>
              var done := Exchange(s).(written := |Exchange(s).toWrite|);
              Recycle(done).Ok? ==> Recycle(done).log.spare1
  {
  }

  // ---- the asserts that refill the spares ----

  /** What a pass writes and which spares it has do not change until its refill. */
  predicate SamePass(s: Log, s': Log)
  {
    s'.pc == Writing && s'.toWrite == s.toWrite && s'.spare1 == s.spare1 && s'.spare2 == s.spare2
  }

  lemma PassStep(s: Log, step: Step)
    requires s.pc == Writing && Enabled(s, step) && Next(s, step).Ok? && !step.DoRecycle?
    ensures SamePass(s, Next(s, step).log)
  {
  }

  lemma {:induction false} PassHolds(states: seq<Log>, steps: seq<Step>, i: nat, j: nat)
    requires IsLooseRun(states, steps) && i <= j < |states| && states[i].pc == Writing
    requires forall k :: i <= k < j ==> !steps[k].DoRecycle?
    ensures SamePass(states[i], states[j])
    decreases j
  {
    if i == j {
    } else {
      var k := j - 1;
      PassHolds(states, steps, i, k);
      assert LooselyFollows(states[k], steps[k], states[k + 1]);
      PassStep(states[k], steps[k]);
    }
  }

  lemma RefillAfterExchange(s: Log)
    requires LooseInv(s) && s.pc == PassStart && Exchange(s).pc == Writing
    ensures Recycle(Exchange(s)) == Crash <==> !s.spare1 && !s.hasNext && |Collected(s)| == 2
  {
    CollectedFacts(s);
  }

  /**
   On every run, whatever is appended while it writes: the pass begun by an exchange fails its refill
   asserts exactly when it started without its first spare, nextBuffer_ had been used up, and it
   collected two buffers.
   */
  lemma RecycleCrashesExactly(states: seq<Log>, steps: seq<Step>, i: nat, j: nat)
    requires IsLooseRun(states, steps) && i < j < |states|
    requires steps[i] == DoExchange && states[i + 1].pc == Writing
    requires forall k :: i < k < j ==> !steps[k].DoRecycle?
    ensures Recycle(states[j]) == Crash
            <==> !states[i].spare1 && !states[i].hasNext && |Collected(states[i])| == 2
  {
    NothingLostExactly(states, steps, i);
    assert LooselyFollows(states[i], steps[i], states[i + 1]);
    RefillAfterExchange(states[i]);
    PassHolds(states, steps, i + 1, j);
  }

  /**
   On every run the next step crashes in two cases only: the refill of a pass that writes a single
   buffer without a second spare, and an append after a final flush that took the current buffer.
   */
  lemma CrashesExactly(states: seq<Log>, steps: seq<Step>, step: Step)
    requires IsLooseRun(states, steps) && Enabled(states[|steps|], step)
    ensures var s := states[|steps|];
            Next(s, step) == Crash
            <==> (step.DoRecycle? && !s.spare2 && |s.toWrite| == 1)
                 || (step.DoAppend? && s.pc == Finished && s.current.None?)
  {
    NothingLostExactly(states, steps, |steps|);
  }

  /** After an idle pass, two lines that together fill a buffer make the next pass fail its refill. */
  lemma IdlePassThenCrash(s: Log, first: Line, second: Line)
    requires Inv(s) && s.pc == PassStart && Collected(s) == []
    requires 0 < |first| < BUFFER_SIZE <= |first| + |second| && second != []
    ensures var idle := Exchange(s);
            && Append(idle, first).Ok? && Append(Append(idle, first).log, second).Ok?
            && var pass := Exchange(Append(Append(idle, first).log, second).log);
               && pass.pc == Writing && pass.toWrite == [[first]]
               && Recycle(WriteBuffer(pass)) == Crash
  {
    var idle := Exchange(s);
    FlattenSingleton(first);
    FlattenSingleton(second);
    assert Size([]) == 0;
    assert [] + [first] == [first] && [] + [[first]] == [[first]];
    var full := Append(Append(idle, first).log, second).log;
    assert Collected(full) == [[first], [second]];
    assert Taken(full) == [[first]];
  }

  /** A run from the start that gets there: an idle pass, two lines of 40000 bytes, one more pass. */
  lemma CrashIsReached(line: Line)
    requires |line| == 40000
    ensures var s1 := Exchange(INITIAL);
            && Append(s1, line).Ok? && Append(Append(s1, line).log, line).Ok?
            && var s4 := Exchange(Append(Append(s1, line).log, line).log);
               s4.written < |s4.toWrite| && Recycle(WriteBuffer(s4)) == Crash
  {
    assert Size([]) == 0;
    IdlePassThenCrash(INITIAL, line, line);
  }

  /** One idle pass is enough: whatever short line is logged next is discarded by the pass that collects it. */
  lemma IdlePassLosesNextLine(s: Log, line: Line)
    requires Inv(s) && s.pc == PassStart && Collected(s) == [] && 0 < |line| < BUFFER_SIZE
    ensures var idle := Exchange(s);
            Append(idle, line).Ok? &&
            var after := Exchange(Append(idle, line).log);
            after.pc == PassStart && Everything(after) + [line] == after.appended && !after.spare1
  {
    var idle := Exchange(s);
    ExchangeKeeps(s);
    assert Flatten(Limited(Taken(s))) == [];
    var logged := Append(idle, line).log;
    assert Size([]) == 0;
    assert logged.current.value == [line] by { assert [] + [line] == [line]; }
    FlattenSingleton(line);
    assert Collected(logged) == [[line]];
    assert Taken(logged) == [];
    AppendFront(idle, line);
    AppendAdds(idle, line);
    ExchangeKeeps(logged);
    EverythingCollected(s);
  }
}
