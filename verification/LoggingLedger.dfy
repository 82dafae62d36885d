/** The logger's books against the steps that were taken: the lines appended, the stop, the size of the buffers. */
module LoggingLedger {
  import opened Bytes
  import opened LoggingSpec
  import opened LoggingProofs
  import opened LoggingLosses

  /** The lines of the append steps before moment j, in order, empty ones included. */
  ghost function LinesUpTo(steps: seq<Step>, j: nat): seq<Line>
    requires j <= |steps|
    decreases j
  {
    if j == 0 then [] else LinesUpTo(steps, j - 1) + (if steps[j - 1].DoAppend? then [steps[j - 1].line] else [])
  }

  ghost predicate StoppedBefore(steps: seq<Step>, j: nat)
    requires j <= |steps|
  {
    exists k :: 0 <= k < j && steps[k] == DoStop
  }

  /** A line of length zero copies nothing; any other is copied as it is. */
  lemma CopiedExact(line: Line)
    ensures Flatten(Copied(line)) == line && |Copied(line)| == (if line == [] then 0 else 1)
  {
    FlattenSingleton(line);
  }

  function LineOf(step: Step): Line
  {
    if step.DoAppend? then step.line else []
  }

  lemma StepEntries(s: Log, step: Step)
    requires Enabled(s, step) && Next(s, step).Ok?
    ensures Flatten(Next(s, step).log.appended) == Flatten(s.appended) + LineOf(step)
    ensures Next(s, step).log.running <==> s.running && step != DoStop
  {
    if step.DoAppend? {
      CopiedExact(step.line);
      FlattenConcat(s.appended, Copied(step.line));
    }
  }

  lemma LinesStep(steps: seq<Step>, k: nat)
    requires k < |steps|
    ensures Flatten(LinesUpTo(steps, k + 1)) == Flatten(LinesUpTo(steps, k)) + LineOf(steps[k])
  {
    if steps[k].DoAppend? {
      FlattenSnoc(LinesUpTo(steps, k), steps[k].line);
    } else {
      assert LinesUpTo(steps, k + 1) == LinesUpTo(steps, k);
    }
  }

  /** On every run from a new logger the bytes counted as appended are those of the lines of the append steps, in order. */
  lemma {:induction false} AppendedAreLines(states: seq<Log>, steps: seq<Step>, j: nat)
    requires IsLooseRun(states, steps) && states[0] == INITIAL && j < |states|
    ensures Flatten(states[j].appended) == Flatten(LinesUpTo(steps, j))
  {
    if j == 0 {
    } else {
      var k := j - 1;
      AppendedAreLines(states, steps, k);
      assert LooselyFollows(states[k], steps[k], states[k + 1]);
      StepEntries(states[k], steps[k]);
      LinesStep(steps, k);
    }
  }

  /** The background thread is told to go on exactly until the stop. */
  lemma {:induction false} RunningUntilStopped(states: seq<Log>, steps: seq<Step>, j: nat)
    requires IsLooseRun(states, steps) && states[0] == INITIAL && j < |states|
    ensures states[j].running <==> !StoppedBefore(steps, j)
  {
    if j == 0 {
    } else {
      var k := j - 1;
      RunningUntilStopped(states, steps, k);
      assert LooselyFollows(states[k], steps[k], states[k + 1]);
      StepEntries(states[k], steps[k]);
      assert StoppedBefore(steps, j) <==> StoppedBefore(steps, k) || steps[k] == DoStop;
    }
  }

  /** Byte for byte: once the thread has finished, on a run that lost nothing, the log is all lines back to back. */
  lemma FinalLogBytes(states: seq<Log>, steps: seq<Step>, j: nat)
    requires IsLooseRun(states, steps) && states[0] == INITIAL && j < |states| && states[j].pc == Finished
    requires LosslessUpTo(states, steps, j) && OnTimeUpTo(states, steps, j)
    ensures Flatten(states[j].file) == Flatten(LinesUpTo(steps, j))
  {
    FinalLogExactly(states, steps, j);
    AppendedAreLines(states, steps, j);
  }

  // ---- the size of the buffers ----

  /** Less than 64 KiB, or a single line. */
  predicate SizeOk(c: Contents)
  {
    Size(c) < 65536 || |c| == 1
  }

  predicate SizesOk(s: Log)
  {
    && (s.current.Some? ==> SizeOk(s.current.value))
    && (forall b :: b in s.buffers ==> SizeOk(b))
    && (forall b :: b in s.toWrite ==> SizeOk(b))
  }

  /** append goes on to the next buffer exactly when the line would fill the current one to 64 KiB. */
  lemma SwitchExactly(s: Log, line: Line)
    requires s.current.Some?
    ensures Append(s, line).Ok?
    ensures Append(s, line).log.buffers
            == s.buffers + (if Size(s.current.value) + |line| >= 65536 then [s.current.value] else [])
  {
  }

  lemma AppendSizes(s: Log, line: Line)
    requires SizesOk(s) && s.current.Some?
    ensures Append(s, line).Ok? && SizesOk(Append(s, line).log)
  {
    CopiedExact(line);
    FlattenConcat(s.current.value, Copied(line));
    assert Size([]) == 0;
  }

  lemma TakenAreCollected(s: Log)
    requires SizesOk(s)
    ensures forall b :: b in Limited(Taken(s)) ==> SizeOk(b)
  {
    KeptExact(s);
    assert forall b :: b in Limited(Taken(s)) ==> b in Collected(s);
  }

  lemma StepSizes(s: Log, step: Step)
    requires SizesOk(s) && Enabled(s, step) && Next(s, step).Ok?
    ensures SizesOk(Next(s, step).log)
  {
    assert Size([]) == 0;
    match step
    case DoAppend(line) => AppendSizes(s, line);
    case DoExchange => TakenAreCollected(s);
    case _ =>
  }

  /** On every run every buffer in use holds less than 64 KiB or a single line. */
  lemma {:induction false} BuffersStaySmall(states: seq<Log>, steps: seq<Step>, j: nat)
    requires IsLooseRun(states, steps) && SizesOk(states[0]) && j < |states|
    ensures SizesOk(states[j])
  {
    if j == 0 {
    } else {
      var k := j - 1;
      BuffersStaySmall(states, steps, k);
      assert LooselyFollows(states[k], steps[k], states[k + 1]);
      StepSizes(states[k], steps[k]);
    }
  }
}
