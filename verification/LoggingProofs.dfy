/** No line is lost, reordered or split while every pass finds between one and 25 buffers. */
module LoggingProofs {
  import opened Bytes
  import opened LoggingSpec

  /** The buffers whose lines are on their way to the log, oldest first. */
  function Underway(s: Log): seq<Contents>
    requires s.written <= |s.toWrite|
  {
    s.toWrite[s.written..] + s.buffers + (if s.current.Some? then [s.current.value] else [])
  }

  /** All lines that are in the log or on their way to it, oldest first. */
  function Everything(s: Log): Contents
    requires s.written <= |s.toWrite|
  {
    s.file + Flatten(Underway(s))
  }

  predicate NoEmptyLine(c: Contents)
  {
    forall i :: 0 <= i < |c| ==> c[i] != []
  }

  /** The front end: nextBuffer_ is gone exactly while full buffers wait, and then something follows them. */
  predicate FrontInv(s: Log)
  {
    && s.written <= |s.toWrite|
    && (s.current.None? ==> s.pc == Finished)
    && (s.current.Some? ==>
          && NoEmptyLine(s.current.value)
          && (s.pc != Finished ==>
                && (s.hasNext <==> s.buffers == [])
                && (Size(s.current.value) >= BUFFER_SIZE ==> !s.hasNext)
                && (s.current.value == [] && s.buffers != [] ==> |s.buffers| >= 2 && s.buffers[|s.buffers| - 1] != [])))
  }

  /** The back end in contract: both spares at the start of a pass, enough written buffers to refill them at its end. */
  predicate BackInv(s: Log)
  {
    && (s.pc == PassStart ==> s.spare1 && s.spare2 && s.toWrite == [] && s.written == 0)
    && (s.pc == Writing ==> !s.spare1 && s.toWrite != [] && (!s.spare2 ==> |s.toWrite| >= 2))
    && (s.pc == Finished ==> s.toWrite == [] && s.written == 0 && s.buffers == [] && (s.current.Some? ==> s.current.value == []))
  }

  predicate Inv(s: Log)
  {
    FrontInv(s) && BackInv(s) && Everything(s) == s.appended
  }

  lemma InitialInv()
    ensures Inv(INITIAL)
  {
  }

  lemma {:induction false} SizeZero(c: Contents)
    requires NoEmptyLine(c)
    ensures Size(c) == 0 <==> c == []
  {
    if c != [] {
      assert c[0] != [];
    }
  }

  // ---- append ----

  lemma AppendFront(s: Log, line: Line)
    requires FrontInv(s) && s.current.Some?
    ensures Append(s, line).Ok? && FrontInv(Append(s, line).log)
  {
    var cur := s.current.value;
    SizeZero(cur);
    FlattenConcat(cur, Copied(line));
    if line != [] {
      FlattenSingleton(line);
    }
  }

  lemma AppendAdds(s: Log, line: Line)
    requires s.written <= |s.toWrite| && s.current.Some?
    ensures Append(s, line).Ok? && Everything(Append(s, line).log) == Everything(s) + Copied(line)
  {
    var front, cur := s.toWrite[s.written..] + s.buffers, s.current.value;
    FlattenSnoc(front, cur);
    if Size(cur) + |line| < BUFFER_SIZE {
      FlattenSnoc(front, cur + Copied(line));
      Associative(Flatten(front), cur, Copied(line));
    } else {
      var s' := Append(s, line).log;
      assert Underway(s') == Underway(s) + [Copied(line)];
      FlattenSnoc(Underway(s), Copied(line));
    }
    Associative(s.file, Flatten(Underway(s)), Copied(line));
  }

  // ---- one pass ----

  lemma CollectedFacts(s: Log)
    requires FrontInv(s) && s.current.Some? && s.pc != Finished
    ensures Flatten(Collected(s)) == Flatten(s.buffers + [s.current.value])
    ensures Collected(s) != [] ==> Collected(s)[|Collected(s)| - 1] != []
    ensures !s.hasNext ==> |Collected(s)| >= 2
  {
    SizeZero(s.current.value);
    FlattenSnoc(s.buffers, s.current.value);
  }

  lemma EverythingCollected(s: Log)
    requires FrontInv(s) && s.current.Some? && s.pc == PassStart && s.toWrite == []
    ensures Everything(s) == s.file + Flatten(Collected(s))
  {
    CollectedFacts(s);
    assert Underway(s) == s.buffers + [s.current.value];
  }

  /**
   One pass's exchange, in contract or not: what it keeps is exactly the collected buffers, minus
   the last one when newBuffer1 was missing, minus all but two when more than 25 remain.
   */
  lemma ExchangeKeeps(s: Log)
    requires FrontInv(s) && s.current.Some? && s.pc == PassStart && s.toWrite == []
    ensures FrontInv(Exchange(s))
    ensures Everything(Exchange(s)) == s.file + Flatten(Limited(Taken(s)))
    ensures Everything(s) == s.file + Flatten(Collected(s))
  {
    EverythingCollected(s);
    var kept := Limited(Taken(s));
    assert Underway(Exchange(s)) == kept + [[]];
    FlattenSnoc(kept, []);
  }

  lemma WriteKeeps(s: Log)
    requires s.written < |s.toWrite|
    ensures Everything(WriteBuffer(s)) == Everything(s)
  {
    assert Underway(s)[1..] == Underway(WriteBuffer(s));
    Associative(s.file, s.toWrite[s.written], Flatten(Underway(s)[1..]));
  }

  lemma FlushKeeps(s: Log)
    requires Inv(s) && s.pc == PassStart
    ensures FinalFlush(s).file == s.appended && Inv(FinalFlush(s))
  {
    EverythingCollected(s);
    SizeZero(s.current.value);
    DoneIsEmpty(FinalFlush(s));
  }

  lemma DoneIsEmpty(s: Log)
    requires s.toWrite == [] && s.written == 0 && s.buffers == [] && (s.current.Some? ==> s.current.value == [])
    ensures Everything(s) == s.file
  {
    assert Underway(s) == if s.current.Some? then [[]] else [];
    FlattenSingleton<Line>([]);
  }

  lemma InContractExchange(s: Log)
    requires Inv(s) && s.pc == PassStart && 1 <= |Collected(s)| <= MAX_BUFFERS
    ensures Inv(Exchange(s))
  {
    ExchangeKeeps(s);
    CollectedFacts(s);
  }

  lemma InContractAppend(s: Log, line: Line)
    requires Inv(s) && s.pc != Finished
    ensures Append(s, line).Ok? && Inv(Append(s, line).log)
  {
    AppendFront(s, line);
    AppendAdds(s, line);
  }

  lemma InContractWrite(s: Log)
    requires Inv(s) && s.pc == Writing && s.written < |s.toWrite|
    ensures Inv(WriteBuffer(s))
  {
    WriteKeeps(s);
  }

  lemma InContractRecycle(s: Log)
    requires Inv(s) && s.pc == Writing && s.written == |s.toWrite|
    ensures Recycle(s).Ok? && Inv(Recycle(s).log)
  {
    assert Underway(Recycle(s).log) == Underway(s);
  }

  /** Every step in contract goes through, with the reuse asserts of the pass, and keeps the invariant. */
  lemma StepKeeps(s: Log, step: Step)
    requires Inv(s) && Enabled(s, step) && InContract(s, step)
    ensures Next(s, step).Ok? && Inv(Next(s, step).log)
  {
    match step
    case DoAppend(line) => InContractAppend(s, line);
    case DoExchange => InContractExchange(s);
    case DoWrite => InContractWrite(s);
    case DoRecycle => InContractRecycle(s);
    case DoStop => assert Underway(s.(running := false)) == Underway(s);
    case DoFinalFlush => FlushKeeps(s);
  }

  ghost predicate Follows(s: Log, step: Step, s': Log)
  {
    Enabled(s, step) && InContract(s, step) && Next(s, step) == Ok(s')
  }

  ghost predicate IsRun(states: seq<Log>, steps: seq<Step>)
  {
    && |states| == |steps| + 1
    && Inv(states[0])
    && forall i {:trigger Follows(states[i], steps[i], states[i + 1])} ::
         0 <= i < |steps| ==> Follows(states[i], steps[i], states[i + 1])
  }

  lemma {:induction false} EveryStateInv(states: seq<Log>, steps: seq<Step>, i: nat)
    requires IsRun(states, steps) && i < |states|
    ensures Inv(states[i])
  {
    if i == 0 {
    } else {
      var k := i - 1;
      EveryStateInv(states, steps, k);
      assert Follows(states[k], steps[k], states[k + 1]);
      StepKeeps(states[k], steps[k]);
    }
  }

  /**
   Conservation over every interleaving of appends with passes: the log, the buffers being written,
   the waiting buffers and the current buffer hold every appended line, whole and in order; both
   spares are there at the start of every pass; and after the final flush the log is everything.
   */
  lemma LoggingConservation(states: seq<Log>, steps: seq<Step>, i: nat)
    requires IsRun(states, steps) && i < |states|
    ensures states[i].written <= |states[i].toWrite| && Everything(states[i]) == states[i].appended
    ensures states[i].pc == PassStart ==> states[i].spare1 && states[i].spare2
    ensures states[i].pc == Finished ==> states[i].file == states[i].appended
  {
    EveryStateInv(states, steps, i);
    if states[i].pc == Finished {
      DoneIsEmpty(states[i]);
    }
  }

  /** What has reached the log stays there, in the order of the appends. */
  lemma {:induction false} LogOnlyGrows(states: seq<Log>, steps: seq<Step>, i: nat, j: nat)
    requires IsRun(states, steps) && i <= j < |states|
    ensures states[i].file <= states[j].file <= states[j].appended
    ensures states[i].appended <= states[j].appended
    decreases j
  {
    EveryStateInv(states, steps, j);
    if i == j {
    } else {
      var k := j - 1;
      LogOnlyGrows(states, steps, i, k);
      assert Follows(states[k], steps[k], states[k + 1]);
      HistoryGrows(states[k], steps[k]);
    }
  }

  lemma HistoryGrows(s: Log, step: Step)
    requires Enabled(s, step) && Next(s, step).Ok?
    ensures s.file <= Next(s, step).log.file && s.appended <= Next(s, step).log.appended
  {
  }
}
