/**
 AsyncLogging over real heap buffers. Buffers move between the front end, the background thread
 and the waiting list by pointer and are emptied and reused, so the proof carries an ownership
 invariant: every buffer in use has exactly one role, and no two places hold the same buffer.
 Each method is one step of the machine in LoggingSpec.
 */
module AsyncLoggings {
  import opened Bytes
  import opened LoggingSpec
  import opened LoggingProofs

  /** The one place where a buffer is held. */
  datatype Role = Current | Following | Waiting(i: nat) | Spare1 | Spare2 | BeingWritten(i: nat)

  /** A buffer: the lines copied into it, back to back. */
  class LogBuffer {
    var lines: Contents
    ghost var role: Role

    constructor (ghost role: Role)
      ensures lines == [] && this.role == role
    {
      lines := [];
      this.role := role;
    }
  }

  class AsyncLogging {
    // shared, under the mutex
    var currentBuffer: LogBuffer?
    var nextBuffer: LogBuffer?
    var buffers: seq<LogBuffer>
    // locals of the background thread
    var newBuffer1: LogBuffer?
    var newBuffer2: LogBuffer?
    var buffersToWrite: seq<LogBuffer>
    var written: nat
    var running: bool
    // the log files, one after the other
    var file: Contents
    ghost var appended: Contents
    ghost var pc: Pc
    ghost var waiting: seq<Contents>
    ghost var beingWritten: seq<Contents>
    ghost var Repr: set<LogBuffer>

    /** Every place holds a buffer of its own: roles, and with them the buffers, are pairwise distinct. */
    ghost predicate Valid()
      reads this, Repr
    {
      && (currentBuffer != null ==> currentBuffer in Repr && currentBuffer.role == Current)
      && (nextBuffer != null ==> nextBuffer in Repr && nextBuffer.role == Following && nextBuffer.lines == [])
      && (newBuffer1 != null ==> newBuffer1 in Repr && newBuffer1.role == Spare1 && newBuffer1.lines == [])
      && (newBuffer2 != null ==> newBuffer2 in Repr && newBuffer2.role == Spare2 && newBuffer2.lines == [])
      && |buffers| == |waiting| && |buffersToWrite| == |beingWritten|
      && (forall i :: 0 <= i < |buffers| ==>
            buffers[i] in Repr && buffers[i].role == Waiting(i) && buffers[i].lines == waiting[i])
      && (forall i :: 0 <= i < |buffersToWrite| ==>
            buffersToWrite[i] in Repr && buffersToWrite[i].role == BeingWritten(i) && buffersToWrite[i].lines == beingWritten[i])
    }

    ghost function Model(): Log
      reads this, currentBuffer
    {
      Log(if currentBuffer == null then None else Some(currentBuffer.lines), nextBuffer != null, waiting,
          newBuffer1 != null, newBuffer2 != null, beingWritten, written, pc, running, file, appended)
    }

    /** Live and spare buffers are pairwise distinct: emptying one never touches another. */
    lemma PairwiseDistinct()
      requires Valid()
      ensures forall i, j :: 0 <= i < j < |buffers| ==> buffers[i] != buffers[j]
      ensures forall i, j :: 0 <= i < j < |buffersToWrite| ==> buffersToWrite[i] != buffersToWrite[j]
      ensures forall b :: b in buffers ==> b !in buffersToWrite
      ensures forall b :: b in {currentBuffer, nextBuffer, newBuffer1, newBuffer2} && b != null ==>
                b !in buffers && b !in buffersToWrite
      ensures currentBuffer != null ==> currentBuffer !in {nextBuffer, newBuffer1, newBuffer2}
      ensures nextBuffer != null ==> nextBuffer !in {newBuffer1, newBuffer2}
      ensures newBuffer1 != null ==> newBuffer1 != newBuffer2
    {
    }

    constructor ()
      ensures Valid() && fresh(Repr) && Model() == INITIAL && Inv(Model())
    {
      var b1 := new LogBuffer(Current);
      var b2 := new LogBuffer(Following);
      var b3 := new LogBuffer(Spare1);
      var b4 := new LogBuffer(Spare2);
      currentBuffer, nextBuffer, newBuffer1, newBuffer2 := b1, b2, b3, b4;
      buffers, buffersToWrite, written, running := [], [], 0, true;
      file, appended, pc := [], [], PassStart;
      waiting, beingWritten := [], [];
      Repr := {b1, b2, b3, b4};
    }

    method Append(line: Line)
      requires Valid() && currentBuffer != null
      modifies this, Repr
      ensures Valid() && fresh(Repr - old(Repr))
      ensures LoggingSpec.Append(old(Model()), line) == Ok(Model())
    {
      assert [] + Copied(line) == Copied(line);
      if Size(currentBuffer.lines) + |line| < BUFFER_SIZE {
        InsertLine(line);
      } else {
        NextBuffer();
        InsertLine(line);
      }
    }

    /** The current buffer is full: it waits to be written and another takes its place. */
    method NextBuffer()
      requires Valid() && currentBuffer != null
      modifies this`buffers, this`currentBuffer, this`waiting, this`nextBuffer, this`Repr, Repr
      ensures Valid() && fresh(Repr - old(Repr)) && currentBuffer != null && currentBuffer.lines == []
      ensures Model() == var s := old(Model());
                         s.(buffers := s.buffers + [s.current.value], current := Some([]), hasNext := false)
    {
      PushCurrent();
      UseNext();
    }

    /** currentBuffer_->insert of the line at the end. */
    method InsertLine(line: Line)
      requires Valid() && currentBuffer != null
      modifies currentBuffer`lines, this`appended
      ensures Valid()
      ensures Model() == var s := old(Model());
                         s.(current := Some(s.current.value + Copied(line)), appended := s.appended + Copied(line))
    {
      appended := appended + Copied(line);
      currentBuffer.lines := currentBuffer.lines + Copied(line);
    }

    /** buffers_.push_back(currentBuffer_); currentBuffer_.reset(). */
    method PushCurrent()
      requires Valid() && currentBuffer != null
      modifies this`buffers, this`currentBuffer, this`waiting, currentBuffer`role
      ensures Valid()
      ensures Model() == var s := old(Model()); s.(current := None, buffers := s.buffers + [s.current.value])
    {
      currentBuffer.role := Waiting(|buffers|);
      buffers := buffers + [currentBuffer];
      waiting := waiting + [currentBuffer.lines];
      currentBuffer := null;
    }

    /** nextBuffer_ becomes the current buffer; without one a new buffer is allocated. */
    method UseNext()
      requires Valid() && currentBuffer == null
      modifies this`currentBuffer, this`nextBuffer, this`Repr, Repr
      ensures Valid() && fresh(Repr - old(Repr))
      ensures Model() == old(Model()).(current := Some([]), hasNext := false)
    {
      if nextBuffer != null {
        currentBuffer := nextBuffer;
        nextBuffer := null;
        currentBuffer.role := Current;
      } else {
        currentBuffer := new LogBuffer(Current);
        Repr := Repr + {currentBuffer};
      }
    }

    /** The critical section at the start of a pass, then the drop check. */
    method Exchange()
      requires Valid() && pc == PassStart && buffersToWrite == []
      modifies this, Repr
      ensures Valid() && fresh(Repr - old(Repr))
      ensures Model() == LoggingSpec.Exchange(old(Model()))
    {
      TakeFromFrontEnd();
      SwapAndRefill();
      if |buffersToWrite| > MAX_BUFFERS {
        KeepTwo();
      }
      StartPass();
    }

    /** The critical section up to currentBuffer_ = newBuffer1. */
    method TakeFromFrontEnd()
      requires Valid()
      modifies this`currentBuffer, this`newBuffer1, this`buffers, this`waiting, this`Repr, Repr
      ensures Valid() && fresh(Repr - old(Repr))
      ensures Model() == old(Model()).(current := Some([]), spare1 := false, buffers := Taken(old(Model())))
    {
      Collect();
      if newBuffer1 == null {
        FindSpare();
      }
      InstallCurrent();
    }

    /** The rest of the critical section: swap the lists, refill nextBuffer_. */
    method SwapAndRefill()
      requires Valid() && buffersToWrite == []
      modifies this`buffers, this`buffersToWrite, this`waiting, this`beingWritten
      modifies this`nextBuffer, this`newBuffer2, this`Repr, Repr
      ensures Valid() && fresh(Repr - old(Repr))
      ensures Model() == var s := old(Model());
                         s.(buffers := [], toWrite := s.buffers, hasNext := true, spare2 := s.spare2 && s.hasNext)
    {
      SwapLists();
      if nextBuffer == null {
        RefillNext();
      }
    }

    /** A non-empty current buffer joins the waiting ones. */
    method Collect()
      requires Valid()
      modifies this`buffers, this`currentBuffer, this`waiting, Repr
      ensures Valid()
      ensures Model() == var s := old(Model());
                         s.(buffers := Collected(s),
                            current := if s.current.Some? && Size(s.current.value) > 0 then None else s.current)
    {
      if currentBuffer != null && Size(currentBuffer.lines) > 0 {
        PushCurrent();
      }
    }

    /** currentBuffer_ = newBuffer1; newBuffer1.reset(): whatever current buffer was there is let go. */
    method InstallCurrent()
      requires Valid() && newBuffer1 != null
      modifies this`currentBuffer, this`newBuffer1, newBuffer1`role
      ensures Valid()
      ensures Model() == old(Model()).(current := Some([]), spare1 := false)
    {
      currentBuffer := newBuffer1;
      newBuffer1 := null;
      currentBuffer.role := Current;
    }

    method StartPass()
      requires Valid()
      modifies this`written, this`pc
      ensures Valid()
      ensures Model() == var s := old(Model()); s.(written := 0, pc := if s.toWrite == [] then PassStart else Writing)
    {
      written := 0;
      pc := if buffersToWrite == [] then PassStart else Writing;
    }

    /** No newBuffer1: empty the last waiting buffer and take it, or allocate. */
    method FindSpare()
      requires Valid() && newBuffer1 == null
      modifies this`newBuffer1, this`buffers, this`waiting, this`Repr, Repr
      ensures Valid() && fresh(Repr - old(Repr)) && newBuffer1 != null
      ensures Model() == var s := old(Model());
                         s.(spare1 := true, buffers := if s.buffers == [] then [] else s.buffers[..|s.buffers| - 1])
    {
      if buffers != [] {
        newBuffer1 := buffers[|buffers| - 1];
        buffers := buffers[..|buffers| - 1];
        waiting := waiting[..|waiting| - 1];
        newBuffer1.lines := [];
        newBuffer1.role := Spare1;
      } else {
        newBuffer1 := new LogBuffer(Spare1);
        Repr := Repr + {newBuffer1};
      }
    }

    /** buffersToWrite.swap(buffers_), buffersToWrite being empty. */
    method SwapLists()
      requires Valid() && buffersToWrite == []
      modifies this`buffers, this`buffersToWrite, this`waiting, this`beingWritten, buffers`role
      ensures Valid()
      ensures Model() == var s := old(Model()); s.(buffers := [], toWrite := s.buffers)
    {
      forall i | 0 <= i < |buffers| {
        buffers[i].role := BeingWritten(i);
      }
      buffersToWrite, buffers := buffers, [];
      beingWritten, waiting := waiting, [];
    }

    method RefillNext()
      requires Valid() && nextBuffer == null
      modifies this`nextBuffer, this`newBuffer2, this`Repr, Repr
      ensures Valid() && fresh(Repr - old(Repr))
      ensures Model() == old(Model()).(hasNext := true, spare2 := false)
    {
      if newBuffer2 == null {
        newBuffer2 := new LogBuffer(Spare2);
        Repr := Repr + {newBuffer2};
      }
      nextBuffer := newBuffer2;
      newBuffer2 := null;
      nextBuffer.role := Following;
    }

    /** fwrite of one buffer. */
    method WriteOne()
      requires Valid() && pc == Writing && written < |buffersToWrite|
      modifies this`file, this`written
      ensures Valid() && Model() == WriteBuffer(old(Model()))
    {
      file := file + buffersToWrite[written].lines;
      written := written + 1;
    }

    /** The end of a pass; the reuse asserts hold when the machine does not crash. */
    method RecycleBuffers()
      requires Valid() && pc == Writing && Recycle(Model()).Ok?
      modifies this, Repr
      ensures Valid() && Repr == old(Repr)
      ensures Recycle(old(Model())) == Ok(Model())
    {
      if |buffersToWrite| > 2 {
        KeepTwo();
      }
      RefillSpares();
      EndPass();
    }

    method RefillSpares()
      requires Valid() && Missing(Model()) <= |buffersToWrite|
      modifies this`buffersToWrite, this`beingWritten, this`newBuffer1, this`newBuffer2, Repr
      ensures Valid()
      ensures Model() == old(Model()).(spare1 := true, spare2 := true, toWrite := Model().toWrite)
    {
      if newBuffer1 == null {
        assert buffersToWrite != [];
        RefillSpare1();
      }
      if newBuffer2 == null {
        assert buffersToWrite != [];
        RefillSpare2();
      }
    }

    method KeepTwo()
      requires Valid() && |buffersToWrite| > 2
      modifies this`buffersToWrite, this`beingWritten
      ensures Valid()
      ensures Model() == var s := old(Model()); s.(toWrite := s.toWrite[..2])
    {
      buffersToWrite := buffersToWrite[..2];
      beingWritten := beingWritten[..2];
    }

    method EndPass()
      requires Valid()
      modifies this`buffersToWrite, this`beingWritten, this`written, this`pc
      ensures Valid() && Model() == old(Model()).(toWrite := [], written := 0, pc := PassStart)
    {
      buffersToWrite, beingWritten, written := [], [], 0;
      pc := PassStart;
    }

    /** back(), pop_back() and resize(0). */
    method RefillSpare1()
      requires Valid() && buffersToWrite != [] && newBuffer1 == null
      modifies this`buffersToWrite, this`beingWritten, this`newBuffer1, buffersToWrite[|buffersToWrite| - 1]
      ensures Valid() && newBuffer1 != null
      ensures Model() == var s := old(Model()); s.(spare1 := true, toWrite := s.toWrite[..|s.toWrite| - 1])
    {
      newBuffer1 := buffersToWrite[|buffersToWrite| - 1];
      buffersToWrite := buffersToWrite[..|buffersToWrite| - 1];
      beingWritten := beingWritten[..|beingWritten| - 1];
      newBuffer1.lines := [];
      newBuffer1.role := Spare1;
    }

    method RefillSpare2()
      requires Valid() && buffersToWrite != [] && newBuffer2 == null
      modifies this`buffersToWrite, this`beingWritten, this`newBuffer2, buffersToWrite[|buffersToWrite| - 1]
      ensures Valid() && newBuffer2 != null
      ensures Model() == var s := old(Model()); s.(spare2 := true, toWrite := s.toWrite[..|s.toWrite| - 1])
    {
      newBuffer2 := buffersToWrite[|buffersToWrite| - 1];
      buffersToWrite := buffersToWrite[..|buffersToWrite| - 1];
      beingWritten := beingWritten[..|beingWritten| - 1];
      newBuffer2.lines := [];
      newBuffer2.role := Spare2;
    }

    method Stop()
      requires Valid()
      modifies this`running
      ensures Valid() && Model() == old(Model()).(running := false)
    {
      running := false;
    }

    /** After the loop of threadFunc: collect and write everything that is left. */
    method Flush()
      requires Valid() && pc == PassStart && !running && buffersToWrite == [] && written == 0
      modifies this, Repr
      ensures Valid() && Repr == old(Repr)
      ensures Model() == FinalFlush(old(Model()))
    {
      Collect();
      WriteWaiting();
      Finish();
    }

    method Finish()
      requires Valid()
      modifies this`buffers, this`waiting, this`pc
      ensures Valid() && Model() == old(Model()).(buffers := [], pc := Finished)
    {
      buffers, waiting := [], [];
      pc := Finished;
    }

    /** The last loop of threadFunc: fwrite of every remaining buffer. */
    method WriteWaiting()
      requires Valid()
      modifies this`file
      ensures Valid() && Model() == var s := old(Model()); s.(file := s.file + Flatten(s.buffers))
    {
      var k := 0;
      while k < |buffers|
        invariant 0 <= k <= |buffers|
        invariant file == old(file) + Flatten(waiting[..k])
      {
        FlattenSnoc(waiting[..k], waiting[k]);
        assert waiting[..k + 1] == waiting[..k] + [waiting[k]];
        file := file + buffers[k].lines;
        k := k + 1;
      }
      assert waiting[..k] == waiting;
    }

    /** Any step of the machine, carried out on the real buffers, in any order the machine allows. */
    method Perform(step: Step)
      requires Valid() && Enabled(Model(), step) && Next(Model(), step).Ok?
      requires step.DoExchange? || step.DoFinalFlush? ==> buffersToWrite == [] && written == 0
      modifies this, Repr
      ensures Valid() && fresh(Repr - old(Repr))
      ensures Next(old(Model()), step) == Ok(Model())
    {
      match step {
        case DoAppend(line) => Append(line);
        case DoExchange => Exchange();
        case DoWrite => WriteOne();
        case DoRecycle => RecycleBuffers();
        case DoStop => Stop();
        case DoFinalFlush => Flush();
      }
    }

    /** In contract no step crashes and the invariant, with conservation in it, is kept. */
    method Handle(step: Step)
      requires Valid() && Inv(Model()) && Enabled(Model(), step) && InContract(Model(), step)
      modifies this, Repr
      ensures Valid() && fresh(Repr - old(Repr))
      ensures Next(old(Model()), step) == Ok(Model()) && Inv(Model())
    {
      StepKeeps(Model(), step);
      Perform(step);
    }
  }
}
