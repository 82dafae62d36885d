/**
 AsyncLogging as an interleaving machine over buffer contents. A buffer is the list of the lines
 copied into it (a line of length zero copies nothing); which heap object holds which contents is
 the business of the class in AsyncLogging.dfy. The rolled files count as one log.
 */
module LoggingSpec {
  import opened Bytes

  type Line = seq<byte>
  type Contents = seq<Line>

  const BUFFER_SIZE: nat := 65536
  const MAX_BUFFERS: nat := 25

  /** The size in bytes. */
  function Size(c: Contents): nat { |Flatten(c)| }

  /** Where the background thread stands. */
  datatype Pc = PassStart | Writing | Finished

  /**
   `current` is None only after the final flush took the buffer away. `hasNext`, `spare1` and
   `spare2` say whether nextBuffer_, newBuffer1 and newBuffer2 are set; all three are empty buffers.
   */
  datatype Log = Log(
    current: Option<Contents>,
    hasNext: bool,
    buffers: seq<Contents>,
    spare1: bool,
    spare2: bool,
    toWrite: seq<Contents>,
    written: nat,
    pc: Pc,
    running: bool,
    file: Contents,
    appended: Contents)

  const INITIAL := Log(Some([]), true, [], true, true, [], 0, PassStart, true, [], [])

  datatype Outcome = Ok(log: Log) | Crash

  /** What copying a line adds. */
  function Copied(line: Line): Contents
  {
    if line == [] then [] else [line]
  }

  function Append(s: Log, line: Line): Outcome
  {
    if s.current.None? then Crash
    else
      var logged := s.(appended := s.appended + Copied(line));
      if Size(s.current.value) + |line| < BUFFER_SIZE
      then Ok(logged.(current := Some(s.current.value + Copied(line))))
      else Ok(logged.(buffers := s.buffers + [s.current.value], current := Some(Copied(line)), hasNext := false))
  }

  /** buffers_ after the background thread has moved a non-empty current buffer into it. */
  function Collected(s: Log): seq<Contents>
  {
    if s.current.Some? && Size(s.current.value) > 0 then s.buffers + [s.current.value] else s.buffers
  }

  /** A missing newBuffer1 is replaced by the last collected buffer, which is emptied for it. */
  function Taken(s: Log): seq<Contents>
  {
    var all := Collected(s);
    if !s.spare1 && all != [] then all[..|all| - 1] else all
  }

  /** More than 25 buffers: all but the first two are dropped. */
  function Limited(bs: seq<Contents>): seq<Contents>
  {
    if |bs| > MAX_BUFFERS then bs[..2] else bs
  }

  /** The critical section at the start of a pass and the drop check behind it. */
  function Exchange(s: Log): Log
  {
    var toWrite := Limited(Taken(s));
    s.(current := Some([]), spare1 := false, buffers := [], toWrite := toWrite, written := 0,
       hasNext := true, spare2 := s.spare2 && s.hasNext,
       pc := if toWrite == [] then PassStart else Writing)
  }

  function WriteBuffer(s: Log): Log
    requires s.written < |s.toWrite|
  {
    s.(file := s.file + s.toWrite[s.written], written := s.written + 1)
  }

  function Missing(s: Log): nat
  {
    (if s.spare1 then 0 else 1) + (if s.spare2 then 0 else 1)
  }

  function AtMostTwo(n: nat): nat { if n > 2 then 2 else n }

  /** The end of a pass: the spares are refilled from the buffers just written. */
  function Recycle(s: Log): Outcome
  {
    if Missing(s) > AtMostTwo(|s.toWrite|) then Crash
    else Ok(s.(spare1 := true, spare2 := true, toWrite := [], written := 0, pc := PassStart))
  }

  /** After the loop: everything left is written; a non-empty current buffer is not replaced. */
  function FinalFlush(s: Log): Log
  {
    s.(file := s.file + Flatten(Collected(s)), buffers := [],
       current := if s.current.Some? && Size(s.current.value) > 0 then None else s.current, pc := Finished)
  }

  datatype Step = DoAppend(line: Line) | DoExchange | DoWrite | DoRecycle | DoStop | DoFinalFlush

  predicate Enabled(s: Log, step: Step)
  {
    match step
    case DoAppend(_) => true
    case DoExchange => s.pc == PassStart
    case DoWrite => s.pc == Writing && s.written < |s.toWrite|
    case DoRecycle => s.pc == Writing && s.written == |s.toWrite|
    case DoStop => true
    case DoFinalFlush => s.pc == PassStart && !s.running
  }

  /** Appends end before the final flush, and every pass finds between one and 25 buffers. */
  predicate InContract(s: Log, step: Step)
  {
    match step
    case DoAppend(_) => s.pc != Finished
    case DoExchange => 1 <= |Collected(s)| <= MAX_BUFFERS
    case _ => true
  }

  function Next(s: Log, step: Step): Outcome
    requires Enabled(s, step)
  {
    match step
    case DoAppend(line) => Append(s, line)
    case DoExchange => Ok(Exchange(s))
    case DoWrite => Ok(WriteBuffer(s))
    case DoRecycle => Recycle(s)
    case DoStop => Ok(s.(running := false))
    case DoFinalFlush => Ok(FinalFlush(s))
  }
}
