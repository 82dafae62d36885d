/**
 TcpConnection on the loop thread as a state machine over byte sequences.

 A Conn holds the connection's own fields (state, channel registration, the two buffers, the
 high-water mark), the work other parties have left for it (sends queued by other threads,
 handlers of the last poll not yet dispatched) and the history a claim needs: bytes accepted
 by sendInLoop, bytes the kernel took, bytes the kernel delivered, bytes the application
 consumed, the calls to write and readv, and the notifications queued so far. System calls are
 parameters of the events.
 */
module ConnectionSpec {
  import opened Bytes
  import opened PollSpec

  datatype ConnectState = Connecting | Connected | Disconnecting | Disconnected

  function Rank(s: ConnectState): nat
  {
    match s
    case Connecting => 0
    case Connected => 1
    case Disconnecting => 2
    case Disconnected => 3
  }

  datatype Errno = EAGAIN | EPIPE | ECONNRESET | OtherErrno
  datatype WriteResult = Wrote(n: nat) | WriteFailed(errno: Errno)

  /** `Arrived([])` is end of file. */
  datatype ReadResult = Arrived(data: seq<byte>) | ReadFailed

  datatype Conn = Conn(
    state: ConnectState,
    established: bool,
    reg: Reg,
    input: seq<byte>,
    output: seq<byte>,
    mark: nat,
    highWaterSet: bool,
    writeCompleteSet: bool,
    queued: seq<seq<byte>>,
    todo: seq<Handler>,
    handed: seq<seq<byte>>,
    accepted: seq<byte>,
    wire: seq<byte>,
    received: seq<byte>,
    consumed: seq<byte>,
    shutWr: nat,
    writeCalls: nat,
    readCalls: nat,
    closes: nat,
    writeCompletes: nat,
    highWaters: seq<nat>)

  datatype Outcome = Ok(conn: Conn) | AssertFailed {
    predicate IsFailure() { AssertFailed? }

    function PropagateFailure(): Outcome
      requires IsFailure()
    {
      AssertFailed
    }

    function Extract(): Conn
      requires !IsFailure()
    {
      conn
    }
  }

  /** A new connection: highWaterMark_ is whatever setHighWaterMarkCallback left there. */
  function Init(mark: nat, highWaterSet: bool, writeCompleteSet: bool): Conn
  {
    Conn(Connecting, false, FRESH_REG, [], [], mark, highWaterSet, writeCompleteSet,
         [], [], [], [], [], [], [], 0, 0, 0, 0, 0, [])
  }

  function ChangeInterest(c: Conn, i: Interest): Outcome
  {
    match Change(c.reg, i)
    case RegOk(r) => Ok(c.(reg := r))
    case _ => AssertFailed
  }

  predicate Writing(c: Conn) { c.reg.events.pollOut }

  function HandleClose(c: Conn): Outcome
  {
    if c.state != Connected && c.state != Disconnecting then AssertFailed
    else
      match Remove(c.reg)
      case RegOk(r) => Ok(c.(state := Disconnected, reg := r, closes := c.closes + 1))
      case _ => AssertFailed
  }

  /** The tail of sendInLoop: what was not written is kept, with the high-water check. */
  function KeepRest(c: Conn, rest: seq<byte>): Outcome
  {
    if rest == [] then Ok(c)
    else
      var newLen := |c.output| + |rest|;
      var tasks := if c.highWaterSet && |c.output| < c.mark <= newLen then [newLen] else [];
      ChangeInterest(c.(output := c.output + rest, highWaters := c.highWaters + tasks), EnableWrite)
  }

  function NotifyWritten(c: Conn): Conn
  {
    if c.writeCompleteSet then c.(writeCompletes := c.writeCompletes + 1) else c
  }

  /** A call to ::write. */
  function CallWrite(c: Conn): Conn
  {
    c.(writeCalls := c.writeCalls + 1)
  }

  /** A call to ::readv. */
  function CallRead(c: Conn): Conn
  {
    c.(readCalls := c.readCalls + 1)
  }

  predicate BrokenPipe(e: Errno) { e == EPIPE || e == ECONNRESET }

  function SendInLoop(before: Conn, data: seq<byte>, w: WriteResult): Outcome
    requires w.Wrote? ==> w.n <= |data|
  {
    if before.state == Disconnected then Ok(before)
    else
      var taken := before.(accepted := before.accepted + data, handed := before.handed + [data]);
      if Writing(taken) then KeepRest(taken, data)
      else if taken.output != [] then AssertFailed
      else
        var c := CallWrite(taken);
        match w
        case WriteFailed(e) => if BrokenPipe(e) then HandleClose(c) else KeepRest(c, data)
        case Wrote(n) =>
          var sent := c.(wire := c.wire + data[..n]);
          if n == |data| then Ok(NotifyWritten(sent)) else KeepRest(sent, data[n..])
  }

  function HandleRead(before: Conn, r: ReadResult): Outcome
  {
    if before.state == Disconnected then Ok(before)
    else
      var c := CallRead(before);
      if r.ReadFailed? || r.data == [] then HandleClose(c)
      else Ok(c.(input := c.input + r.data, received := c.received + r.data))
  }

  function ShutdownInLoop(c: Conn): Conn
  {
    if c.state != Disconnected && !Writing(c) then c.(shutWr := c.shutWr + 1) else c
  }

  function HandleWrite(before: Conn, w: WriteResult): Outcome
    requires w.Wrote? ==> w.n <= |before.output|
  {
    if before.state == Disconnected then Ok(before)
    else if before.output == [] || !Writing(before) then AssertFailed
    else
      var c := CallWrite(before);
      match w
      case WriteFailed(e) => if BrokenPipe(e) then HandleClose(c) else Ok(c)
      case Wrote(n) =>
        var sent := c.(wire := c.wire + c.output[..n], output := c.output[n..]);
        if sent.output != [] then Ok(sent)
        else
          var idle :- ChangeInterest(sent, DisableWrite);
          Ok(NotifyWritten(if idle.state == Disconnecting then ShutdownInLoop(idle) else idle))
  }

  function Shutdown(c: Conn): Outcome
  {
    if c.state == Disconnected then AssertFailed
    else
      var next := c.(state := Disconnecting);
      Ok(if c.state == Connected then ShutdownInLoop(next) else next)
  }

  function ForceClose(c: Conn): Outcome
  {
    if c.state == Disconnected then Ok(c) else HandleClose(c.(state := Disconnecting))
  }

  function Establish(c: Conn): Outcome
  {
    if c.state != Connecting then AssertFailed
    else ChangeInterest(c.(state := Connected, established := true), EnableRead)
  }

  function StopRead(c: Conn): Outcome
  {
    if c.reg.events.pollIn then ChangeInterest(c, DisableRead) else Ok(c)
  }

  function StartRead(c: Conn): Outcome
  {
    if c.reg.events.pollIn then Ok(c) else ChangeInterest(c, EnableRead)
  }

  function Send(c: Conn, data: seq<byte>, w: WriteResult): Outcome
    requires w.Wrote? ==> w.n <= |data|
  {
    if c.state != Connected then Ok(c) else SendInLoop(c, data, w)
  }

  /**
   Everything that can happen to the connection on its loop thread. User code that runs inside
   a callback, in another channel's callback or in a pending task appears as further events, so
   any number of calls may fall between a Poll and the dispatch of its handlers.
   */
  datatype Event =
    | DoEstablish
    | DoSend(data: seq<byte>, w: WriteResult)
    | QueueSend(data: seq<byte>)
    | RunQueuedSend(w: WriteResult)
    | DoShutdown
    | DoForceClose
    | DoStopRead
    | DoStartRead
    | Consume(n: nat)
    | Poll(revents: EventMask)
    | Dispatch(r: ReadResult, w: WriteResult)

  /**
   What ::write may answer: any number of bytes up to `len`, or any error. After SHUT_WR the kernel
   takes no more bytes, but the error need not be EPIPE: a pending socket error comes first.
   */
  predicate WriteAnswer(c: Conn, len: nat, w: WriteResult)
  {
    && (w.Wrote? ==> w.n <= len)
    && (c.shutWr > 0 ==> w.WriteFailed? || len == 0)
  }

  /**
   What can occur at all. QueueSend is the push of another thread that found the connection
   connected earlier. stopRead and startRead are calls on a connection that is up.
   */
  predicate Possible(c: Conn, e: Event)
  {
    match e
    case DoSend(data, w) => WriteAnswer(c, |data|, w)
    case QueueSend(_) => c.established
    case RunQueuedSend(w) => c.queued != [] && WriteAnswer(c, |c.queued[0]|, w)
    case DoStopRead => c.established && c.state != Disconnected
    case DoStartRead => c.established && c.state != Disconnected
    case Consume(n) => n <= |c.input|
    case Poll(revents) => c.todo == [] && c.reg.kernel.Some? && Reportable(revents, c.reg.kernel.value)
    case Dispatch(r, w) => c.todo != [] && (c.todo[0] == OnWrite ==> WriteAnswer(c, |c.output|, w))
    case _ => true
  }

  /**
   The calls whose assert fails: establishing twice or too late, shutting down a connection that
   is already closed, and running a close or error handler on a connection that was closed
   between the poll and the dispatch.
   */
  predicate Misuse(c: Conn, e: Event)
  {
    match e
    case DoEstablish => c.state != Connecting
    case DoShutdown => c.state == Disconnected
    case Dispatch(_, _) => c.todo != [] && (c.todo[0] == OnClose || c.todo[0] == OnError) && c.state == Disconnected
    case _ => false
  }

  function RunHandler(c: Conn, h: Handler, r: ReadResult, w: WriteResult): Outcome
    requires h == OnWrite && w.Wrote? ==> w.n <= |c.output|
  {
    match h
    case OnClose => HandleClose(c)
    case OnError => HandleClose(c)
    case OnRead => HandleRead(c, r)
    case OnWrite => HandleWrite(c, w)
  }

  function Step(c: Conn, e: Event): Outcome
    requires Possible(c, e)
  {
    match e
    case DoEstablish => Establish(c)
    case DoSend(data, w) => Send(c, data, w)
    case QueueSend(data) => Ok(c.(queued := c.queued + [data]))
    case RunQueuedSend(w) => SendInLoop(c.(queued := c.queued[1..]), c.queued[0], w)
    case DoShutdown => Shutdown(c)
    case DoForceClose => ForceClose(c)
    case DoStopRead => StopRead(c)
    case DoStartRead => StartRead(c)
    case Consume(n) => Ok(c.(input := c.input[n..], consumed := c.consumed + c.input[..n]))
    case Poll(revents) => Ok(c.(todo := Handlers(revents)))
    case Dispatch(r, w) => RunHandler(c.(todo := c.todo[1..]), c.todo[0], r, w)
  }
}
