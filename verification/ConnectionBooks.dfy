/**
 The books a connection keeps beside its buffers: messages handed to sendInLoop, messages waiting in
 the task queue, handlers to dispatch, bytes on the wire, bytes received and consumed, and calls to
 write and readv. Each lemma says what one operation does to them.
 */
module ConnectionBooks {
  import opened Bytes
  import opened PollSpec
  import opened ConnectionSpec
  import opened ConnectionProofs

  predicate SameBooks(c: Conn, c': Conn)
  {
    && c'.handed == c.handed && c'.queued == c.queued && c'.todo == c.todo
    && c'.wire == c.wire && c'.received == c.received && c'.consumed == c.consumed
    && c'.writeCalls == c.writeCalls && c'.readCalls == c.readCalls
  }

  lemma InterestBooks(c: Conn, i: Interest)
    ensures ChangeInterest(c, i).Ok? ==> SameBooks(c, ChangeInterest(c, i).conn) && ChangeInterest(c, i).conn.output == c.output
  {
  }

  lemma CloseBooks(c: Conn)
    ensures HandleClose(c).Ok? ==> SameBooks(c, HandleClose(c).conn) && HandleClose(c).conn.output == c.output
  {
  }

  lemma KeepRestBooks(c: Conn, rest: seq<byte>)
    ensures KeepRest(c, rest).Ok? ==> SameBooks(c, KeepRest(c, rest).conn) && KeepRest(c, rest).conn.output == c.output + rest
  {
    if rest != [] {
      InterestBooks(c.(output := c.output + rest, highWaters := c.highWaters + Alarm(c, rest)), EnableWrite);
    }
  }

  /** The bytes that ::write reports as taken. */
  function TakenOf(data: seq<byte>, w: WriteResult): seq<byte>
    requires w.Wrote? ==> w.n <= |data|
  {
    if w.Wrote? then data[..w.n] else []
  }

  /** The books after sendInLoop has taken a message: write is called unless the backlog is being watched. */
  function SendEntries(c: Conn, data: seq<byte>, w: WriteResult): Conn
    requires w.Wrote? ==> w.n <= |data|
  {
    var taken := c.(handed := c.handed + [data]);
    if Writing(c) then taken else CallWrite(taken).(wire := c.wire + TakenOf(data, w))
  }

  lemma SendBooks(c: Conn, data: seq<byte>, w: WriteResult)
    requires c.state != Disconnected && (w.Wrote? ==> w.n <= |data|) && SendInLoop(c, data, w).Ok?
    ensures SameBooks(SendEntries(c, data, w), SendInLoop(c, data, w).conn)
  {
    var taken := c.(accepted := c.accepted + data, handed := c.handed + [data]);
    assert c.wire + [] == c.wire;
    if Writing(c) {
      KeepRestBooks(taken, data);
    } else if w.WriteFailed? {
      CloseBooks(CallWrite(taken));
      KeepRestBooks(CallWrite(taken), data);
    } else if w.n < |data| {
      KeepRestBooks(CallWrite(taken).(wire := c.wire + data[..w.n]), data[w.n..]);
    }
  }

  /** What sendInLoop leaves in the backlog: all the kernel did not take, unless the pipe is broken. */
  function LeftOf(c: Conn, data: seq<byte>, w: WriteResult): seq<byte>
    requires w.Wrote? ==> w.n <= |data|
  {
    if Writing(c) then data
    else if w.Wrote? then data[w.n..]
    else if BrokenPipe(w.errno) then []
    else data
  }

  lemma SendLeaves(c: Conn, data: seq<byte>, w: WriteResult)
    requires c.state != Disconnected && (w.Wrote? ==> w.n <= |data|) && SendInLoop(c, data, w).Ok?
    ensures SendInLoop(c, data, w).conn.output == c.output + LeftOf(c, data, w)
  {
    var taken := c.(accepted := c.accepted + data, handed := c.handed + [data]);
    assert c.output + [] == c.output;
    if Writing(c) {
      KeepRestBooks(taken, data);
    } else if w.WriteFailed? {
      CloseBooks(CallWrite(taken));
      KeepRestBooks(CallWrite(taken), data);
    } else {
      KeepRestBooks(CallWrite(taken).(wire := c.wire + data[..w.n]), data[w.n..]);
    }
  }

  /** handleWrite: write is called once, and exactly the bytes it took leave the backlog for the wire. */
  lemma WriteBooks(c: Conn, w: WriteResult)
    requires c.state != Disconnected && (w.Wrote? ==> w.n <= |c.output|) && HandleWrite(c, w).Ok?
    ensures SameBooks(CallWrite(c).(wire := c.wire + TakenOf(c.output, w)), HandleWrite(c, w).conn)
    ensures HandleWrite(c, w).conn.output == if w.Wrote? then c.output[w.n..] else c.output
  {
    var called := CallWrite(c);
    assert c.wire + [] == c.wire;
    if w.WriteFailed? {
      CloseBooks(called);
    } else {
      InterestBooks(called.(wire := c.wire + c.output[..w.n], output := c.output[w.n..]), DisableWrite);
    }
  }

  /** handleRead: readv is called once, and what arrived joins the input, closed or not. */
  lemma ReadBooks(c: Conn, r: ReadResult)
    requires c.state != Disconnected && HandleRead(c, r).Ok?
    ensures var data := if r.Arrived? then r.data else [];
            && SameBooks(CallRead(c).(received := c.received + data), HandleRead(c, r).conn)
            && HandleRead(c, r).conn.input == c.input + data
  {
    CloseBooks(CallRead(c));
    assert c.received + [] == c.received && c.input + [] == c.input;
  }

  /** The books after a handler, which does nothing once disconnected. */
  function HandlerEntries(c: Conn, h: Handler, r: ReadResult, w: WriteResult): Conn
    requires h == OnWrite && w.Wrote? ==> w.n <= |c.output|
  {
    if c.state == Disconnected then c
    else
      match h
      case OnWrite => CallWrite(c).(wire := c.wire + TakenOf(c.output, w))
      case OnRead => CallRead(c).(received := c.received + (if r.Arrived? then r.data else []))
      case _ => c
  }

  lemma HandlerBooks(c: Conn, h: Handler, r: ReadResult, w: WriteResult)
    requires (h == OnWrite && w.Wrote? ==> w.n <= |c.output|) && RunHandler(c, h, r, w).Ok?
    ensures SameBooks(HandlerEntries(c, h, r, w), RunHandler(c, h, r, w).conn)
  {
    if c.state != Disconnected {
      match h
      case OnWrite => WriteBooks(c, w);
      case OnRead => ReadBooks(c, r);
      case _ => CloseBooks(c);
    }
  }

  lemma QuietBooks(c: Conn, e: Event)
    requires Possible(c, e) && Step(c, e).Ok?
    requires e.DoEstablish? || e.DoShutdown? || e.DoForceClose? || e.DoStopRead? || e.DoStartRead?
    ensures SameBooks(c, Step(c, e).conn)
  {
    match e
    case DoEstablish => InterestBooks(c.(state := Connected, established := true), EnableRead);
    case DoForceClose => CloseBooks(c.(state := Disconnecting));
    case DoStopRead => InterestBooks(c, DisableRead);
    case DoStartRead => InterestBooks(c, EnableRead);
    case _ =>
  }
}
