/**
 TcpConnection with its real parts: two array buffers, a channel and the poller. Every method
 is proved to do what the state machine of ConnectionSpec does, so the run theorems of
 ConnectionRuns hold of it. System call results are parameters.
 */
module TcpConnections {
  import opened Bytes
  import opened PollSpec
  import opened Polling
  import opened BufferClass
  import BufferSpec
  import opened ConnectionSpec
  import opened ConnectionProofs
  import opened ConnectionBooks

  class TcpConnection {
    const channel: Channel
    const inputBuffer: Buffer
    const outputBuffer: Buffer
    var state: ConnectState
    var highWaterMark: nat
    var highWaterSet: bool
    var writeCompleteSet: bool

    /** What the loop holds for this connection: queued sends and handlers of the last poll. */
    var queued: seq<seq<byte>>
    var todo: seq<Handler>

    /** History only: the fields of Conn that no code reads. */
    ghost var past: Conn

    ghost predicate Valid()
      reads this, channel, channel.poller, inputBuffer, outputBuffer
    {
      && inputBuffer != outputBuffer
      && inputBuffer.buffer != outputBuffer.buffer
      && inputBuffer.Valid() && outputBuffer.Valid()
      && Agrees(channel.Model())
    }

    ghost function Footprint(): set<object>
      reads this, inputBuffer, outputBuffer
    {
      {this, channel, channel.poller, inputBuffer, outputBuffer, inputBuffer.buffer, outputBuffer.buffer}
    }

    /** Only the arrays inside the buffers are ever replaced, and then by new ones. */
    twostate predicate ArraysKeptOrFresh()
      reads inputBuffer, outputBuffer
    {
      && (inputBuffer.buffer == old(inputBuffer.buffer) || fresh(inputBuffer.buffer))
      && (outputBuffer.buffer == old(outputBuffer.buffer) || fresh(outputBuffer.buffer))
    }

    ghost function Model(): Conn
      requires inputBuffer.Valid() && outputBuffer.Valid()
      reads this, channel, channel.poller, inputBuffer, outputBuffer, inputBuffer.buffer, outputBuffer.buffer
    {
      past.(state := state, reg := channel.Model(), input := inputBuffer.View(), output := outputBuffer.View(),
            mark := highWaterMark, highWaterSet := highWaterSet, writeCompleteSet := writeCompleteSet,
            queued := queued, todo := todo)
    }

    constructor (poller: Epoll, fd: Fd, mark: nat, highWaterSet: bool, writeCompleteSet: bool)
      requires fd !in poller.table
      ensures Valid() && channel.poller == poller && fresh(Footprint() - {poller})
      ensures Model() == Init(mark, highWaterSet, writeCompleteSet)
      ensures Inv(Model())
      ensures inputBuffer.Model() == BufferSpec.Shape([], 8, 1024) && outputBuffer.Model() == BufferSpec.Shape([], 8, 1024)
    {
      channel := new Channel(poller, fd);
      inputBuffer := new Buffer();
      outputBuffer := new Buffer();
      state := Connecting;
      highWaterMark := mark;
      this.highWaterSet, this.writeCompleteSet := highWaterSet, writeCompleteSet;
      queued, todo := [], [];
      past := Init(mark, highWaterSet, writeCompleteSet);
    }

    method ConnectEstablished()
      requires Valid() && state == Connecting && Inv(Model())
      modifies Footprint()
      ensures Valid() && ArraysKeptOrFresh()
      ensures Establish(old(Model())) == Ok(Model())
    {
      EstablishGood(Model());
      state := Connected;
      past := past.(established := true);
      channel.Set(EnableRead);
    }

    method Send(data: seq<byte>, w: WriteResult)
      requires Valid() && Inv(Model()) && WriteAnswer(Model(), |data|, w)
      modifies Footprint()
      ensures Valid() && ArraysKeptOrFresh()
      ensures ConnectionSpec.Send(old(Model()), data, w) == Ok(Model())
    {
      if state != Connected {
        return;
      }
      SendInLoop(data, w);
    }

    /** What the kernel does not take of the message, and no more, joins the backlog. */
    method SendInLoop(data: seq<byte>, w: WriteResult)
      requires Valid() && state != Connecting && (w.Wrote? ==> w.n <= |data|)
      requires state != Disconnected ==> (channel.IsWriting() <==> outputBuffer.View() != [])
      modifies Footprint()
      ensures Valid() && ArraysKeptOrFresh()
      ensures ConnectionSpec.SendInLoop(old(Model()), data, w) == Ok(Model())
      ensures outputBuffer.View() == if old(state) == Disconnected then old(outputBuffer.View())
                                     else old(outputBuffer.View()) + LeftOf(old(Model()), data, w)
    {
      ghost var c := Model();
      WriteOrKeep(data, w);
      if c.state != Disconnected {
        SendLeaves(c, data, w);
      }
    }

    method WriteOrKeep(data: seq<byte>, w: WriteResult)
      requires Valid() && state != Connecting && (w.Wrote? ==> w.n <= |data|)
      requires state != Disconnected ==> (channel.IsWriting() <==> outputBuffer.View() != [])
      modifies Footprint()
      ensures Valid() && ArraysKeptOrFresh()
      ensures ConnectionSpec.SendInLoop(old(Model()), data, w) == Ok(Model())
    {
      if state == Disconnected {
        return;
      }
      var n, faultError := TakeAndWrite(data, w);
      if !faultError && |data| - n > 0 {
        KeepRest(data[n..]);
      }
    }

    /** What the direct write leaves of a send: closed, nothing written, or the first n bytes on the wire. */
    ghost predicate AfterWrite(c: Conn, data: seq<byte>, w: WriteResult, n: nat, faultError: bool, after: Conn)
    {
      && n == (if w.Wrote? then w.n else 0) && n <= |data|
      && faultError == (w.WriteFailed? && BrokenPipe(w.errno))
      && if faultError then ConnectionSpec.HandleClose(CallWrite(c)) == Ok(after)
         else if w.WriteFailed? then after == CallWrite(c)
         else
           var sent := CallWrite(c).(wire := c.wire + data[..n]);
           after == if n == |data| then NotifyWritten(sent) else sent
    }

    /** The part of sendInLoop up to the buffering of what is left. */
    method TakeAndWrite(data: seq<byte>, w: WriteResult) returns (n: nat, faultError: bool)
      requires Valid() && (state == Connected || state == Disconnecting) && (w.Wrote? ==> w.n <= |data|)
      requires channel.IsWriting() <==> outputBuffer.View() != []
      modifies this`state, this`past, channel, channel.poller
      ensures Valid()
      ensures var c := old(Model());
              var taken := c.(accepted := c.accepted + data, handed := c.handed + [data]);
              if Writing(c) then n == 0 && !faultError && Model() == taken
              else AfterWrite(taken, data, w, n, faultError, Model())
    {
      past := past.(accepted := past.accepted + data, handed := past.handed + [data]);
      n, faultError := 0, false;
      if !channel.IsWriting() {
        assert outputBuffer.ReadableBytes() == 0;
        n, faultError := WriteDirectly(data, w);
      }
    }

    /** The part of sendInLoop that tries the socket before buffering. */
    method WriteDirectly(data: seq<byte>, w: WriteResult) returns (n: nat, faultError: bool)
      requires Valid() && (state == Connected || state == Disconnecting) && (w.Wrote? ==> w.n <= |data|)
      modifies this`state, this`past, channel, channel.poller
      ensures Valid() && AfterWrite(old(Model()), data, w, n, faultError, Model())
    {
      n, faultError := 0, false;
      match w {
        case WriteFailed(errno) =>
          past := CallWrite(past);
          if errno != EAGAIN {
            if errno == EPIPE || errno == ECONNRESET {
              faultError := true;
              HandleClose();
            }
          }
        case Wrote(count) =>
          n := count;
          RecordWrite(data[..n]);
          if |data| - n == 0 {
            QueueWriteComplete();
          }
      }
    }

    /** ::write took these bytes. */
    ghost method RecordWrite(bytes: seq<byte>)
      requires Valid()
      modifies this`past
      ensures Valid()
      ensures Model() == var c := CallWrite(old(Model())); c.(wire := c.wire + bytes)
    {
      past := CallWrite(past).(wire := past.wire + bytes);
    }

    /** queueInLoop of the write-complete callback, when one is set. */
    method QueueWriteComplete()
      requires Valid()
      modifies this`past
      ensures Valid() && Model() == NotifyWritten(old(Model()))
    {
      if writeCompleteSet {
        past := past.(writeCompletes := past.writeCompletes + 1);
      }
    }

    /** The part of sendInLoop after the direct write. */
    method KeepRest(rest: seq<byte>)
      requires Valid() && rest != []
      modifies Footprint()
      ensures Valid() && ArraysKeptOrFresh()
      ensures ConnectionSpec.KeepRest(old(Model()), rest) == Ok(Model())
    {
      ghost var c := Model();
      AppendOutput(rest);
      ChangeExact(channel.Model(), EnableWrite);
      InterestExact(Model(), EnableWrite);
      KeepRestExact(c, rest);
      channel.Set(EnableWrite);
    }

    method AppendOutput(rest: seq<byte>)
      requires Valid()
      modifies this`past, outputBuffer, outputBuffer.buffer
      ensures Valid() && (outputBuffer.buffer == old(outputBuffer.buffer) || fresh(outputBuffer.buffer))
      ensures Model() == var c := old(Model());
                         c.(output := c.output + rest, highWaters := c.highWaters + Alarm(c, rest))
    {
      if highWaterSet {
        var oldLen := outputBuffer.ReadableBytes();
        var newLen := oldLen + |rest|;
        if oldLen < highWaterMark && newLen >= highWaterMark {
          past := past.(highWaters := past.highWaters + [newLen]);
        }
      }
      outputBuffer.Append(rest);
    }

    method HandleRead(r: ReadResult)
      requires Valid() && (state == Disconnected || state == Connected || state == Disconnecting)
      requires r.Arrived? ==> |r.data| <= BufferSpec.ReadLimit(inputBuffer.Model())
      modifies Footprint()
      ensures Valid() && ArraysKeptOrFresh()
      ensures ConnectionSpec.HandleRead(old(Model()), r) == Ok(Model())
      ensures inputBuffer.View() == if old(state) != Disconnected && r.Arrived? then old(inputBuffer.View()) + r.data
                                    else old(inputBuffer.View())
    {
      ghost var c := Model();
      ReadOnce(r);
      if c.state != Disconnected {
        ReadBooks(c, r);
      }
    }

    method ReadOnce(r: ReadResult)
      requires Valid() && (state == Disconnected || state == Connected || state == Disconnecting)
      requires r.Arrived? ==> |r.data| <= BufferSpec.ReadLimit(inputBuffer.Model())
      modifies Footprint()
      ensures Valid() && ArraysKeptOrFresh()
      ensures ConnectionSpec.HandleRead(old(Model()), r) == Ok(Model())
    {
      if state == Disconnected {
        return;
      }
      var n := ReadInto(r);
      if n == -1 {
        HandleClose();
      } else if n == 0 {
        HandleClose();
      }
    }

    /** readFd into the input buffer: what arrived, nothing on failure or at the end of file. */
    method ReadInto(r: ReadResult) returns (n: int)
      requires Valid()
      requires r.Arrived? ==> |r.data| <= BufferSpec.ReadLimit(inputBuffer.Model())
      modifies this`past, inputBuffer, inputBuffer.buffer
      ensures Valid() && (inputBuffer.buffer == old(inputBuffer.buffer) || fresh(inputBuffer.buffer))
      ensures n == if r.ReadFailed? then -1 else |r.data|
      ensures Model() == var c := CallRead(old(Model()));
                         if n <= 0 then c else c.(input := c.input + r.data, received := c.received + r.data)
    {
      n := inputBuffer.ReadFd(if r.ReadFailed? then None else Some(r.data));
      RecordRead(if n <= 0 then [] else r.data);
    }

    /** ::readv delivered these bytes. */
    ghost method RecordRead(bytes: seq<byte>)
      requires Valid()
      modifies this`past
      ensures Valid()
      ensures Model() == CallRead(old(Model())).(received := old(Model()).received + bytes)
    {
      past := CallRead(past).(received := past.received + bytes);
    }

    /** The bytes the kernel took, and no more, leave the backlog. */
    method HandleWrite(w: WriteResult)
      requires Valid() && (state == Disconnected || (channel.IsWriting() && outputBuffer.View() != []))
      requires w.Wrote? ==> w.n <= |outputBuffer.View()|
      requires state == Disconnected || state == Connected || state == Disconnecting
      requires state != Disconnected ==> channel.events.pollPri
      modifies Footprint()
      ensures Valid() && ArraysKeptOrFresh()
      ensures ConnectionSpec.HandleWrite(old(Model()), w) == Ok(Model())
      ensures outputBuffer.View() == if old(state) != Disconnected && w.Wrote? then old(outputBuffer.View())[w.n..]
                                     else old(outputBuffer.View())
    {
      ghost var c := Model();
      WriteBacklog(w);
      if c.state != Disconnected {
        WriteBooks(c, w);
      }
    }

    method WriteBacklog(w: WriteResult)
      requires Valid() && (state == Disconnected || (channel.IsWriting() && outputBuffer.View() != []))
      requires w.Wrote? ==> w.n <= |outputBuffer.View()|
      requires state == Disconnected || state == Connected || state == Disconnecting
      requires state != Disconnected ==> channel.events.pollPri
      modifies Footprint()
      ensures Valid() && ArraysKeptOrFresh()
      ensures ConnectionSpec.HandleWrite(old(Model()), w) == Ok(Model())
    {
      if state == Disconnected {
        return;
      }
      assert outputBuffer.ReadableBytes() > 0;
      assert channel.IsWriting();
      match w {
        case WriteFailed(errno) => WriteRefused(errno);
        case Wrote(n) =>
          Written(n);
          if outputBuffer.ReadableBytes() == 0 {
            Drained();
          }
      }
    }

    /** The part of handleWrite that runs when ::write fails. */
    method WriteRefused(errno: Errno)
      requires Valid() && (state == Connected || state == Disconnecting)
      modifies this`state, this`past, channel, channel.poller
      ensures Valid()
      ensures var c := CallWrite(old(Model()));
              (if BrokenPipe(errno) then ConnectionSpec.HandleClose(c) else Ok(c)) == Ok(Model())
    {
      past := CallWrite(past);
      if errno != EAGAIN && (errno == EPIPE || errno == ECONNRESET) {
        HandleClose();
      }
    }

    /** The kernel took the first n bytes of the backlog. */
    method Written(n: nat)
      requires Valid() && n <= |outputBuffer.View()|
      modifies this`past, outputBuffer
      ensures Valid() && outputBuffer.buffer == old(outputBuffer.buffer)
      ensures Model() == var c := CallWrite(old(Model()));
                         c.(wire := c.wire + c.output[..n], output := c.output[n..])
    {
      RecordWrite(outputBuffer.View()[..n]);
      outputBuffer.Retrieve(n);
    }

    /** The part of handleWrite that runs when the backlog is gone. */
    method Drained()
      requires Valid() && channel.events.pollPri && state != Disconnected
      modifies this`past, channel, channel.poller
      ensures Valid()
      ensures var idle := ChangeInterest(old(Model()), DisableWrite);
              idle.Ok? && Model() == NotifyWritten(
                if state == Disconnecting then ConnectionSpec.ShutdownInLoop(idle.conn) else idle.conn)
    {
      ChangeExact(channel.Model(), DisableWrite);
      channel.Set(DisableWrite);
      if state == Disconnecting {
        ShutdownInLoop();
      }
      QueueWriteComplete();
    }

    method HandleClose()
      requires Valid() && (state == Connected || state == Disconnecting)
      modifies this`state, this`past, channel, channel.poller
      ensures Valid() && ConnectionSpec.HandleClose(old(Model())) == Ok(Model())
    {
      RemoveExact(channel.Model());
      state := Disconnected;
      channel.poller.RemoveChannel(channel);
      past := past.(closes := past.closes + 1);
    }

    method Shutdown()
      requires Valid() && state != Disconnected
      modifies this`state, this`past
      ensures Valid() && ConnectionSpec.Shutdown(old(Model())) == Ok(Model())
    {
      var was := state;
      state := Disconnecting;
      if was == Connected {
        ShutdownInLoop();
      }
    }

    method ShutdownInLoop()
      requires Valid()
      modifies this`past
      ensures Valid() && Model() == ConnectionSpec.ShutdownInLoop(old(Model()))
    {
      if state != Disconnected && !channel.IsWriting() {
        past := past.(shutWr := past.shutWr + 1);
      }
    }

    method ForceClose()
      requires Valid()
      modifies this`state, this`past, channel, channel.poller
      ensures Valid() && ConnectionSpec.ForceClose(old(Model())) == Ok(Model())
    {
      if state != Disconnected {
        state := Disconnecting;
        HandleClose();
      }
    }

    method StopRead()
      requires Valid() && Model().established && state != Disconnected && Inv(Model())
      modifies channel, channel.poller
      ensures Valid() && ConnectionSpec.StopRead(old(Model())) == Ok(Model())
    {
      if channel.IsReading() {
        ChangeExact(channel.Model(), DisableRead);
        channel.Set(DisableRead);
      }
    }

    method StartRead()
      requires Valid() && Model().established && state != Disconnected && Inv(Model())
      modifies channel, channel.poller
      ensures Valid() && ConnectionSpec.StartRead(old(Model())) == Ok(Model())
    {
      if !channel.IsReading() {
        ChangeExact(channel.Model(), EnableRead);
        channel.Set(EnableRead);
      }
    }

    /** The application takes n bytes out of the input buffer. */
    method TakeInput(n: nat) returns (bytes: seq<byte>)
      requires Valid() && n <= |inputBuffer.View()|
      modifies this`past, inputBuffer
      ensures Valid() && inputBuffer.buffer == old(inputBuffer.buffer)
      ensures bytes == old(Model()).input[..n]
      ensures Model() == old(Model()).(input := old(Model()).input[n..], consumed := old(Model()).consumed + bytes)
    {
      bytes := inputBuffer.RetrieveAsString(n);
      past := past.(consumed := past.consumed + bytes);
    }

    /** One handler of handleEventWithGuard. */
    method DispatchNext(r: ReadResult, w: WriteResult)
      requires Valid() && Inv(Model()) && Possible(Model(), Dispatch(r, w)) && !Misuse(Model(), Dispatch(r, w))
      requires r.Arrived? ==> |r.data| <= BufferSpec.ReadLimit(inputBuffer.Model())
      modifies Footprint()
      ensures Valid() && ArraysKeptOrFresh()
      ensures Step(old(Model()), Dispatch(r, w)) == Ok(Model())
    {
      var handler := todo[0];
      assert handler == OnWrite ==> OnWrite in todo;
      todo := todo[1..];
      CallHandler(handler, r, w);
    }

    /** The callback a handler stands for. */
    method CallHandler(handler: Handler, r: ReadResult, w: WriteResult)
      requires Valid() && (state == Disconnected || state == Connected || state == Disconnecting)
      requires handler == OnClose || handler == OnError ==> state != Disconnected
      requires handler == OnRead && r.Arrived? ==> |r.data| <= BufferSpec.ReadLimit(inputBuffer.Model())
      requires handler == OnWrite && state != Disconnected ==>
                 channel.IsWriting() && outputBuffer.View() != [] && channel.events.pollPri
      requires handler == OnWrite && w.Wrote? ==> w.n <= |outputBuffer.View()|
      modifies Footprint()
      ensures Valid() && ArraysKeptOrFresh()
      ensures RunHandler(old(Model()), handler, r, w) == Ok(Model())
    {
      match handler {
        case OnClose => HandleClose();
        case OnError => HandleClose();
        case OnRead => HandleRead(r);
        case OnWrite => HandleWrite(w);
      }
    }

    method RunQueued(w: WriteResult)
      requires Valid() && Inv(Model()) && Possible(Model(), RunQueuedSend(w))
      modifies Footprint()
      ensures Valid() && ArraysKeptOrFresh()
      ensures Step(old(Model()), RunQueuedSend(w)) == Ok(Model())
    {
      PoppedInv(Model(), Model().(queued := queued[1..]));
      var data := queued[0];
      queued := queued[1..];
      SendInLoop(data, w);
    }

    /** Any event of the machine, carried out on the real parts, is one step of the machine. */
    method Perform(e: Event)
      requires Valid() && Inv(Model()) && Possible(Model(), e) && !Misuse(Model(), e)
      requires e.Dispatch? && e.r.Arrived? ==> |e.r.data| <= BufferSpec.ReadLimit(inputBuffer.Model())
      modifies Footprint()
      ensures Valid() && ArraysKeptOrFresh()
      ensures Step(old(Model()), e) == Ok(Model())
    {
      match e {
        case DoEstablish => ConnectEstablished();
        case DoSend(data, w) => Send(data, w);
        case QueueSend(data) => queued := queued + [data];
        case RunQueuedSend(w) => RunQueued(w);
        case DoShutdown => Shutdown();
        case DoForceClose => ForceClose();
        case DoStopRead => StopRead();
        case DoStartRead => StartRead();
        case Consume(n) => var bytes := TakeInput(n);
        case Poll(revents) => todo := Handlers(revents);
        case Dispatch(r, w) => DispatchNext(r, w);
      }
    }

    /** Hence the invariant, and with it every theorem about runs, is kept. */
    method Handle(e: Event)
      requires Valid() && Inv(Model()) && Possible(Model(), e) && !Misuse(Model(), e)
      requires e.Dispatch? && e.r.Arrived? ==> |e.r.data| <= BufferSpec.ReadLimit(inputBuffer.Model())
      modifies Footprint()
      ensures Valid() && ArraysKeptOrFresh()
      ensures Good(old(Model()), e, Ok(Model()))
    {
      StepGood(Model(), e);
      Perform(e);
    }
  }
}
