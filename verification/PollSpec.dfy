/**
 Interest masks, epoll registration and the order in which a channel runs its handlers.
 A Reg is one channel as the library sees it (`pooling`, `events`) next to the kernel's own
 entry for that descriptor.
 */
module PollSpec {
  import opened Bytes

  /** The epoll bits the library uses, one field per bit. */
  datatype EventMask = EventMask(
    pollIn: bool, pollPri: bool, pollOut: bool, pollErr: bool, pollHup: bool, pollRdHup: bool)

  const NO_EVENTS := EventMask(false, false, false, false, false, false)

  datatype CtlOp = CtlAdd | CtlMod | CtlDel
  datatype CtlErrno = EEXIST | ENOENT
  datatype CtlResult = CtlOk(entry: Option<EventMask>) | CtlFailed(errno: CtlErrno)

  /** epoll_ctl on an open descriptor: `entry` is the descriptor's place in the interest list. */
  function EpollCtl(entry: Option<EventMask>, op: CtlOp, mask: EventMask): CtlResult
  {
    match op
    case CtlAdd => if entry.Some? then CtlFailed(EEXIST) else CtlOk(Some(mask))
    case CtlMod => if entry.None? then CtlFailed(ENOENT) else CtlOk(Some(mask))
    case CtlDel => if entry.None? then CtlFailed(ENOENT) else CtlOk(None)
  }

  datatype Reg = Reg(pooling: bool, events: EventMask, kernel: Option<EventMask>)

  const FRESH_REG := Reg(false, NO_EVENTS, None)

  /** `Aborted` is a failed assert; `Fatal` is errif on an error epoll_ctl must not give. */
  datatype RegOutcome = RegOk(reg: Reg) | Aborted | Fatal

  /** Epoll::updateChannel(op, channel): ENOENT is forgiven for MOD and DEL, EEXIST is fatal. */
  function Control(r: Reg, op: CtlOp): RegOutcome
  {
    match EpollCtl(r.kernel, op, r.events)
    case CtlOk(entry) => RegOk(r.(kernel := entry))
    case CtlFailed(errno) => if errno == ENOENT && op != CtlAdd then RegOk(r) else Fatal
  }

  /** Epoll::updateChannel(channel). */
  function Update(r: Reg): RegOutcome
  {
    if !r.pooling then
      if r.events == NO_EVENTS then Aborted else Control(r.(pooling := true), CtlAdd)
    else if r.events != NO_EVENTS then Control(r, CtlMod)
    else Control(r.(pooling := false), CtlDel)
  }

  /** Epoll::removeChannel. */
  function Remove(r: Reg): RegOutcome
  {
    if r.pooling then
      match Control(r, CtlDel)
      case RegOk(d) => RegOk(d.(pooling := false))
      case other => other
    else RegOk(r)
  }

  datatype Interest = EnableRead | EnableWrite | DisableRead | DisableWrite | DisableAll

  /** disableRead clears EPOLLIN only: EPOLLPRI stays set. */
  function Adjust(m: EventMask, i: Interest): EventMask
  {
    match i
    case EnableRead => m.(pollIn := true, pollPri := true)
    case EnableWrite => m.(pollOut := true)
    case DisableRead => m.(pollIn := false)
    case DisableWrite => m.(pollOut := false)
    case DisableAll => NO_EVENTS
  }

  function Change(r: Reg, i: Interest): RegOutcome
  {
    Update(r.(events := Adjust(r.events, i)))
  }

  /** The library's view and the kernel's agree. */
  predicate Agrees(r: Reg)
  {
    && (r.pooling <==> r.kernel.Some?)
    && (r.pooling ==> r.kernel == Some(r.events) && r.events != NO_EVENTS)
  }

  /**
   With agreement epoll_ctl never fails, an interest change aborts exactly when it leaves an
   unregistered channel without interest, and otherwise agreement is kept and the channel is
   registered exactly when its interest is non-empty.
   */
  lemma ChangeExact(r: Reg, i: Interest)
    requires Agrees(r)
    ensures Change(r, i) != Fatal
    ensures Change(r, i) == Aborted <==> !r.pooling && Adjust(r.events, i) == NO_EVENTS
    ensures Change(r, i).RegOk? ==>
              var r' := Change(r, i).reg;
              Agrees(r') && r'.events == Adjust(r.events, i) && (r'.pooling <==> r'.events != NO_EVENTS)
  {
  }

  lemma RemoveExact(r: Reg)
    requires Agrees(r)
    ensures Remove(r) == RegOk(Reg(false, r.events, None))
  {
  }

  type Fd = int
  datatype PollerOp = SetInterest(fd: Fd, interest: Interest) | RemoveChannel(fd: Fd)
  datatype PollerOutcome = PollerOk(channels: map<Fd, Reg>) | PollerAborted | PollerFatal

  function Operate(channels: map<Fd, Reg>, op: PollerOp): PollerOutcome
    requires op.fd in channels
  {
    match (if op.SetInterest? then Change(channels[op.fd], op.interest) else Remove(channels[op.fd]))
    case RegOk(r) => PollerOk(channels[op.fd := r])
    case Aborted => PollerAborted
    case Fatal => PollerFatal
  }

  function OperateAll(channels: map<Fd, Reg>, ops: seq<PollerOp>): PollerOutcome
    requires forall i :: 0 <= i < |ops| ==> ops[i].fd in channels
    decreases |ops|
  {
    if ops == [] then PollerOk(channels)
    else
      match Operate(channels, ops[0])
      case PollerOk(next) => OperateAll(next, ops[1..])
      case other => other
  }

  predicate AllAgree(channels: map<Fd, Reg>)
  {
    forall fd :: fd in channels ==> Agrees(channels[fd])
  }

  /** Any sequence of operations on any descriptors: never fatal, and every channel still agrees. */
  lemma {:induction false} AgreementOverRuns(channels: map<Fd, Reg>, ops: seq<PollerOp>)
    requires AllAgree(channels)
    requires forall i :: 0 <= i < |ops| ==> ops[i].fd in channels
    ensures OperateAll(channels, ops) != PollerFatal
    ensures OperateAll(channels, ops).PollerOk? ==>
              AllAgree(OperateAll(channels, ops).channels)
              && OperateAll(channels, ops).channels.Keys == channels.Keys
    decreases |ops|
  {
    if ops == [] {
    } else {
      var op := ops[0];
      if op.SetInterest? { ChangeExact(channels[op.fd], op.interest); } else { RemoveExact(channels[op.fd]); }
      match Operate(channels, op) {
        case PollerOk(next) =>
          assert next.Keys == channels.Keys;
          AgreementOverRuns(next, ops[1..]);
        case _ =>
      }
    }
  }

  /** Operations on `fd` itself that a live connection issues: no disableAll, no removal. */
  predicate LeavesRegistered(op: PollerOp, fd: Fd)
  {
    op.fd == fd ==> op.SetInterest? && op.interest != DisableAll
  }

  /**
   Because disableRead keeps EPOLLPRI, a channel that once enabled reading stays in the
   kernel's list through any mix of read and write changes, whatever other channels do.
   */
  lemma {:induction false} StaysRegistered(channels: map<Fd, Reg>, fd: Fd, ops: seq<PollerOp>)
    requires AllAgree(channels) && fd in channels
    requires channels[fd].pooling && channels[fd].events.pollPri
    requires forall i :: 0 <= i < |ops| ==> ops[i].fd in channels && LeavesRegistered(ops[i], fd)
    ensures OperateAll(channels, ops).PollerOk? ==>
              && fd in OperateAll(channels, ops).channels
              && var r := OperateAll(channels, ops).channels[fd];
                 r.pooling && r.events.pollPri && r.kernel == Some(r.events)
    decreases |ops|
  {
    if ops == [] {
    } else {
      var op := ops[0];
      assert LeavesRegistered(op, fd);
      if op.SetInterest? { ChangeExact(channels[op.fd], op.interest); } else { RemoveExact(channels[op.fd]); }
      match Operate(channels, op) {
        case PollerOk(next) =>
          assert next.Keys == channels.Keys;
          StaysRegistered(next, fd, ops[1..]);
        case _ =>
      }
    }
  }

  /** What epoll_wait may report for an entry: the requested bits, plus EPOLLERR and EPOLLHUP always. */
  predicate Reportable(revents: EventMask, entry: EventMask)
  {
    && (revents.pollIn ==> entry.pollIn)
    && (revents.pollPri ==> entry.pollPri)
    && (revents.pollOut ==> entry.pollOut)
    && (revents.pollRdHup ==> entry.pollRdHup)
  }

  datatype Handler = OnClose | OnError | OnRead | OnWrite

  /** handleEventWithGuard: the callbacks a reported mask runs, in order. */
  function Handlers(r: EventMask): seq<Handler>
  {
    (if r.pollHup && !r.pollIn then [OnClose] else [])
    + (if r.pollErr then [OnError] else [])
    + (if r.pollIn || r.pollPri || r.pollRdHup then [OnRead] else [])
    + (if r.pollOut then [OnWrite] else [])
  }

  /** The order in which the callbacks stand in the code: close, error, read, write. */
  predicate Precedes(a: Handler, b: Handler)
  {
    match a
    case OnClose => b != OnClose
    case OnError => b == OnRead || b == OnWrite
    case OnRead => b == OnWrite
    case OnWrite => false
  }

  predicate InOrder(hs: seq<Handler>)
  {
    forall i, j :: 0 <= i < j < |hs| ==> Precedes(hs[i], hs[j])
  }

  lemma OrderedSnoc(hs: seq<Handler>, run: bool, h: Handler)
    requires InOrder(hs) && forall x :: x in hs ==> Precedes(x, h)
    ensures InOrder(hs + (if run then [h] else []))
    ensures forall x :: x in hs + (if run then [h] else []) <==> x in hs || (run && x == h)
  {
  }

  /** Each callback is run exactly for its bits, at most once, and in the order of the code. */
  lemma HandlersExact(r: EventMask)
    ensures OnClose in Handlers(r) <==> r.pollHup && !r.pollIn
    ensures OnError in Handlers(r) <==> r.pollErr
    ensures OnRead in Handlers(r) <==> r.pollIn || r.pollPri || r.pollRdHup
    ensures OnWrite in Handlers(r) <==> r.pollOut
    ensures InOrder(Handlers(r))
  {
    var close := if r.pollHup && !r.pollIn then [OnClose] else [];
    var error := close + (if r.pollErr then [OnError] else []);
    var read := error + (if r.pollIn || r.pollPri || r.pollRdHup then [OnRead] else []);
    OrderedSnoc(close, r.pollErr, OnError);
    OrderedSnoc(error, r.pollIn || r.pollPri || r.pollRdHup, OnRead);
    OrderedSnoc(read, r.pollOut, OnWrite);
  }

  /** What each interest change does to each bit: reading is EPOLLIN with EPOLLPRI, writing is EPOLLOUT. */
  lemma InterestBits(m: EventMask, i: Interest)
    ensures Adjust(m, i).pollIn <==> i == EnableRead || (m.pollIn && i != DisableRead && i != DisableAll)
    ensures Adjust(m, i).pollPri <==> i == EnableRead || (m.pollPri && i != DisableAll)
    ensures Adjust(m, i).pollOut <==> i == EnableWrite || (m.pollOut && i != DisableWrite && i != DisableAll)
    ensures i != DisableAll ==>
              Adjust(m, i).pollErr == m.pollErr && Adjust(m, i).pollHup == m.pollHup && Adjust(m, i).pollRdHup == m.pollRdHup
    ensures Adjust(m, DisableAll) == NO_EVENTS
  {
  }
}
