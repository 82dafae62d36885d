/** Channel and Epoll: interest masks kept in step with the kernel's interest list. */
module Polling {
  import opened Bytes
  import opened PollSpec

  class Epoll {
    /** The kernel's interest list of this epoll instance. */
    var table: map<Fd, EventMask>

    constructor ()
      ensures table == map[]
    {
      table := map[];
    }

    function Entry(fd: Fd): Option<EventMask>
      reads this
    {
      if fd in table then Some(table[fd]) else None
    }

    /** updateChannel(channel): the assert is the precondition, errors of epoll_ctl never come up. */
    method UpdateChannel(channel: Channel)
      requires channel.poller == this && Update(channel.Model()).RegOk?
      modifies this, channel`pooling
      ensures Update(old(channel.Model())) == RegOk(channel.Model())
      ensures forall fd :: fd != channel.fd ==> Entry(fd) == old(Entry(fd))
    {
      var op: CtlOp;
      if !channel.pooling {
        assert channel.events != NO_EVENTS;
        op := CtlAdd;
        channel.pooling := true;
      } else if channel.events != NO_EVENTS {
        op := CtlMod;
      } else {
        op := CtlDel;
        channel.pooling := false;
      }
      var fatal := Ctl(op, channel);
      assert !fatal;
    }

    method RemoveChannel(channel: Channel)
      requires channel.poller == this && Remove(channel.Model()).RegOk?
      modifies this, channel`pooling
      ensures Remove(old(channel.Model())) == RegOk(channel.Model())
      ensures forall fd :: fd != channel.fd ==> Entry(fd) == old(Entry(fd))
    {
      if channel.pooling {
        var fatal := Ctl(CtlDel, channel);
        assert !fatal;
        channel.pooling := false;
      }
    }

    /**
     updateChannel(op, channel): ENOENT is forgiven for MOD and DEL; any other error of epoll_ctl is
     fatal, and then nothing has changed.
     */
    method Ctl(op: CtlOp, channel: Channel) returns (fatal: bool)
      requires channel.poller == this
      modifies this
      ensures fatal <==> Control(old(channel.Model()), op) == Fatal
      ensures fatal <==> op == CtlAdd && channel.fd in old(table)
      ensures !fatal ==> Entry(channel.fd) == if op == CtlDel || (op == CtlMod && channel.fd !in old(table)) then None
                                              else Some(channel.events)
      ensures if fatal then channel.Model() == old(channel.Model())
              else Control(old(channel.Model()), op) == RegOk(channel.Model())
      ensures forall fd :: fd != channel.fd ==> Entry(fd) == old(Entry(fd))
    {
      match EpollCtl(Entry(channel.fd), op, channel.events) {
        case CtlOk(Some(mask)) => table := table[channel.fd := mask];
        case CtlOk(None) => table := table - {channel.fd};
        case CtlFailed(errno) =>
          if errno == ENOENT && (op == CtlMod || op == CtlDel) {
            return false;
          }
          return true;
      }
      return false;
    }
  }

  class Channel {
    const fd: Fd
    const poller: Epoll
    var pooling: bool
    var events: EventMask

    constructor (poller: Epoll, fd: Fd)
      ensures this.poller == poller && this.fd == fd
      ensures !pooling && events == NO_EVENTS
    {
      this.poller, this.fd := poller, fd;
      pooling, events := false, NO_EVENTS;
    }

    ghost function Model(): Reg
      reads this, poller
    {
      Reg(pooling, events, poller.Entry(fd))
    }

    predicate IsReading()
      reads this
    {
      events.pollIn
    }

    predicate IsWriting()
      reads this
    {
      events.pollOut
    }

    /** enableRead, enableWrite, disableRead, disableWrite and disableAll: adjust the mask, then update(). */
    method Set(interest: Interest)
      requires Change(Model(), interest).RegOk?
      modifies this, poller
      ensures Change(old(Model()), interest) == RegOk(Model()) && events == Adjust(old(events), interest)
      ensures forall other :: other != fd ==> poller.Entry(other) == old(poller.Entry(other))
    {
      events := Adjust(events, interest);
      poller.UpdateChannel(this);
    }
  }

  /** Channels on other descriptors keep their registration whatever this one does. */
  method SetOne(channel: Channel, interest: Interest, other: Channel)
    requires channel != other && channel.fd != other.fd && channel.poller == other.poller
    requires Agrees(channel.Model()) && Agrees(other.Model())
    requires channel.pooling || Adjust(channel.events, interest) != NO_EVENTS
    modifies channel, channel.poller
    ensures Agrees(channel.Model()) && Agrees(other.Model())
    ensures other.Model() == old(other.Model())
    ensures channel.events == Adjust(old(channel.events), interest)
    ensures channel.pooling <==> channel.events != NO_EVENTS
  {
    ChangeExact(channel.Model(), interest);
    channel.Set(interest);
  }
}
