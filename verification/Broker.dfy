/** internal/broker/broker.go: the broker and its channels as objects, one operation at a time. How
    operations of several goroutines interleave is the subject of BrokerProtocol. */
module Broker {
  import opened BrokerProtocol

  /** What a non-blocking send leaves in a channel's buffer. */
  function Offered(buffer: seq<Event>, e: Event): seq<Event>
  {
    if |buffer| < CHANNEL_CAP then buffer + [e] else buffer
  }

  class Channel {
    var buffer: seq<Event>
    var open: bool

    constructor ()
      ensures buffer == [] && open
    {
      buffer, open := [], true;
    }

    /** Closing a closed channel panics. */
    method Shut()
      requires open
      modifies this
      ensures !open && buffer == old(buffer)
    {
      open := false;
    }

    /** select { case ch <- e: default: }; sending on a closed channel panics. */
    method TrySend(e: Event)
      requires open
      modifies this
      ensures open && buffer == Offered(old(buffer), e)
      ensures |old(buffer)| < 32 ==> buffer == old(buffer) + [e]
      ensures |old(buffer)| >= 32 ==> buffer == old(buffer)
    {
      if |buffer| < CHANNEL_CAP {
        buffer := buffer + [e];
      }
    }
  }

  class Broker {
    var clients: set<Channel>
    var closed: bool

    /** Registered channels are open and within capacity; a closed broker has none. */
    ghost predicate Valid()
      reads this, clients
    {
      && (closed ==> clients == {})
      && forall c | c in clients :: c.open && |c.buffer| <= CHANNEL_CAP
    }

    constructor ()
      ensures Valid() && clients == {} && !closed
    {
      clients, closed := {}, false;
    }

    method Subscribe() returns (ch: Channel)
      requires Valid()
      modifies this
      ensures Valid() && fresh(ch) && ch.buffer == [] && closed == old(closed)
      ensures ch.open <==> !closed
      ensures clients == old(clients) + if closed then {} else {ch}
    {
      ch := new Channel();
      if !closed {
        clients := clients + {ch};
      } else {
        ch.Shut();
      }
    }

    method Unsubscribe(ch: Channel)
      requires Valid()
      modifies this, ch
      ensures Valid() && closed == old(closed) && clients == old(clients) - {ch}
      ensures ch.buffer == old(ch.buffer) && ch.open == (old(ch.open) && ch !in old(clients))
    {
      if ch in clients {
        clients := clients - {ch};
        ch.Shut();
      }
    }

    method Publish(e: Event)
      requires Valid()
      modifies clients
      ensures Valid()
      ensures forall c | c in clients :: c.buffer == Offered(old(c.buffer), e)
    {
      if closed {
        return;
      }
      var left := clients;
      while left != {}
        invariant left <= clients && Valid()
        invariant forall c | c in clients :: c.buffer == if c in left then old(c.buffer) else Offered(old(c.buffer), e)
      {
        var ch :| ch in left;
        ch.TrySend(e);
        left := left - {ch};
      }
    }

    method Close()
      requires Valid()
      modifies this, clients
      ensures Valid() && closed && clients == {}
      ensures forall c | c in old(clients) :: !c.open && c.buffer == old(c.buffer)
    {
      if closed {
        return;
      }
      closed := true;
      ghost var all := clients;
      while clients != {}
        invariant clients <= all && all == old(clients) && closed
        invariant forall c | c in all :: c.buffer == old(c.buffer) && (c.open <==> c in clients)
      {
        var ch :| ch in clients;
        clients := clients - {ch};
        ch.Shut();
      }
    }
  }
}
