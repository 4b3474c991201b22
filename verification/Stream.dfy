/** One stream: a bounded drop-oldest queue per subscriber (src/stream.cpp). */
module Streams {
  import opened Wrappers
  import opened Sequences
  import opened Utilities

  /** The abstract value of a stream. */
  datatype StreamState = StreamState(mostRecent: Packet, queues: map<Context, seq<Packet>>)

  /** A full queue loses its front before the packet is pushed. */
  function Push(queue: seq<Packet>, p: Packet, limit: nat): seq<Packet>
    requires 0 < limit
  {
    (if |queue| >= limit then queue[1..] else queue) + [p]
  }

  /** In a bounded queue that amounts to keeping the newest `limit` packets. */
  lemma PushKeepsNewest(queue: seq<Packet>, p: Packet, limit: nat)
    requires 0 < limit && |queue| <= limit
    ensures Push(queue, p, limit) == LastN(queue + [p], limit)
  {
  }

  /** The packet becomes the latest and goes onto every queue. The `else` is never taken; it
      makes the value of the comprehension total. */
  function Publish(st: StreamState, p: Packet, limit: nat): StreamState
    requires 0 < limit
  {
    StreamState(p, map c | c in st.queues :: if c in st.queues then Push(st.queues[c], p, limit) else [])
  }

  /** A subscriber joining late starts with nothing; one who waited gets the latest packet. */
  function Join(st: StreamState, c: Context, enqueueLatest: bool): StreamState
  {
    if c in st.queues then st
    else st.(queues := st.queues[c := if enqueueLatest then [st.mostRecent] else []])
  }

  /** All of `cs` join, each newcomer getting the latest packet. */
  function JoinAll(st: StreamState, cs: set<Context>): StreamState
  {
    st.(queues := map c | c in st.queues.Keys + cs ::
        if c in st.queues then st.queues[c] else if c in cs then [st.mostRecent] else [])
  }

  lemma JoinAllMore(st: StreamState, cs: set<Context>, ds: set<Context>)
    ensures JoinAll(JoinAll(st, cs), ds) == JoinAll(st, cs + ds)
  {
    var u, v := JoinAll(JoinAll(st, cs), ds), JoinAll(st, cs + ds);
    assert u.queues.Keys == v.queues.Keys;
  }

  lemma JoinAllFew(st: StreamState, c: Context)
    ensures JoinAll(st, {}) == st
    ensures JoinAll(st, {c}) == Join(st, c, true)
  {
    assert JoinAll(st, {}).queues.Keys == st.queues.Keys;
    assert JoinAll(st, {c}).queues.Keys == Join(st, c, true).queues.Keys;
  }

  function Leave(st: StreamState, c: Context): StreamState
  {
    st.(queues := st.queues - {c})
  }

  function QueueOf(st: StreamState, c: Context): seq<Packet>
  {
    if c in st.queues then st.queues[c] else []
  }

  /** The oldest `k` packets of one subscriber are gone. */
  function Advance(st: StreamState, c: Context, k: nat): StreamState
    requires k <= |QueueOf(st, c)|
  {
    if c in st.queues then st.(queues := st.queues[c := st.queues[c][k..]]) else st
  }

  datatype UnsubscribeResponse = Unsubscribed | NeverSubscribed

  class Stream {
    const identifier: Name
    const maximumQueueSize: nat
    var subscribers: map<Context, seq<Packet>>
    var mostRecentPacket: Packet
    var haveMostRecentPacket: bool

    ghost predicate Valid()
      reads this
    {
      0 < maximumQueueSize && haveMostRecentPacket
    }

    ghost function View(): StreamState
      reads this
    {
      StreamState(mostRecentPacket, subscribers)
    }

    constructor (packet: Packet, maximumQueueSize: nat)
      requires 0 < maximumQueueSize
      ensures Valid()
      ensures identifier == PacketName(packet) && this.maximumQueueSize == maximumQueueSize
      ensures View() == StreamState(packet, map[])
    {
      identifier := PacketName(packet);
      this.maximumQueueSize := maximumQueueSize;
      subscribers := map[];
      mostRecentPacket := packet;
      haveMostRecentPacket := true;
    }

    method SetNextPacket(packet: Packet) returns (r: Outcome)
      requires Valid()
      modifies this
      ensures Valid()
      ensures r.Pass? <==> PacketName(packet) == identifier
      ensures View() == if r.Pass? then Publish(old(View()), packet, maximumQueueSize) else old(View())
    {
      if PacketName(packet) != identifier {
        return Fail("does not match stream identifier");
      }
      mostRecentPacket := packet;
      haveMostRecentPacket := true;
      PushToSubscribers();
      return Pass;
    }

    /** Copies the latest packet onto every queue, popping the front of those that are full. */
    method PushToSubscribers()
      requires 0 < maximumQueueSize
      modifies this`subscribers
      ensures View() == Publish(old(View()), mostRecentPacket, maximumQueueSize)
    {
      var todo := subscribers.Keys;
      while todo != {}
        invariant todo <= subscribers.Keys == old(subscribers).Keys
        invariant forall c <- todo :: subscribers[c] == old(subscribers)[c]
        invariant forall c <- subscribers.Keys - todo ::
            subscribers[c] == Push(old(subscribers)[c], mostRecentPacket, maximumQueueSize)
      {
        var c :| c in todo;
        var queue := subscribers[c];
        if |queue| >= maximumQueueSize {
          queue := queue[1..];
        }
        subscribers := subscribers[c := queue + [mostRecentPacket]];
        todo := todo - {c};
      }
    }

    method GetNextPacket(c: Context) returns (r: Option<Packet>)
      requires Valid()
      modifies this
      ensures Valid()
      ensures var queue := QueueOf(old(View()), c);
          if queue == [] then r == None && View() == old(View())
          else r == Some(queue[0]) && View() == Advance(old(View()), c, 1)
    {
      r := None;
      if c in subscribers {
        if subscribers[c] != [] {
          r := Some(subscribers[c][0]);
          subscribers := subscribers[c := subscribers[c][1..]];
        }
      }
    }

    method Subscribe(c: Context, enqueueLatestPacket: bool) returns (added: bool)
      requires Valid()
      modifies this
      ensures Valid()
      ensures added <==> c !in old(View()).queues
      ensures View() == Join(old(View()), c, enqueueLatestPacket)
    {
      added := false;
      if c !in subscribers {
        var queue: seq<Packet> := [];
        if enqueueLatestPacket && haveMostRecentPacket {
          queue := [mostRecentPacket];
        }
        subscribers := subscribers[c := queue];
        added := true;
      }
    }

    method Unsubscribe(c: Context) returns (r: UnsubscribeResponse)
      requires Valid()
      modifies this
      ensures Valid()
      ensures r.Unsubscribed? <==> c in old(View()).queues
      ensures View() == Leave(old(View()), c)
    {
      r := if c in subscribers then Unsubscribed else NeverSubscribed;
      subscribers := subscribers - {c};
    }

    method UnsubscribeAll()
      requires Valid()
      modifies this
      ensures Valid()
      ensures View() == old(View()).(queues := map[])
    {
      subscribers := map[];
    }

    method GetSubscribers() returns (r: set<Context>)
      ensures r == View().queues.Keys
    {
      r := {};
      var todo := subscribers.Keys;
      while todo != {}
        invariant todo <= subscribers.Keys && r == subscribers.Keys - todo
      {
        var c :| c in todo;
        r := r + {c};
        todo := todo - {c};
      }
    }
  }
}
