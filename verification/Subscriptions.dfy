/** The abstract state of the subscription manager and what each of its operations
    does to that state (src/subscriptionManager.cpp). */
module Subscriptions {
  import opened Wrappers
  import opened Sequences
  import opened Utilities
  import opened Streams

  /** The configured queue bound; the options refuse anything below one. */
  type Limit = n: int | 0 < n witness 1

  /** `count` caches the number of subscribers; -1 means it must be recounted. */
  datatype Manager = Manager(
    limit: Limit,
    streams: map<Name, StreamState>,
    active: map<Context, set<Name>>,
    pending: map<Context, set<Name>>,
    toAll: set<Context>,
    count: int)

  function Initial(limit: Limit): Manager
  {
    Manager(limit, map[], map[], map[], {}, -1)
  }

  /** The checks a packet must pass before it is enqueued. */
  predicate Admissible(p: Packet)
  {
    && p.identifier.Some?
    && p.numberOfSamples.Some?
    && !p.dataType.Unknown?
    && p.samplingRate > 0.0
    && p.data.Some?
  }

  function Names(ids: seq<StreamIdentifier>): set<Name>
  {
    set id <- ids :: ToName(id)
  }

  function Lookup(m: map<Context, set<Name>>, c: Context): set<Name>
  {
    if c in m then m[c] else {}
  }

  /** Adds names to a context's entry, without ever creating an empty one. */
  function AddNames(m: map<Context, set<Name>>, c: Context, names: set<Name>): map<Context, set<Name>>
  {
    if names == {} then m else m[c := Lookup(m, c) + names]
  }

  // ----- Operations on states -----

  /** Contexts with a pending request for stream `n`. */
  function Askers(pending: map<Context, set<Name>>, n: Name): set<Context>
  {
    set c | c in pending && n in pending[c]
  }

  /** Contexts waiting for stream `n` to come into existence. */
  function Waiting(s: Manager, n: Name): set<Context>
  {
    s.toAll + Askers(s.pending, n)
  }

  /** Name `n` is no longer pending for the contexts in `cs`. */
  function Strike(pending: map<Context, set<Name>>, cs: set<Context>, n: Name): map<Context, set<Name>>
    requires cs <= pending.Keys
  {
    map c | c in pending :: if c in cs then pending[c] - {n} else pending[c]
  }

  /** Contexts with nothing left to wait for are dropped. */
  function Settle(pending: map<Context, set<Name>>): map<Context, set<Name>>
  {
    map c | c in pending && pending[c] != {} :: pending[c]
  }

  /** Everyone in `cs` is now active on `n`. */
  function Activate(active: map<Context, set<Name>>, cs: set<Context>, n: Name): map<Context, set<Name>>
  {
    map c | c in active.Keys + cs :: if c in cs then Lookup(active, c) + {n} else active[c]
  }

  /** A packet of an unknown stream creates it, and all who waited for it get the packet. */
  function AddStream(s: Manager, p: Packet): Manager
  {
    var n := PacketName(p);
    var waiting := Waiting(s, n);
    s.(streams := s.streams[n := JoinAll(StreamState(p, map[]), waiting)],
       active := Activate(s.active, waiting, n),
       pending := Settle(Strike(s.pending, s.pending.Keys, n)))
  }

  function EnqueuePacket(s: Manager, p: Packet): Manager
  {
    var n := PacketName(p);
    if !Admissible(p) then s
    else if n in s.streams then s.(streams := s.streams[n := Publish(s.streams[n], p, s.limit)])
    else AddStream(s, p)
  }

  /** Streams among `names` on which `c` is not yet a subscriber. */
  function Unjoined(s: Manager, c: Context, names: set<Name>): set<Name>
  {
    set n | n in s.streams && n in names && c !in s.streams[n].queues
  }

  /** `c` joins the named streams that exist; the other names become pending. */
  function JoinNamed(s: Manager, c: Context, names: set<Name>): Manager
  {
    var unjoined := Unjoined(s, c, names);
    s.(streams := map n | n in s.streams :: if n in unjoined then Join(s.streams[n], c, false) else s.streams[n],
       active := AddNames(s.active, c, unjoined),
       pending := AddNames(s.pending, c, names - s.streams.Keys))
  }

  function Subscribe(s: Manager, c: Context, names: set<Name>): Manager
  {
    if names == {} then s else JoinNamed(s, c, names).(count := -1)
  }

  function SubscribeToAll(s: Manager, c: Context): Manager
  {
    if c in s.toAll then s
    else JoinNamed(s, c, s.streams.Keys).(toAll := s.toAll + {c}, count := -1)
  }

  /** The stream exists and `c` is on it. */
  predicate Subscribed(s: Manager, c: Context, n: Name)
  {
    n in s.streams && c in s.streams[n].queues
  }

  /** The stream does not exist and `c` has asked for it. */
  predicate Awaits(s: Manager, c: Context, n: Name)
  {
    n !in s.streams && c in s.pending && n in s.pending[c]
  }

  function Queue(s: Manager, c: Context, n: Name): seq<Packet>
  {
    if n in s.streams then QueueOf(s.streams[n], c) else []
  }

  /** The contexts active on stream `n`. */
  function Pollers(active: map<Context, set<Name>>, n: Name): set<Context>
  {
    set d | d in active && n in active[d]
  }

  /** How many packets of stream `n` one fetch by `c` takes: one per context active on
      the stream, whoever that context is. */
  function Taken(s: Manager, c: Context, n: Name): (k: nat)
    ensures k <= |Queue(s, c, n)|
  {
    var k := |Pollers(s.active, n)|;
    if k < |Queue(s, c, n)| then k else |Queue(s, c, n)|
  }

  /** The packets of stream `n` that one fetch by `c` returns. */
  function Batch(s: Manager, c: Context, n: Name): seq<Packet>
  {
    Queue(s, c, n)[..Taken(s, c, n)]
  }

  /** Every queued packet belongs to the stream whose queue it is on. */
  ghost predicate WellNamed(s: Manager)
  {
    forall c, n, p :: p in Queue(s, c, n) ==> PacketName(p) == n
  }

  /** What a fetch returns as seen on each stream by itself: its batch, in order. */
  ghost predicate IsBatch(s: Manager, c: Context, packets: seq<Packet>)
  {
    forall n :: On(packets, n) == Batch(s, c, n)
  }

  function GetPackets(s: Manager, c: Context): Manager
  {
    s.(streams := map n | n in s.streams :: Advance(s.streams[n], c, Taken(s, c, n)))
  }

  /** `c` leaves the streams in `names`; doing so for any stream also ends its activity. */
  function LeaveNamed(s: Manager, c: Context, names: set<Name>): Manager
    requires names <= s.streams.Keys
  {
    s.(streams := map n | n in s.streams :: if n in names then Leave(s.streams[n], c) else s.streams[n],
       active := if names == {} then s.active else s.active - {c})
  }

  function UnsubscribeFromAll(s: Manager, c: Context): Manager
  {
    LeaveNamed(s.(pending := s.pending - {c}, toAll := s.toAll - {c}), c, s.streams.Keys).(count := -1)
  }

  /** Everyone the manager counts as a subscriber. */
  function Members(s: Manager): set<Context>
  {
    s.active.Keys + s.pending.Keys + s.toAll
  }

  function NumberOfSubscribers(s: Manager): int
  {
    if s.count >= 0 then s.count else |Members(s)|
  }

  function GetNumberOfSubscribers(s: Manager): Manager
  {
    s.(count := NumberOfSubscribers(s))
  }

  /** The named streams lose all their subscribers. */
  function Cleared(streams: map<Name, StreamState>, names: set<Name>): map<Name, StreamState>
    requires names <= streams.Keys
  {
    map n | n in streams :: if n in names then streams[n].(queues := map[]) else streams[n]
  }

  /** Empties the pending requests and every stream, but keeps the active map. */
  function UnsubscribeAll(s: Manager): Manager
  {
    GetNumberOfSubscribers(
      s.(streams := Cleared(s.streams, s.streams.Keys),
         pending := map[], toAll := {}, count := -1))
  }

  // ----- Runs -----

  datatype Op =
    | DoEnqueue(packet: Packet)
    | DoSubscribe(context: Context, names: set<Name>)
    | DoSubscribeToAll(context: Context)
    | DoGetPackets(context: Context)
    | DoUnsubscribeFromAll(context: Context)
    | DoUnsubscribeAll
    | DoCount

  function Step(s: Manager, op: Op): Manager
  {
    match op
    case DoEnqueue(p) => EnqueuePacket(s, p)
    case DoSubscribe(c, names) => Subscribe(s, c, names)
    case DoSubscribeToAll(c) => SubscribeToAll(s, c)
    case DoGetPackets(c) => GetPackets(s, c)
    case DoUnsubscribeFromAll(c) => UnsubscribeFromAll(s, c)
    case DoUnsubscribeAll => UnsubscribeAll(s)
    case DoCount => GetNumberOfSubscribers(s)
  }

  /** The state after a whole log of operations. */
  function Run(limit: Limit, log: seq<Op>): Manager
  {
    if log == [] then Initial(limit) else Step(Run(limit, Prior(log)), Last(log))
  }
}
