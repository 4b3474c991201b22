/** The bounded import queue between the import callback and the thread that feeds the
    subscription manager (src/main.cpp). */
module ImportQueues {
  import opened Wrappers
  import opened Sequences
  import opened Utilities

  /** The configured capacity. */
  type Capacity = n: int | 0 < n witness 1

  // ----- One thread at a time -----

  class ImportQueue {
    const capacity: Capacity
    var items: seq<Packet>

    constructor (capacity: Capacity)
      ensures this.capacity == capacity && items == []
    {
      this.capacity := capacity;
      items := [];
    }

    /** Makes room, then pushes: the queue keeps the newest packets. */
    method AddPacket(packet: Packet) returns (r: Outcome)
      modifies this`items
      ensures r.Pass? && items == LastN(old(items) + [packet], capacity)
    {
      while |items| >= capacity
        invariant |items| <= |old(items)| && items == old(items)[|old(items)| - |items|..]
        invariant |items| < |old(items)| ==> |items| + 1 >= capacity
      {
        var workSpace := TryPop();
        if workSpace.None? {
          break;
        }
      }
      r := TryPush(packet);
    }

    method TryPop() returns (r: Option<Packet>)
      modifies this`items
      ensures if old(items) == [] then r == None && items == []
              else r == Some(old(items)[0]) && items == old(items)[1..]
    {
      if items == [] {
        return None;
      }
      r := Some(items[0]);
      items := items[1..];
    }

    method TryPush(packet: Packet) returns (r: Outcome)
      modifies this`items
      ensures r.Pass? <==> |old(items)| < capacity
      ensures items == if r.Pass? then old(items) + [packet] else old(items)
    {
      if |items| >= capacity {
        return Fail("Failed to add packet to import queue");
      }
      items := items + [packet];
      return Pass;
    }
  }

  // ----- Both threads at once -----

  /** Where the producer stands in its callback. Reading the size, popping and pushing are
      separate steps between which the consumer may run; `popped` counts the pops so far. */
  datatype Producer =
    | Idle
    | Checking(packet: Packet, popped: nat)
    | Popping(packet: Packet, popped: nat)
    | Pushing(packet: Packet, popped: nat)

  /** The queue, the producer, and the history: `received` are all packets the callback was
      called with, `removed` all that left the queue, flagged by whether the consumer got
      them, `refused` those whose push failed. */
  datatype Import = Import(
    items: seq<Packet>,
    producer: Producer,
    received: seq<Packet>,
    removed: seq<Packet>,
    byConsumer: seq<bool>,
    refused: seq<Packet>)

  const EMPTY := Import([], Idle, [], [], [], [])

  datatype Event =
    | Receive(packet: Packet)
    | Check
    | Pop
    | PushBack
    | Consume

  predicate Enabled(s: Import, e: Event)
  {
    match e
    case Receive(_) => s.producer.Idle?
    case Check => s.producer.Checking?
    case Pop => s.producer.Popping?
    case PushBack => s.producer.Pushing?
    case Consume => true
  }

  /** The front leaves the queue, taken by the consumer or discarded by the producer. */
  function RemoveFront(s: Import, byConsumer: bool): Import
    requires s.items != []
  {
    s.(items := s.items[1..], removed := s.removed + [s.items[0]], byConsumer := s.byConsumer + [byConsumer])
  }

  function Step(capacity: Capacity, s: Import, e: Event): Import
    requires Enabled(s, e)
  {
    match e
    case Receive(p) => s.(producer := Checking(p, 0), received := s.received + [p])
    case Check =>
      var (p, k) := (s.producer.packet, s.producer.popped);
      s.(producer := if |s.items| >= capacity then Popping(p, k) else Pushing(p, k))
    case Pop =>
      var (p, k) := (s.producer.packet, s.producer.popped);
      if s.items == [] then s.(producer := Pushing(p, k))
      else RemoveFront(s, false).(producer := Checking(p, k + 1))
    case PushBack =>
      if |s.items| < capacity then s.(items := s.items + [s.producer.packet], producer := Idle)
      else s.(refused := s.refused + [s.producer.packet], producer := Idle)
    case Consume => if s.items == [] then s else RemoveFront(s, true)
  }

  /** The packet the callback is working on. */
  function InFlight(s: Import): seq<Packet>
  {
    if s.producer.Idle? then [] else [s.producer.packet]
  }

  /** What the consumer has been handed. */
  function Consumed(s: Import): seq<Packet>
    requires |s.removed| == |s.byConsumer|
  {
    Select(s.removed, s.byConsumer)
  }

  /** The queue is bounded, there is room for every push, and nothing but the oldest packets
      has ever left the line of received packets. */
  predicate ImportOk(capacity: Capacity, s: Import)
  {
    && |s.items| <= capacity
    && s.refused == []
    && |s.removed| == |s.byConsumer|
    && s.received == s.removed + s.items + InFlight(s)
    && (s.producer.Pushing? ==> |s.items| < capacity)
    && (s.producer.Checking? ==> s.producer.popped == 0 || (s.producer.popped == 1 && |s.items| < capacity))
    && (s.producer.Popping? ==> s.producer.popped == 0)
    && (s.producer.Pushing? ==> s.producer.popped <= 1)
  }

  /** What the consumer is handed by one step. */
  lemma ConsumedMore(capacity: Capacity, s: Import, e: Event)
    requires ImportOk(capacity, s) && Enabled(s, e)
    ensures var t := Step(capacity, s, e);
      && |t.removed| == |t.byConsumer|
      && Consumed(t) == Consumed(s) + if e.Consume? && s.items != [] then [s.items[0]] else []
  {
    var t := Step(capacity, s, e);
    if t.removed != s.removed {
      assert t.removed[..|s.removed|] == s.removed && t.byConsumer[..|s.removed|] == s.byConsumer;
    }
  }

  lemma StepOk(capacity: Capacity, s: Import, e: Event)
    requires ImportOk(capacity, s) && Enabled(s, e)
    ensures ImportOk(capacity, Step(capacity, s, e))
  {
    var t := Step(capacity, s, e);
    if t.removed != s.removed {
      assert s.removed + s.items == t.removed + t.items;
    }
  }

  /** Runs of both threads, in any interleaving. */
  ghost predicate Legal(capacity: Capacity, events: seq<Event>)
    decreases |events|, 0
  {
    events != [] ==>
      var rest := Prior(events);
      Legal(capacity, rest) && Enabled(Run(capacity, rest), Last(events))
  }

  ghost function Run(capacity: Capacity, events: seq<Event>): (s: Import)
    requires Legal(capacity, events)
    ensures ImportOk(capacity, s)
    decreases |events|, 1
  {
    if events == [] then EMPTY
    else
      var before := Run(capacity, Prior(events));
      StepOk(capacity, before, Last(events));
      Step(capacity, before, Last(events))
  }

  /** Under every interleaving the queue keeps its bound, every push succeeds, making room
      discards at most one packet per call, only ever the oldest of those still there, and
      the consumer sees the packets in the order of arrival. */
  lemma ImportProtocol(capacity: Capacity, events: seq<Event>)
    requires Legal(capacity, events)
    ensures var s := Run(capacity, events);
      && |s.items| <= capacity
      && s.refused == []
      && (s.producer.Pushing? ==> |s.items| < capacity)
      && (!s.producer.Idle? ==> s.producer.popped <= 1)
      && s.received == s.removed + s.items + InFlight(s)
      && Subsequence(Consumed(s) + s.items + InFlight(s), s.received)
  {
    var s := Run(capacity, events);
    SelectThenRest(s.removed, s.byConsumer, s.items + InFlight(s));
    Regroup(Consumed(s), s.items, InFlight(s));
    Regroup(s.removed, s.items, InFlight(s));
  }

  /** How many steps the producer has taken in its latest call. */
  function StepsOfCall(events: seq<Event>): nat
  {
    if events == [] || Last(events).Receive? then 0
    else StepsOfCall(Prior(events)) + if Last(events).Consume? then 0 else 1
  }

  /** How many are left at most. */
  function StepsLeft(producer: Producer): nat
  {
    match producer
    case Idle => 0
    case Pushing(_, _) => 1
    case Checking(_, popped) => if popped > 0 then 2 else 4
    case Popping(_, _) => 3
  }

  /** The loop that makes room ends whatever the consumer does: after a packet is received the
      producer takes at most four steps, and when it can take no more it has returned. */
  lemma {:induction false} CallEnds(capacity: Capacity, events: seq<Event>)
    requires Legal(capacity, events)
    ensures StepsOfCall(events) <= 4
    ensures StepsOfCall(events) + StepsLeft(Run(capacity, events).producer) <= 4
    ensures StepsOfCall(events) == 4 ==> Run(capacity, events).producer.Idle?
  {
    if events == [] {
    } else {
      CallEnds(capacity, Prior(events));
    }
  }

  /** Whenever the producer tried to make room the consumer had already emptied the queue. */
  ghost predicate NeverDiscards(capacity: Capacity, events: seq<Event>)
    requires Legal(capacity, events)
  {
    events != [] ==>
      && NeverDiscards(capacity, Prior(events))
      && (Last(events).Pop? ==> Run(capacity, Prior(events)).items == [])
  }

  lemma DiscardStep(capacity: Capacity, s: Import, e: Event)
    requires ImportOk(capacity, s) && Enabled(s, e)
    ensures false in Step(capacity, s, e).byConsumer <==> false in s.byConsumer || (e.Pop? && s.items != [])
  {
  }

  lemma {:induction false} DiscardsAreFlagged(capacity: Capacity, events: seq<Event>)
    requires Legal(capacity, events)
    ensures NeverDiscards(capacity, events) <==> false !in Run(capacity, events).byConsumer
  {
    if events == [] {
    } else {
      DiscardsAreFlagged(capacity, Prior(events));
      DiscardStep(capacity, Run(capacity, Prior(events)), Last(events));
    }
  }

  /** Over any run, nothing is lost on the way to the consumer exactly when every pop by the
      producer found the queue empty. */
  lemma ImportLosslessIff(capacity: Capacity, events: seq<Event>)
    requires Legal(capacity, events)
    ensures var s := Run(capacity, events);
      NeverDiscards(capacity, events) <==> Consumed(s) + s.items + InFlight(s) == s.received
  {
    DiscardsAreFlagged(capacity, events);
    var s := Run(capacity, events);
    SelectLength(s.removed, s.byConsumer);
  }

  /** Whenever the producer read the size the consumer was at most `capacity` packets behind. */
  ghost predicate ConsumerKeepsUp(capacity: Capacity, events: seq<Event>)
    requires Legal(capacity, events)
  {
    events != [] ==>
      var s := Run(capacity, Prior(events));
      && ConsumerKeepsUp(capacity, Prior(events))
      && (Last(events).Check? ==> |s.received| - |Consumed(s)| <= capacity)
  }

  /** The producer pops only after it has found the consumer further behind than that, so a
      consumer that keeps up loses nothing. */
  lemma {:induction false} KeepingUpLosesNothing(capacity: Capacity, events: seq<Event>)
    requires Legal(capacity, events) && ConsumerKeepsUp(capacity, events)
    ensures NeverDiscards(capacity, events) && !Run(capacity, events).producer.Popping?
  {
    if events == [] {
    } else {
      var s := Run(capacity, Prior(events));
      KeepingUpLosesNothing(capacity, Prior(events));
      DiscardsAreFlagged(capacity, Prior(events));
      SelectLength(s.removed, s.byConsumer);
    }
  }

  /** The events of one call of the callback during which the consumer does nothing. */
  function Undisturbed(capacity: Capacity, s: Import, p: Packet): seq<Event>
  {
    if |s.items| < capacity then [Receive(p), Check] + [PushBack]
    else [Receive(p), Check] + [Pop, Check] + [PushBack]
  }

  lemma RunMore(capacity: Capacity, events: seq<Event>, e: Event)
    requires Legal(capacity, events) && Enabled(Run(capacity, events), e)
    ensures Legal(capacity, events + [e]) && Run(capacity, events + [e]) == Step(capacity, Run(capacity, events), e)
  {
    assert Prior(events + [e]) == events;
  }

  lemma RunTwoMore(capacity: Capacity, events: seq<Event>, d: Event, e: Event)
    requires Legal(capacity, events) && Enabled(Run(capacity, events), d)
    requires Enabled(Step(capacity, Run(capacity, events), d), e)
    ensures Legal(capacity, events + [d, e])
    ensures Run(capacity, events + [d, e]) == Step(capacity, Step(capacity, Run(capacity, events), d), e)
  {
    RunMore(capacity, events, d);
    RunMore(capacity, events + [d], e);
    assert events + [d] + [e] == events + [d, e];
  }

  lemma CallWithRoom(capacity: Capacity, events: seq<Event>, p: Packet)
    requires Legal(capacity, events) && Run(capacity, events).producer.Idle?
    requires |Run(capacity, events).items| < capacity
    ensures var after := events + ([Receive(p), Check] + [PushBack]);
      && Legal(capacity, after)
      && Run(capacity, after).producer.Idle?
      && Run(capacity, after).items == Run(capacity, events).items + [p]
  {
    RunTwoMore(capacity, events, Receive(p), Check);
    RunMore(capacity, events + [Receive(p), Check], PushBack);
    Regroup(events, [Receive(p), Check], [PushBack]);
  }

  lemma CallWhenFull(capacity: Capacity, events: seq<Event>, p: Packet)
    requires Legal(capacity, events) && Run(capacity, events).producer.Idle?
    requires |Run(capacity, events).items| == capacity
    ensures var after := events + ([Receive(p), Check] + [Pop, Check] + [PushBack]);
      && Legal(capacity, after)
      && Run(capacity, after).producer.Idle?
      && Run(capacity, after).items == Run(capacity, events).items[1..] + [p]
  {
    var checked := events + [Receive(p), Check];
    RunTwoMore(capacity, events, Receive(p), Check);
    RunTwoMore(capacity, checked, Pop, Check);
    RunMore(capacity, checked + [Pop, Check], PushBack);
    Regroup(events, [Receive(p), Check], [Pop, Check]);
    Regroup(events, [Receive(p), Check] + [Pop, Check], [PushBack]);
  }

  /** If the consumer stays out of the way the step machine does what the method does. */
  lemma UndisturbedKeepsNewest(capacity: Capacity, events: seq<Event>, p: Packet)
    requires Legal(capacity, events) && Run(capacity, events).producer.Idle?
    ensures var s := Run(capacity, events);
      var after := events + Undisturbed(capacity, s, p);
      && Legal(capacity, after)
      && Run(capacity, after).producer.Idle?
      && Run(capacity, after).items == LastN(s.items + [p], capacity)
  {
    if |Run(capacity, events).items| < capacity {
      CallWithRoom(capacity, events, p);
    } else {
      CallWhenFull(capacity, events, p);
    }
  }
}
