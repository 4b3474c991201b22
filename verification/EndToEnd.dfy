/** Packets on their way through the service: from the import callback through the import queue,
    the manager's queues and the RPC writers to the wire (src/main.cpp, src/stream.cpp,
    src/subscriptionManager.cpp, src/modules/asyncWriter.cppm). */
module EndToEnd {
  import opened Wrappers
  import opened Sequences
  import opened Utilities
  import opened Streams
  import opened Subscriptions
  import opened Refinement
  import opened Delivery
  import opened Services
  import W = Writers
  import I = ImportQueues

  // ----- From the import callback to the wire -----

  /** What an RPC has written, followed by what it is about to write. */
  function Held(rpcs: map<Context, W.Writer>, c: Context): seq<Packet>
  {
    if c in rpcs then rpcs[c].written + rpcs[c].queue else []
  }

  /** What the manager has not seen yet. */
  function Ahead(inlet: I.Import): seq<Packet>
  {
    inlet.items + I.InFlight(inlet)
  }

  /** The packets of one stream on their way to one RPC, in the order they will be written. */
  function Line(s: System, c: Context, n: Name): seq<Packet>
  {
    On(Held(s.rpcs, c), n) + Queue(ManagerOf(s), c, n) + On(Ahead(s.inlet), n)
  }

  function Arrival(e: Event): seq<Packet>
  {
    if e.Inlet? && e.importEvent.Receive? then [e.importEvent.packet] else []
  }

  lemma LineMonotone<T>(h: seq<T>, q: seq<T>, a: seq<T>, h': seq<T>, q': seq<T>, a': seq<T>)
    requires Subsequence(h', h) && Subsequence(q', q) && Subsequence(a', a)
    ensures Subsequence(h' + q' + a', h + q + a)
  {
    SubsequenceConcat(h', h, q', q);
    SubsequenceConcat(h' + q', h + q, a', a);
  }

  lemma LineBehind<T>(h: seq<T>, q: seq<T>, a: seq<T>, q': seq<T>, a': seq<T>)
    requires Subsequence(q' + a', q + a)
    ensures Subsequence(h + q' + a', h + q + a)
  {
    SubsequenceRefl(h);
    SubsequenceConcat(h, h, q' + a', q + a);
    assert h + (q' + a') == h + q' + a';
    assert h + (q + a) == h + q + a;
  }

  lemma LineExtends<T>(h: seq<T>, q: seq<T>, a: seq<T>, arrival: seq<T>, a': seq<T>)
    requires Subsequence(a', a + arrival)
    ensures Subsequence(h + q + a', h + q + a + arrival)
  {
    SubsequenceRefl(h + q);
    SubsequenceConcat(h + q, h + q, a', a + arrival);
    assert h + q + (a + arrival) == h + q + a + arrival;
  }

  lemma LineHead<T>(written: seq<T>, queued: seq<T>, q: seq<T>, a: seq<T>)
    ensures Subsequence(written, written + queued + q + a)
  {
    var rest := queued + q + a;
    SubsequenceDelete(written, rest, []);
    assert written + [] == written;
    assert written + rest + [] == written + queued + q + a;
  }

  /** The import queue lets its line only shrink, except where a packet arrives. */
  lemma AheadStep(capacity: I.Capacity, inlet: I.Import, ie: I.Event)
    requires I.ImportOk(capacity, inlet) && I.Enabled(inlet, ie) && !ie.Consume?
    ensures Subsequence(Ahead(I.Step(capacity, inlet, ie)), Ahead(inlet) + if ie.Receive? then [ie.packet] else [])
  {
    var now := Ahead(I.Step(capacity, inlet, ie));
    if ie.Pop? && inlet.items != [] {
      FrontGone(inlet.items, I.InFlight(inlet));
      assert Ahead(inlet) + [] == Ahead(inlet);
    } else {
      assert now == Ahead(inlet) + if ie.Receive? then [ie.packet] else [];
      SubsequenceRefl(now);
    }
  }

  lemma InletLine(s: System, ie: I.Event, c: Context, n: Name)
    requires RpcsOk(s) && I.ImportOk(s.capacity, s.inlet) && I.Enabled(s.inlet, ie) && !ie.Consume?
    ensures var e := Inlet(ie);
      Subsequence(Line(Next(s, e), c, n), Line(s, c, n) + On(Arrival(e), n))
  {
    var arrival, a, a' := Arrival(Inlet(ie)), Ahead(s.inlet), Ahead(I.Step(s.capacity, s.inlet, ie));
    AheadStep(s.capacity, s.inlet, ie);
    OnSubsequence(a', a + arrival, n);
    OnConcat(a, arrival, n);
    LineExtends(On(Held(s.rpcs, c), n), Queue(ManagerOf(s), c, n), On(a, n), On(arrival, n), On(a', n));
  }

  lemma PushShrinks(q: seq<Packet>, p: Packet, limit: Limit)
    ensures Subsequence(Push(q, p, limit), q + [p])
  {
    if |q| >= limit {
      SubsequenceDelete([], [q[0]], q[1..] + [p]);
      assert [] + (q[1..] + [p]) == Push(q, p, limit);
      assert [] + [q[0]] + (q[1..] + [p]) == q + [p];
    } else {
      SubsequenceRefl(q + [p]);
    }
  }

  /** Handing a packet to the manager moves it onto a queue, past the oldest one if full, or
      past a context that is not entitled to it. */
  lemma EnqueueLine(q: seq<Packet>, p: Packet, rest: seq<Packet>, granted: bool, n: Name, limit: Limit)
    requires granted ==> PacketName(p) == n
    ensures Subsequence((if granted then Push(q, p, limit) else q) + On(rest, n), q + On([p] + rest, n))
  {
    var now, after := On([p], n), On(rest, n);
    OnConcat([p], rest, n);
    if granted {
      assert now == [p];
      PushShrinks(q, p, limit);
      SubsequenceRefl(after);
      SubsequenceConcat(Push(q, p, limit), q + now, after, after);
    } else {
      SubsequenceDelete(q, now, after);
    }
    Regroup(q, now, after);
  }

  lemma EnqueuedQueue(limit: Limit, log: seq<Op>, p: Packet, c: Context, n: Name)
    ensures var q := Queue(Run(limit, log), c, n);
      Queue(Run(limit, log + [DoEnqueue(p)]), c, n) == if Grants(log, DoEnqueue(p), c, n) then Push(q, p, limit) else q
  {
    RunMore(limit, log, DoEnqueue(p));
    RunKeepsLimit(limit, log);
    RunAgrees(limit, log);
    assert AgreesAt(Run(limit, log), log, c, n);
    QueueStep(Run(limit, log), log, DoEnqueue(p), c, n);
  }

  lemma FrontApart<T>(s: seq<T>, t: seq<T>)
    requires s != []
    ensures s + t == [s[0]] + (s[1..] + t)
  {
  }

  lemma ConsumeNext(s: System)
    requires RpcsOk(s) && s.inlet.items != []
    ensures var t, p := Next(s, Inlet(I.Consume)), s.inlet.items[0];
      && t.limit == s.limit && t.rpcs == s.rpcs && t.log == s.log + [DoEnqueue(p)]
      && Ahead(s.inlet) == [p] + Ahead(t.inlet)
  {
    FrontApart(s.inlet.items, I.InFlight(s.inlet));
  }

  lemma ConsumeLine(s: System, c: Context, n: Name)
    requires RpcsOk(s) && s.inlet.items != []
    ensures Subsequence(Line(Next(s, Inlet(I.Consume)), c, n), Line(s, c, n))
  {
    var t, p := Next(s, Inlet(I.Consume)), s.inlet.items[0];
    var q, granted := Queue(ManagerOf(s), c, n), Grants(s.log, DoEnqueue(p), c, n);
    ConsumeNext(s);
    EnqueuedQueue(s.limit, s.log, p, c, n);
    EnqueueLine(q, p, Ahead(t.inlet), granted, n, s.limit);
    LineBehind(On(Held(s.rpcs, c), n), q, On(Ahead(s.inlet), n), Queue(ManagerOf(t), c, n), On(Ahead(t.inlet), n));
  }

  lemma PrefixMoves<T>(w: seq<T>, b: seq<T>, q: seq<T>, k: nat)
    requires k <= |q| && Subsequence(b, q[..k])
    ensures Subsequence(w + b + q[k..], w + q)
  {
    SubsequenceRefl(w);
    SubsequenceRefl(q[k..]);
    LineMonotone(w, q[..k], q[k..], w, b, q[k..]);
    assert w + q[..k] + q[k..] == w + q;
  }

  /** A fetch moves a batch from the manager's queue to the RPC's, past its overflow pops. */
  lemma FetchLine(written: seq<Packet>, batch: seq<Packet>, q: seq<Packet>, k: nat, bound: nat, n: Name)
    requires k <= |q| && On(batch, n) == q[..k]
    ensures Subsequence(On(written + LastN(batch, bound), n) + q[k..], On(written, n) + q)
  {
    OnConcat(written, LastN(batch, bound), n);
    LastNIsSubsequence(batch, bound);
    OnSubsequence(LastN(batch, bound), batch, n);
    PrefixMoves(On(written, n), On(LastN(batch, bound), n), q, k);
  }

  /** The RPC itself only moves its front from queued to written. */
  lemma HeldStep(s: System, e: Event, c: Context)
    requires RpcsOk(s) && Enabled(s, e)
    requires Operation(s, e) != Some(DoGetPackets(c))
    ensures Subsequence(Held(Rpcs(s, e), c), Held(s.rpcs, c))
  {
    SubsequenceRefl(Held(s.rpcs, c));
    SubsequenceNone(Held(s.rpcs, c));
    if e.Rpc? && e.context == c {
      W.NextHolds(s.rpcs[c], e.event);
    }
  }

  /** Everything else leaves a manager's queue alone or empties it. */
  lemma OtherQueue(m: Manager, log: seq<Op>, op: Op, c: Context, n: Name)
    requires AgreesAt(m, log, c, n) && !op.DoEnqueue? && op != DoGetPackets(c)
    ensures Subsequence(Queue(Step(m, op), c, n), Queue(m, c, n))
  {
    QueueStep(m, log, op, c, n);
    SubsequenceRefl(Queue(m, c, n));
    SubsequenceNone(Queue(m, c, n));
  }

  lemma OtherLine(s: System, e: Event, c: Context, n: Name)
    requires RpcsOk(s) && Enabled(s, e) && !e.Inlet?
    requires Operation(s, e) != Some(DoGetPackets(c))
    ensures Subsequence(Line(Next(s, e), c, n), Line(s, c, n))
  {
    var m, t := ManagerOf(s), Next(s, e);
    HeldStep(s, e, c);
    OnSubsequence(Held(t.rpcs, c), Held(s.rpcs, c), n);
    SubsequenceRefl(Queue(m, c, n));
    if Operation(s, e).Some? {
      RunMore(s.limit, s.log, Operation(s, e).value);
      RunAgrees(s.limit, s.log);
      assert AgreesAt(m, s.log, c, n);
      OtherQueue(m, s.log, Operation(s, e).value, c, n);
    }
    SubsequenceRefl(On(Ahead(s.inlet), n));
    LineMonotone(On(Held(s.rpcs, c), n), Queue(m, c, n), On(Ahead(s.inlet), n),
                 On(Held(t.rpcs, c), n), Queue(ManagerOf(t), c, n), On(Ahead(s.inlet), n));
  }

  lemma FetchNext(s: System, c: Context, poll: W.Poll)
    requires RpcsOk(s) && Enabled(s, Rpc(c, W.Turn(poll))) && W.Fetches(s.rpcs[c], poll)
    ensures var t, w := Next(s, Rpc(c, W.Turn(poll))), s.rpcs[c];
      && t.inlet == s.inlet && ManagerOf(t) == GetPackets(ManagerOf(s), c)
      && Held(s.rpcs, c) == w.written
      && Held(t.rpcs, c) == w.written + LastN(poll.batch, W.MAXIMUM_QUEUE_SIZE + 1)
  {
    RunMore(s.limit, s.log, DoGetPackets(c));
    assert s.rpcs[c].written + [] == s.rpcs[c].written;
  }

  lemma LineShrinks<T>(h: seq<T>, q: seq<T>, h': seq<T>, q': seq<T>, a: seq<T>)
    requires Subsequence(h' + q', h + q)
    ensures Subsequence(h' + q' + a, h + q + a)
  {
    SubsequenceRefl(a);
    SubsequenceConcat(h' + q', h + q, a, a);
  }

  lemma RpcFetchLine(s: System, c: Context, poll: W.Poll, n: Name)
    requires RpcsOk(s) && Enabled(s, Rpc(c, W.Turn(poll))) && W.Fetches(s.rpcs[c], poll)
    ensures Subsequence(Line(Next(s, Rpc(c, W.Turn(poll))), c, n), Line(s, c, n))
  {
    var m, w := ManagerOf(s), s.rpcs[c];
    var t, q, k := Next(s, Rpc(c, W.Turn(poll))), Queue(m, c, n), Taken(m, c, n);
    FetchNext(s, c, poll);
    FetchQueue(m, c, c, n);
    FetchLine(w.written, poll.batch, q, k, W.MAXIMUM_QUEUE_SIZE + 1, n);
    LineShrinks(On(Held(s.rpcs, c), n), q, On(Held(t.rpcs, c), n), q[k..], On(Ahead(s.inlet), n));
  }

  lemma ConsumedLine(s: System, c: Context, n: Name)
    requires RpcsOk(s)
    ensures Subsequence(Line(Next(s, Inlet(I.Consume)), c, n), Line(s, c, n))
  {
    if s.inlet.items == [] {
      SubsequenceRefl(Line(s, c, n));
    } else {
      ConsumeLine(s, c, n);
    }
  }

  lemma NextLine(s: System, e: Event, c: Context, n: Name)
    requires RpcsOk(s) && Enabled(s, e) && I.ImportOk(s.capacity, s.inlet)
    ensures Subsequence(Line(Next(s, e), c, n), Line(s, c, n) + On(Arrival(e), n))
  {
    if e.Inlet? && !e.importEvent.Consume? {
      InletLine(s, e.importEvent, c, n);
    } else {
      if e.Inlet? {
        ConsumedLine(s, c, n);
      } else if Operation(s, e) == Some(DoGetPackets(c)) {
        RpcFetchLine(s, c, e.event.poll, n);
      } else {
        OtherLine(s, e, c, n);
      }
      SubsequenceGrows(Line(Next(s, e), c, n), Line(s, c, n), On(Arrival(e), n));
    }
  }

  lemma LineGrows<T>(now: seq<T>, before: seq<T>, received: seq<T>, arrival: seq<T>)
    requires Subsequence(now, before + arrival) && Subsequence(before, received)
    ensures Subsequence(now, received + arrival)
  {
    SubsequenceRefl(arrival);
    SubsequenceConcat(before, received, arrival, arrival);
    SubsequenceTrans(now, before + arrival, received + arrival);
  }

  lemma NextInOrder(s: System, e: Event, c: Context, n: Name)
    requires RpcsOk(s) && Enabled(s, e) && I.ImportOk(s.capacity, s.inlet)
    requires Subsequence(Line(s, c, n), On(s.inlet.received, n))
    ensures I.ImportOk(s.capacity, Next(s, e).inlet)
    ensures Subsequence(Line(Next(s, e), c, n), On(Next(s, e).inlet.received, n))
  {
    var received := s.inlet.received;
    if e.Inlet? {
      I.StepOk(s.capacity, s.inlet, e.importEvent);
    }
    NextLine(s, e, c, n);
    OnConcat(received, Arrival(e), n);
    assert received + [] == received;
    LineGrows(Line(Next(s, e), c, n), Line(s, c, n), On(received, n), On(Arrival(e), n));
  }

  /** Nothing on its way to an RPC is ever out of order, repeated or made up. */
  lemma {:induction false} RunInOrder(limit: Limit, capacity: I.Capacity, events: seq<Event>, c: Context, n: Name)
    requires Legal(limit, capacity, events)
    ensures var s := After(limit, capacity, events);
      I.ImportOk(capacity, s.inlet) && s.capacity == capacity && Subsequence(Line(s, c, n), On(s.inlet.received, n))
  {
    if events == [] {
      SubsequenceRefl(On([], n));
      assert Line(Started(limit, capacity), c, n) == [];
    } else {
      RunInOrder(limit, capacity, Prior(events), c, n);
      NextInOrder(After(limit, capacity, Prior(events)), Last(events), c, n);
    }
  }

  /** End to end, for every interleaving of import, manager and RPC steps: of each stream, what
      an RPC has written is an order-preserving subsequence of what the import callback was
      called with, however many packets the three bounded queues dropped on the way. */
  lemma EndToEndOrder(limit: Limit, capacity: I.Capacity, events: seq<Event>, c: Context, n: Name)
    requires Legal(limit, capacity, events)
    ensures var s := After(limit, capacity, events);
      c in s.rpcs ==> Subsequence(On(s.rpcs[c].written, n), On(s.inlet.received, n))
  {
    RunInOrder(limit, capacity, events, c, n);
    var s := After(limit, capacity, events);
    if c in s.rpcs {
      var w := s.rpcs[c];
      OnConcat(w.written, w.queue, n);
      LineHead(On(w.written, n), On(w.queue, n), Queue(ManagerOf(s), c, n), On(Ahead(s.inlet), n));
      SubsequenceTrans(On(w.written, n), Line(s, c, n), On(s.inlet.received, n));
    }
  }

  // ----- What a subscriber that keeps up receives -----

  /** The event is a fetch by `c` of more packets than its RPC can queue. */
  ghost predicate Overflows(s: System, e: Event, c: Context)
    requires Enabled(s, e)
  {
    && e.Rpc? && e.context == c && e.event.Turn? && W.Fetches(s.rpcs[c], e.event.poll)
    && |e.event.poll.batch| > W.MAXIMUM_QUEUE_SIZE + 1
  }

  /** No fetch overflowed since the RPC at `c` was opened. */
  ghost predicate NeverOverflowed(limit: Limit, capacity: I.Capacity, events: seq<Event>, c: Context)
    requires Legal(limit, capacity, events)
  {
    || events == []
    || ((Last(events).Open? || Last(events).OpenAll?) && Last(events).context == c)
    || (NeverOverflowed(limit, capacity, Prior(events), c)
        && !Overflows(After(limit, capacity, Prior(events)), Last(events), c))
  }

  /** What the RPC holds is exactly what the manager has delivered to it since it joined. */
  ghost predicate HandedOver(s: System, c: Context, n: Name)
  {
    Delivered(s.limit, s.log, c, n) == if Live(s, c) then On(Held(s.rpcs, c), n) else []
  }

  lemma DeliveredStep(limit: Limit, log: seq<Op>, op: Op, c: Context, n: Name)
    ensures Delivered(limit, log + [op], c, n) ==
        if Removes(op, c) then []
        else if op == DoGetPackets(c) then Delivered(limit, log, c, n) + Batch(Run(limit, log), c, n)
        else Delivered(limit, log, c, n)
  {
    assert Prior(log + [op]) == log && Last(log + [op]) == op;
  }

  /** Unless it fetches or was not there before, a live RPC holds the same packets as before. */
  lemma HeldKept(s: System, e: Event, c: Context)
    requires RpcsOk(s) && Enabled(s, e)
    requires Operation(s, e) != Some(DoGetPackets(c)) && Live(s, c) && Live(Next(s, e), c)
    ensures Held(Rpcs(s, e), c) == Held(s.rpcs, c)
  {
    if e.Rpc? && e.context == c {
      W.NextHolds(s.rpcs[c], e.event);
    }
  }

  lemma OpenedEmpty(s: System, e: Event, c: Context)
    requires RpcsOk(s) && Enabled(s, e) && !Live(s, c) && Live(Next(s, e), c)
    ensures Held(Rpcs(s, e), c) == []
  {
  }

  lemma FetchHandsOver(s: System, c: Context, poll: W.Poll, n: Name)
    requires RpcsOk(s) && Enabled(s, Rpc(c, W.Turn(poll))) && W.Fetches(s.rpcs[c], poll)
    requires |poll.batch| <= W.MAXIMUM_QUEUE_SIZE + 1
    ensures var e := Rpc(c, W.Turn(poll));
      On(Held(Rpcs(s, e), c), n) == On(Held(s.rpcs, c), n) + Batch(ManagerOf(s), c, n)
  {
    var w := s.rpcs[c];
    assert w.written + w.queue == w.written;
    OnConcat(w.written, poll.batch, n);
  }

  lemma NextHandedOver(s: System, e: Event, c: Context, n: Name)
    requires RpcsOk(s) && Enabled(s, e) && !e.Purge? && (Live(s, c) ==> !Overflows(s, e, c))
    requires HandedOver(s, c, n) && (!Live(s, c) ==> Queue(ManagerOf(s), c, n) == [])
    ensures HandedOver(Next(s, e), c, n)
  {
    var op, t := Operation(s, e), Next(s, e);
    LiveStep(s, e, c);
    if op.Some? {
      DeliveredStep(s.limit, s.log, op.value, c, n);
    }
    if !Live(t, c) {
    } else if !Live(s, c) {
      OpenedEmpty(s, e, c);
    } else if op == Some(DoGetPackets(c)) {
      FetchHandsOver(s, c, e.event.poll, n);
    } else {
      HeldKept(s, e, c);
    }
  }

  lemma NotLiveEmpty(limit: Limit, capacity: I.Capacity, events: seq<Event>, c: Context, n: Name)
    requires Legal(limit, capacity, events)
    ensures var s := After(limit, capacity, events);
      !Live(s, c) ==> Queue(ManagerOf(s), c, n) == []
  {
    RpcLifecycle(limit, capacity, events, c);
    var s := After(limit, capacity, events);
    assert !Live(s, c) ==> !Subscribed(ManagerOf(s), c, n);
  }

  lemma {:induction false} RunHandedOver(limit: Limit, capacity: I.Capacity, events: seq<Event>, c: Context, n: Name)
    requires Legal(limit, capacity, events)
    ensures var s := After(limit, capacity, events);
      && s.limit == limit
      && (NoPurge(s.log) && (Live(s, c) ==> NeverOverflowed(limit, capacity, events, c)) ==> HandedOver(s, c, n))
  {
    if events == [] {
    } else {
      var s, e := After(limit, capacity, Prior(events)), Last(events);
      var op := Operation(s, e);
      RunHandedOver(limit, capacity, Prior(events), c, n);
      NotLiveEmpty(limit, capacity, Prior(events), c, n);
      LiveStep(s, e, c);
      if op.Some? {
        CountStep(s.log, op.value, c);
        DeliveredStep(limit, s.log, op.value, c, n);
      }
      if op != Some(DoUnsubscribeFromAll(c)) && NoPurge(Next(s, e).log)
         && (Live(Next(s, e), c) ==> NeverOverflowed(limit, capacity, events, c)) {
        NextHandedOver(s, e, c, n);
      }
    }
  }

  /** A subscribed RPC whose fetches never overflow misses nothing it is entitled to, from the
      moment it joined, exactly when it keeps up with the manager's queue; this holds for each
      stream by itself and until everyone is purged at once. */
  lemma CompleteIffKeepsUp(limit: Limit, capacity: I.Capacity, events: seq<Event>, c: Context, n: Name)
    requires Legal(limit, capacity, events) && NeverOverflowed(limit, capacity, events, c)
    ensures var s := After(limit, capacity, events);
      NoPurge(s.log) && Live(s, c) ==>
        (KeepsUp(limit, s.log, c, n)
         <==> On(s.rpcs[c].written + s.rpcs[c].queue, n) + Queue(ManagerOf(s), c, n) == Entitled(s.log, c, n))
  {
    RunHandedOver(limit, capacity, events, c, n);
    LosslessIff(limit, After(limit, capacity, events).log, c, n);
  }

  // ----- From the import callback to the wire without loss -----

  /** What the import queue's two threads did in the run. */
  function InletEvents(events: seq<Event>): seq<I.Event>
  {
    if events == [] then []
    else
      var front := InletEvents(Prior(events));
      if Last(events).Inlet? then front + [Last(events).importEvent] else front
  }

  /** The service contains a legal run of the import queue. */
  lemma {:induction false} InletRuns(limit: Limit, capacity: I.Capacity, events: seq<Event>)
    requires Legal(limit, capacity, events)
    ensures var s := After(limit, capacity, events);
      && s.capacity == capacity
      && I.Legal(capacity, InletEvents(events))
      && s.inlet == I.Run(capacity, InletEvents(events))
  {
    if events == [] {
    } else {
      InletRuns(limit, capacity, Prior(events));
      if Last(events).Inlet? {
        I.RunMore(capacity, InletEvents(Prior(events)), Last(events).importEvent);
      }
    }
  }

  /** The packets handed to the manager. */
  function Enqueued(log: seq<Op>): seq<Packet>
  {
    if log == [] then []
    else
      var front := Enqueued(Prior(log));
      if Last(log).DoEnqueue? then front + [Last(log).packet] else front
  }

  lemma EnqueuedMore(log: seq<Op>, op: Op)
    ensures Enqueued(log + [op]) == Enqueued(log) + if op.DoEnqueue? then [op.packet] else []
  {
    assert Prior(log + [op]) == log && Last(log + [op]) == op;
  }

  lemma NextEnqueued(s: System, e: Event)
    requires RpcsOk(s) && Enabled(s, e) && I.ImportOk(s.capacity, s.inlet)
    requires Enqueued(s.log) == I.Consumed(s.inlet)
    ensures var t := Next(s, e);
      |t.inlet.removed| == |t.inlet.byConsumer| && Enqueued(t.log) == I.Consumed(t.inlet)
  {
    if Operation(s, e).Some? {
      EnqueuedMore(s.log, Operation(s, e).value);
    }
    if e.Inlet? {
      I.ConsumedMore(s.capacity, s.inlet, e.importEvent);
    }
  }

  /** The manager has been handed exactly what the import queue's consumer has taken. */
  lemma {:induction false} EnqueuedIsConsumed(limit: Limit, capacity: I.Capacity, events: seq<Event>)
    requires Legal(limit, capacity, events)
    ensures var s := After(limit, capacity, events);
      |s.inlet.removed| == |s.inlet.byConsumer| && Enqueued(s.log) == I.Consumed(s.inlet)
  {
    if events == [] {
    } else {
      InletRuns(limit, capacity, Prior(events));
      EnqueuedIsConsumed(limit, capacity, Prior(events));
      NextEnqueued(After(limit, capacity, Prior(events)), Last(events));
    }
  }

  /** The admissible packets of one stream. */
  function AdmissibleOn(packets: seq<Packet>, n: Name): seq<Packet>
  {
    if packets == [] then []
    else
      var front, p := AdmissibleOn(Prior(packets), n), Last(packets);
      if Admissible(p) && PacketName(p) == n then front + [p] else front
  }

  lemma {:induction false} AdmissibleOnConcat(a: seq<Packet>, b: seq<Packet>, n: Name)
    ensures AdmissibleOn(a + b, n) == AdmissibleOn(a, n) + AdmissibleOn(b, n)
    decreases |b|
  {
    if b == [] {
      assert a + b == a;
    } else {
      AdmissibleOnConcat(a, Prior(b), n);
      assert Prior(a + b) == a + Prior(b);
    }
  }

  /** `a` is a contiguous end of `b`. */
  predicate IsSuffix<T(==)>(a: seq<T>, b: seq<T>)
  {
    |a| <= |b| && a == b[|b| - |a|..]
  }

  lemma SuffixExtends<T>(a: seq<T>, b: seq<T>, more: seq<T>)
    requires IsSuffix(a, b)
    ensures IsSuffix(a + more, b + more)
  {
  }

  lemma {:induction false} EntitledIsWanted(log: seq<Op>, c: Context, n: Name)
    ensures Entitled(log, c, n) != [] ==> Wanted(log, c, n)
  {
    if log == [] {
    } else {
      EntitledIsWanted(Prior(log), c, n);
    }
  }

  /** A context is entitled to everything admissible on the stream from some packet on. */
  lemma {:induction false} EntitledIsSuffix(log: seq<Op>, c: Context, n: Name)
    ensures IsSuffix(Entitled(log, c, n), AdmissibleOn(Enqueued(log), n))
  {
    if log == [] {
    } else {
      var rest, op := Prior(log), Last(log);
      EntitledIsSuffix(rest, c, n);
      EntitledIsWanted(rest, c, n);
      if op.DoEnqueue? {
        assert Prior(Enqueued(rest) + [op.packet]) == Enqueued(rest);
        if Admissible(op.packet) && PacketName(op.packet) == n {
          SuffixExtends(Entitled(rest, c, n), AdmissibleOn(Enqueued(rest), n), [op.packet]);
        }
      }
    }
  }

  /** The lossless counterpart of the order end to end. If the import queue's producer never
      discarded, no fetch of the RPC overflowed and the RPC keeps up with the manager's queue,
      then what it has written, holds, will fetch and will be handed is, for each stream, a
      contiguous end of all that the import callback was called with: from the moment it
      joined nothing is missing. */
  lemma EndToEndComplete(limit: Limit, capacity: I.Capacity, events: seq<Event>, c: Context, n: Name)
    requires Legal(limit, capacity, events) && NeverOverflowed(limit, capacity, events, c)
    requires I.Legal(capacity, InletEvents(events)) && I.NeverDiscards(capacity, InletEvents(events))
    ensures var s := After(limit, capacity, events);
      NoPurge(s.log) && Live(s, c) && KeepsUp(limit, s.log, c, n) ==>
        IsSuffix(On(s.rpcs[c].written + s.rpcs[c].queue, n) + Queue(ManagerOf(s), c, n)
                 + AdmissibleOn(Ahead(s.inlet), n),
                 AdmissibleOn(s.inlet.received, n))
  {
    var s := After(limit, capacity, events);
    InletRuns(limit, capacity, events);
    I.ImportLosslessIff(capacity, InletEvents(events));
    EnqueuedIsConsumed(limit, capacity, events);
    CompleteIffKeepsUp(limit, capacity, events, c, n);
    EntitledIsSuffix(s.log, c, n);
    Regroup(I.Consumed(s.inlet), s.inlet.items, I.InFlight(s.inlet));
    AdmissibleOnConcat(Enqueued(s.log), Ahead(s.inlet), n);
    SuffixExtends(Entitled(s.log, c, n), AdmissibleOn(Enqueued(s.log), n), AdmissibleOn(Ahead(s.inlet), n));
  }
}
