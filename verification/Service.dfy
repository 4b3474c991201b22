/** The whole service: import queue, subscription manager and any number of RPC writers, their
    steps interleaved at will (src/main.cpp, src/subscriptionManager.cpp,
    src/modules/asyncWriter.cppm). */
module Services {
  import opened Wrappers
  import opened Sequences
  import opened Utilities
  import opened Streams
  import opened Subscriptions
  import opened Refinement
  import opened Delivery
  import W = Writers
  import I = ImportQueues

  /** The manager's state is the one its log of operations leads to. `rpcs` are the accepted
      RPCs whose reactor has not been deleted yet, by the address of their context. */
  datatype System = System(
    limit: Limit,
    capacity: I.Capacity,
    inlet: I.Import,
    log: seq<Op>,
    rpcs: map<Context, W.Writer>)

  function Started(limit: Limit, capacity: I.Capacity): System
  {
    System(limit, capacity, I.EMPTY, [], map[])
  }

  function ManagerOf(s: System): Manager
  {
    Run(s.limit, s.log)
  }

  /** The RPC's own flag says that it is subscribed. */
  predicate Live(s: System, c: Context)
  {
    c in s.rpcs && s.rpcs[c].subscribed
  }

  datatype Event =
    | Inlet(importEvent: I.Event)
    | Open(context: Context, names: set<Name>)
    | OpenAll(context: Context)
    | Rpc(context: Context, event: W.Event)
    | Count
    | Purge

  ghost predicate RpcsOk(s: System)
  {
    forall c <- s.rpcs :: W.WriterOk(s.rpcs[c])
  }

  /** An RPC is opened at an address no other RPC has, and with at least one name; a fetch gets
      what the manager may return. */
  ghost predicate Enabled(s: System, e: Event)
  {
    match e
    case Inlet(ie) => I.Enabled(s.inlet, ie)
    case Open(c, names) => c !in s.rpcs && names != {}
    case OpenAll(c) => c !in s.rpcs
    case Rpc(c, we) =>
      && c in s.rpcs && W.Enabled(s.rpcs[c], we)
      && (we.Turn? && W.Fetches(s.rpcs[c], we.poll) ==> IsBatch(ManagerOf(s), c, we.poll.batch))
    case Count => true
    case Purge => true
  }

  /** The operation an event performs on the manager: for an RPC a fetch, or the call by which
      its count of unsubscribes rises. */
  ghost function Operation(s: System, e: Event): Option<Op>
    requires RpcsOk(s) && Enabled(s, e)
  {
    match e
    case Inlet(ie) => if ie.Consume? && s.inlet.items != [] then Some(DoEnqueue(s.inlet.items[0])) else None
    case Open(c, names) => Some(DoSubscribe(c, names))
    case OpenAll(c) => Some(DoSubscribeToAll(c))
    case Rpc(c, we) =>
      var w := s.rpcs[c];
      if we.Turn? && W.Fetches(w, we.poll) then Some(DoGetPackets(c))
      else if W.Next(w, we).unsubscribes > w.unsubscribes then Some(DoUnsubscribeFromAll(c))
      else None
    case Count => Some(DoCount)
    case Purge => Some(DoUnsubscribeAll)
  }

  /** The reactors after an event; done deletes the reactor. */
  ghost function Rpcs(s: System, e: Event): map<Context, W.Writer>
    requires RpcsOk(s) && Enabled(s, e)
  {
    match e
    case Open(c, _) => s.rpcs[c := W.STARTED]
    case OpenAll(c) => s.rpcs[c := W.STARTED]
    case Rpc(c, we) => if we.Done? then s.rpcs - {c} else s.rpcs[c := W.Next(s.rpcs[c], we)]
    case _ => s.rpcs
  }

  ghost function Next(s: System, e: Event): System
    requires RpcsOk(s) && Enabled(s, e)
  {
    var op := Operation(s, e);
    s.(inlet := if e.Inlet? then I.Step(s.capacity, s.inlet, e.importEvent) else s.inlet,
       log := if op.Some? then s.log + [op.value] else s.log,
       rpcs := Rpcs(s, e))
  }

  lemma RpcsStayOk(s: System, e: Event)
    requires RpcsOk(s) && Enabled(s, e)
    ensures RpcsOk(Next(s, e))
  {
  }

  ghost predicate Legal(limit: Limit, capacity: I.Capacity, events: seq<Event>)
    decreases |events|, 0
  {
    events != [] ==>
      && Legal(limit, capacity, Prior(events))
      && Enabled(After(limit, capacity, Prior(events)), Last(events))
  }

  /** The service after a legal run. */
  ghost function After(limit: Limit, capacity: I.Capacity, events: seq<Event>): (s: System)
    requires Legal(limit, capacity, events)
    ensures RpcsOk(s)
    decreases |events|, 1
  {
    if events == [] then Started(limit, capacity)
    else
      var before := After(limit, capacity, Prior(events));
      RpcsStayOk(before, Last(events));
      Next(before, Last(events))
  }

  // ----- The life of an RPC -----

  predicate Joins(op: Op, c: Context)
  {
    (op.DoSubscribe? || op.DoSubscribeToAll?) && op.context == c
  }

  function Subscribes(log: seq<Op>, c: Context): nat
  {
    if log == [] then 0
    else Subscribes(Prior(log), c) + if Joins(Last(log), c) then 1 else 0
  }

  function Unsubscribes(log: seq<Op>, c: Context): nat
  {
    if log == [] then 0
    else Unsubscribes(Prior(log), c) + if Last(log) == DoUnsubscribeFromAll(c) then 1 else 0
  }

  /** The manager knows a context only while its RPC says that it is subscribed, and until a
      purge always then; every subscribe but a live one has been matched. */
  ghost predicate LifeOk(s: System, c: Context)
  {
    && (c in Members(ManagerOf(s)) ==> Live(s, c))
    && (NoPurge(s.log) && Live(s, c) ==> IsAsking(s.log, c))
    && Subscribes(s.log, c) == Unsubscribes(s.log, c) + if Live(s, c) then 1 else 0
  }

  /** The operation asks for something. */
  predicate Asks(op: Op, c: Context)
  {
    (op.DoSubscribe? && op.context == c && op.names != {}) || op == DoSubscribeToAll(c)
  }

  lemma AskingStep(log: seq<Op>, op: Op, c: Context)
    ensures IsAsking(log + [op], c) <==> !Removes(op, c) && (IsAsking(log, c) || Asks(op, c))
  {
    forall n ensures AskedFor(log + [op], c, n)
        <==> !Removes(op, c) && (AskedFor(log, c, n) || (op.DoSubscribe? && op.context == c && n in op.names))
    {
      LogStep(log, op, c, n);
    }
    LogStep(log, op, c, "");
    if op.DoSubscribe? && op.names != {} {
      var n :| n in op.names;
      assert op.context == c ==> AskedFor(log + [op], c, n);
    }
  }

  lemma CountStep(log: seq<Op>, op: Op, c: Context)
    ensures Subscribes(log + [op], c) == Subscribes(log, c) + if Joins(op, c) then 1 else 0
    ensures Unsubscribes(log + [op], c) == Unsubscribes(log, c) + if op == DoUnsubscribeFromAll(c) then 1 else 0
    ensures NoPurge(log + [op]) <==> NoPurge(log) && !op.DoUnsubscribeAll?
  {
    var next := log + [op];
    assert Prior(next) == log && Last(next) == op;
  }

  lemma MembersEnqueue(s: Manager, p: Packet)
    requires Coherent(s)
    ensures Members(EnqueuePacket(s, p)) == Members(s)
  {
    if Admissible(p) && PacketName(p) !in s.streams {
      AddStreamKeepsMembers(s, p);
    }
  }

  lemma MembersJoin(s: Manager, d: Context, names: set<Name>)
    ensures Members(JoinNamed(s, d, names)) <= Members(s) + {d}
  {
  }

  lemma MembersSubscribe(s: Manager, d: Context, names: set<Name>)
    ensures Members(Subscribe(s, d, names)) <= Members(s) + {d}
  {
    MembersJoin(s, d, names);
  }

  lemma MembersSubscribeToAll(s: Manager, d: Context)
    ensures Members(SubscribeToAll(s, d)) <= Members(s) + {d}
  {
    MembersJoin(s, d, s.streams.Keys);
  }

  lemma MembersPurge(s: Manager)
    ensures Members(UnsubscribeAll(s)) <= Members(s)
  {
  }

  lemma MembersLeave(s: Manager, d: Context)
    requires s.streams.Keys == {} ==> s.active == map[]
    ensures Members(UnsubscribeFromAll(s, d)) == Members(s) - {d}
  {
  }

  /** Only subscribing makes a context known to the manager, and unsubscribing ends that. */
  lemma MembersStep(s: Manager, op: Op, c: Context)
    requires Coherent(s) && (s.streams.Keys == {} ==> s.active == map[])
    ensures c in Members(Step(s, op)) ==>
        || (c in Members(s) && op != DoUnsubscribeFromAll(c))
        || Joins(op, c)
  {
    match op
    case DoEnqueue(p) => MembersEnqueue(s, p);
    case DoSubscribe(d, names) => MembersSubscribe(s, d, names);
    case DoSubscribeToAll(d) => MembersSubscribeToAll(s, d);
    case DoGetPackets(d) =>
    case DoUnsubscribeFromAll(d) => MembersLeave(s, d);
    case DoUnsubscribeAll => MembersPurge(s);
    case DoCount =>
  }

  lemma RunMore(limit: Limit, log: seq<Op>, op: Op)
    ensures Run(limit, log + [op]) == Step(Run(limit, log), op)
  {
    assert Prior(log + [op]) == log && Last(log + [op]) == op;
  }

  /** An RPC calls unsubscribeFromAll at most once in a step, never in the step of a fetch, and
      exactly when its flag falls; a reactor that is deleted has made the call once. */
  lemma RpcCallsOnce(s: System, c: Context, we: W.Event)
    requires RpcsOk(s) && Enabled(s, Rpc(c, we))
    ensures var w, v, op := s.rpcs[c], W.Next(s.rpcs[c], we), Operation(s, Rpc(c, we));
      && v.unsubscribes == w.unsubscribes + (if op == Some(DoUnsubscribeFromAll(c)) then 1 else 0)
      && (op == Some(DoUnsubscribeFromAll(c)) <==> w.subscribed && !v.subscribed)
      && (v.subscribed ==> w.subscribed)
      && (we.Done? ==> v.unsubscribes == 1)
  {
  }

  /** What an operation says about the RPC of a context: subscribing opens one where there was
      none, and unsubscribing is called by one that was subscribed and no longer is. */
  lemma LiveStep(s: System, e: Event, c: Context)
    requires RpcsOk(s) && Enabled(s, e)
    ensures match Operation(s, e)
      case None => Live(Next(s, e), c) == Live(s, c)
      case Some(op) =>
        && (Joins(op, c) ==> !Live(s, c) && Live(Next(s, e), c) && (op.DoSubscribe? ==> op.names != {}))
        && (op == DoUnsubscribeFromAll(c) ==> Live(s, c) && !Live(Next(s, e), c))
        && (!Joins(op, c) && op != DoUnsubscribeFromAll(c) ==> Live(Next(s, e), c) == Live(s, c))
  {
    if e.Rpc? {
      RpcCallsOnce(s, e.context, e.event);
    }
  }

  lemma LogLifeStep(limit: Limit, log: seq<Op>, op: Op, c: Context)
    ensures var next := log + [op];
      && (c in Members(Run(limit, next)) ==>
            (c in Members(Run(limit, log)) && op != DoUnsubscribeFromAll(c)) || Joins(op, c))
      && (NoPurge(next) <==> NoPurge(log) && !op.DoUnsubscribeAll?)
      && (IsAsking(next, c) <==> !Removes(op, c) && (IsAsking(log, c) || Asks(op, c)))
      && Subscribes(next, c) == Subscribes(log, c) + (if Joins(op, c) then 1 else 0)
      && Unsubscribes(next, c) == Unsubscribes(log, c) + (if op == DoUnsubscribeFromAll(c) then 1 else 0)
  {
    RunMore(limit, log, op);
    RunAgrees(limit, log);
    if Run(limit, log).streams.Keys == {} {
      NobodyActiveWithoutStreams(Run(limit, log), log);
    }
    MembersStep(Run(limit, log), op, c);
    AskingStep(log, op, c);
    CountStep(log, op, c);
  }

  lemma NextLifeOk(s: System, e: Event, c: Context)
    requires RpcsOk(s) && Enabled(s, e) && LifeOk(s, c)
    ensures LifeOk(Next(s, e), c)
  {
    var op := Operation(s, e);
    LiveStep(s, e, c);
    if op.Some? {
      LogLifeStep(s.limit, s.log, op.value, c);
    }
  }

  lemma {:induction false} RunLifeOk(limit: Limit, capacity: I.Capacity, events: seq<Event>, c: Context)
    requires Legal(limit, capacity, events)
    ensures LifeOk(After(limit, capacity, events), c)
  {
    if events == [] {
    } else {
      RunLifeOk(limit, capacity, Prior(events), c);
      NextLifeOk(After(limit, capacity, Prior(events)), Last(events), c);
    }
  }

  /** The contexts whose RPC says that it is subscribed. */
  function LiveRpcs(s: System): set<Context>
  {
    set c | c in s.rpcs && s.rpcs[c].subscribed
  }

  /** However cancellation, the end of the loop and completion are ordered: every subscribe is
      matched by exactly one unsubscribe as soon as the flag is cleared or the RPC is gone, an
      RPC that still exists having made the call itself, and the context is then in no map of
      the manager and on no stream. */
  lemma RpcLifecycle(limit: Limit, capacity: I.Capacity, events: seq<Event>, c: Context)
    requires Legal(limit, capacity, events)
    ensures var s := After(limit, capacity, events);
      && Subscribes(s.log, c) == Unsubscribes(s.log, c) + (if Live(s, c) then 1 else 0)
      && (c in s.rpcs ==> s.rpcs[c].unsubscribes == if Live(s, c) then 0 else 1)
      && (events != [] && Last(events) == Rpc(c, W.Done) ==> c !in s.rpcs)
      && (!Live(s, c) ==> c !in Members(ManagerOf(s)) && forall n :: !Subscribed(ManagerOf(s), c, n))
  {
    RunLifeOk(limit, capacity, events, c);
    var s := After(limit, capacity, events);
    RunAgrees(s.limit, s.log);
    forall n ensures Subscribed(ManagerOf(s), c, n) ==> c in Members(ManagerOf(s)) {
      assert AgreesAt(ManagerOf(s), s.log, c, n);
    }
  }

  /** Until everyone is purged at once, the number of subscribers the manager reports is the
      number of RPCs that are subscribed. */
  lemma CountIsLiveRpcs(limit: Limit, capacity: I.Capacity, events: seq<Event>)
    requires Legal(limit, capacity, events)
    ensures var s := After(limit, capacity, events);
      NoPurge(s.log) ==> Members(ManagerOf(s)) == LiveRpcs(s) && NumberOfSubscribers(ManagerOf(s)) == |LiveRpcs(s)|
  {
    var s := After(limit, capacity, events);
    CountCoherence(s.limit, s.log);
    forall c ensures NoPurge(s.log) ==> (c in Members(ManagerOf(s)) <==> c in LiveRpcs(s)) {
      RunLifeOk(limit, capacity, events, c);
      MembersAreAskers(s.limit, s.log, c);
    }
  }
}
