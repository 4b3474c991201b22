/** The manager's six indices refine a two-line specification: a context receives a stream
    if and only if it asked, since it was last removed, for that stream or for everything. */
module Refinement {
  import opened Sequences
  import opened Utilities
  import opened Streams
  import opened Subscriptions

  // ----- The specification, read off the log of operations alone -----

  /** Some admissible packet of stream `n` was enqueued. */
  ghost predicate Known(log: seq<Op>, n: Name)
  {
    log != [] && (
      || Known(Prior(log), n)
      || (Last(log).DoEnqueue? && Admissible(Last(log).packet) && PacketName(Last(log).packet) == n))
  }

  predicate Removes(op: Op, c: Context)
  {
    op.DoUnsubscribeAll? || op == DoUnsubscribeFromAll(c)
  }

  /** Since its last removal `c` asked for stream `n` by name. */
  ghost predicate AskedFor(log: seq<Op>, c: Context, n: Name)
  {
    log != [] && !Removes(Last(log), c) && (
      || AskedFor(Prior(log), c, n)
      || (Last(log).DoSubscribe? && Last(log).context == c && n in Last(log).names))
  }

  /** Since its last removal `c` asked for every stream. */
  ghost predicate AskedForAll(log: seq<Op>, c: Context)
  {
    log != [] && !Removes(Last(log), c) && (
      || AskedForAll(Prior(log), c)
      || Last(log) == DoSubscribeToAll(c))
  }

  ghost predicate Wanted(log: seq<Op>, c: Context, n: Name)
  {
    AskedFor(log, c, n) || AskedForAll(log, c)
  }

  /** The run never purged everyone at once. */
  predicate NoPurge(log: seq<Op>)
  {
    DoUnsubscribeAll !in log
  }

  /** At some time since `c` itself was last removed it was receiving stream `n`; a purge of
      everyone does not end this. */
  ghost predicate EverReceived(log: seq<Op>, c: Context, n: Name)
  {
    log != [] && Last(log) != DoUnsubscribeFromAll(c) && (
      || EverReceived(Prior(log), c, n)
      || (Known(log, n) && Wanted(log, c, n)))
  }

  // ----- The coupling between the state and the log -----

  /** For one context and one stream: the stream exists if it was enqueued, the context is
      on it if it wants it, the name is pending if it was asked for too early; active covers
      the subscription and, without a purge, nothing else. */
  ghost predicate AgreesAt(s: Manager, log: seq<Op>, c: Context, n: Name)
  {
    && (n in s.streams <==> Known(log, n))
    && (Subscribed(s, c, n) <==> Known(log, n) && Wanted(log, c, n))
    && (n in Lookup(s.pending, c) <==> AskedFor(log, c, n) && !Known(log, n))
    && (c in s.toAll <==> AskedForAll(log, c))
    && (n in Lookup(s.active, c) ==> n in s.streams)
    && (Subscribed(s, c, n) ==> n in Lookup(s.active, c))
    && (NoPurge(log) && n in Lookup(s.active, c) ==> Subscribed(s, c, n))
  }

  /** Nothing is stored empty, and a cached count is right. */
  ghost predicate Coherent(s: Manager)
  {
    && (forall c <- s.pending :: s.pending[c] != {})
    && (forall c <- s.active :: s.active[c] != {})
    && s.count >= -1
    && (s.count >= 0 ==> s.count == |Members(s)|)
  }

  ghost predicate Agrees(s: Manager, log: seq<Op>)
  {
    Coherent(s) && forall c, n :: AgreesAt(s, log, c, n)
  }

  // ----- Every operation keeps the coupling -----

  /** What one more operation does to the specification. */
  lemma LogStep(log: seq<Op>, op: Op, c: Context, n: Name)
    ensures var next := log + [op];
      && (Known(next, n) <==> Known(log, n) || (op.DoEnqueue? && Admissible(op.packet) && PacketName(op.packet) == n))
      && (AskedFor(next, c, n) <==>
            !Removes(op, c) && (AskedFor(log, c, n) || (op.DoSubscribe? && op.context == c && n in op.names)))
      && (AskedForAll(next, c) <==> !Removes(op, c) && (AskedForAll(log, c) || op == DoSubscribeToAll(c)))
      && (NoPurge(next) <==> NoPurge(log) && !op.DoUnsubscribeAll?)
  {
    var next := log + [op];
    assert Prior(next) == log && Last(next) == op;
  }

  lemma PublishAgreesAt(s: Manager, log: seq<Op>, p: Packet, c: Context, n: Name)
    requires AgreesAt(s, log, c, n)
    requires !Admissible(p) || PacketName(p) in s.streams
    ensures AgreesAt(EnqueuePacket(s, p), log + [DoEnqueue(p)], c, n)
  {
    LogStep(log, DoEnqueue(p), c, n);
  }

  lemma JoinEffect(s: Manager, d: Context, names: set<Name>, c: Context, n: Name)
    ensures var t := JoinNamed(s, d, names);
      && (Subscribed(t, c, n) <==> Subscribed(s, c, n) || (c == d && n in names && n in s.streams))
      && (n in Lookup(t.pending, c) <==> n in Lookup(s.pending, c) || (c == d && n in names && n !in s.streams))
      && (n in Lookup(t.active, c) <==> n in Lookup(s.active, c) || (c == d && n in Unjoined(s, d, names)))
  {
    var t := JoinNamed(s, d, names);
    assert n in names - s.streams.Keys <==> n in names && n !in s.streams;
    if c == d {
      assert Lookup(t.pending, c) == Lookup(s.pending, c) + (names - s.streams.Keys);
      assert Lookup(t.active, c) == Lookup(s.active, c) + Unjoined(s, d, names);
    } else {
      assert Lookup(t.pending, c) == Lookup(s.pending, c);
      assert Lookup(t.active, c) == Lookup(s.active, c);
    }
  }

  lemma SubscribeAgreesAt(s: Manager, log: seq<Op>, d: Context, names: set<Name>, c: Context, n: Name)
    requires AgreesAt(s, log, c, n)
    ensures AgreesAt(Subscribe(s, d, names), log + [DoSubscribe(d, names)], c, n)
  {
    LogStep(log, DoSubscribe(d, names), c, n);
    JoinEffect(s, d, names, c, n);
  }

  lemma SubscribeToAllAgreesAt(s: Manager, log: seq<Op>, d: Context, c: Context, n: Name)
    requires AgreesAt(s, log, c, n)
    ensures AgreesAt(SubscribeToAll(s, d), log + [DoSubscribeToAll(d)], c, n)
  {
    LogStep(log, DoSubscribeToAll(d), c, n);
    JoinEffect(s, d, s.streams.Keys, c, n);
  }

  lemma FetchAgreesAt(s: Manager, log: seq<Op>, d: Context, c: Context, n: Name)
    requires AgreesAt(s, log, c, n)
    ensures AgreesAt(GetPackets(s, d), log + [DoGetPackets(d)], c, n)
  {
    LogStep(log, DoGetPackets(d), c, n);
  }

  lemma LeaveEffect(s: Manager, d: Context, c: Context, n: Name)
    ensures var t := UnsubscribeFromAll(s, d);
      && (Subscribed(t, c, n) <==> Subscribed(s, c, n) && c != d)
      && (n in Lookup(t.pending, c) <==> n in Lookup(s.pending, c) && c != d)
      && (n in Lookup(t.active, c) <==> n in Lookup(s.active, c) && (c != d || s.streams == map[]))
  {
  }

  lemma UnsubscribeAgreesAt(s: Manager, log: seq<Op>, d: Context, c: Context, n: Name)
    requires AgreesAt(s, log, c, n)
    ensures AgreesAt(UnsubscribeFromAll(s, d), log + [DoUnsubscribeFromAll(d)], c, n)
  {
    LogStep(log, DoUnsubscribeFromAll(d), c, n);
    LeaveEffect(s, d, c, n);
  }

  lemma PurgeAgreesAt(s: Manager, log: seq<Op>, c: Context, n: Name)
    requires AgreesAt(s, log, c, n)
    ensures AgreesAt(UnsubscribeAll(s), log + [DoUnsubscribeAll], c, n)
  {
    LogStep(log, DoUnsubscribeAll, c, n);
  }

  lemma AddStreamAgreesAt(s: Manager, log: seq<Op>, p: Packet, c: Context, n: Name)
    requires AgreesAt(s, log, c, n)
    requires Admissible(p) && PacketName(p) !in s.streams
    ensures AgreesAt(AddStream(s, p), log + [DoEnqueue(p)], c, n)
  {
    var log' := log + [DoEnqueue(p)];
    assert Prior(log') == log && Last(log') == DoEnqueue(p);
    assert NoPurge(log') ==> NoPurge(log);
    var t := AddStream(s, p);
    if n != PacketName(p) {
      assert Lookup(t.pending, c) - {PacketName(p)} == Lookup(s.pending, c) - {PacketName(p)};
    }
  }

  lemma StepAgreesAt(s: Manager, log: seq<Op>, op: Op, c: Context, n: Name)
    requires AgreesAt(s, log, c, n)
    ensures AgreesAt(Step(s, op), log + [op], c, n)
  {
    match op
    case DoEnqueue(p) =>
      if Admissible(p) && PacketName(p) !in s.streams {
        AddStreamAgreesAt(s, log, p, c, n);
      } else {
        PublishAgreesAt(s, log, p, c, n);
      }
    case DoSubscribe(d, names) => SubscribeAgreesAt(s, log, d, names, c, n);
    case DoSubscribeToAll(d) => SubscribeToAllAgreesAt(s, log, d, c, n);
    case DoGetPackets(d) => FetchAgreesAt(s, log, d, c, n);
    case DoUnsubscribeFromAll(d) => UnsubscribeAgreesAt(s, log, d, c, n);
    case DoUnsubscribeAll => PurgeAgreesAt(s, log, c, n);
    case DoCount => LogStep(log, op, c, n);
  }

  lemma PublishCoherent(s: Manager, p: Packet)
    requires Coherent(s) && (!Admissible(p) || PacketName(p) in s.streams)
    ensures Coherent(EnqueuePacket(s, p))
  {
  }

  lemma FetchCoherent(s: Manager, c: Context)
    requires Coherent(s)
    ensures Coherent(GetPackets(s, c))
  {
  }

  lemma CountCoherent(s: Manager)
    requires Coherent(s)
    ensures Coherent(GetNumberOfSubscribers(s))
  {
  }

  lemma JoinCoherent(s: Manager, c: Context, names: set<Name>)
    requires Coherent(s)
    ensures Coherent(JoinNamed(s, c, names).(count := -1))
  {
    var missing := names - s.streams.Keys;
    assert missing != {} ==> Lookup(s.pending, c) + missing != {};
    var unjoined := Unjoined(s, c, names);
    assert unjoined != {} ==> Lookup(s.active, c) + unjoined != {};
  }

  lemma JoinAllCoherent(s: Manager, c: Context)
    requires Coherent(s)
    ensures Coherent(SubscribeToAll(s, c))
  {
    JoinCoherent(s, c, s.streams.Keys);
  }

  /** The cached count survives the creation of a stream: whoever leaves the pending map
      has become active, so nobody appears or disappears. */
  lemma AddStreamKeepsMembers(s: Manager, p: Packet)
    requires forall c <- s.pending :: s.pending[c] != {}
    ensures Members(AddStream(s, p)) == Members(s)
  {
    var n := PacketName(p);
    var t := AddStream(s, p);
    forall c | c in s.pending
      ensures c in t.active || c in t.pending
    {
      if s.pending[c] - {n} == {} {
        var m :| m in s.pending[c];
        assert m !in s.pending[c] - {n};
      }
    }
  }

  lemma AddStreamCoherent(s: Manager, p: Packet)
    requires Coherent(s)
    ensures Coherent(AddStream(s, p))
  {
    AddStreamKeepsMembers(s, p);
    var t := AddStream(s, p);
    forall c | c in t.active ensures t.active[c] != {} {
      if c in s.active {
        assert s.active[c] <= t.active[c];
      } else {
        assert PacketName(p) in t.active[c];
      }
    }
  }

  lemma LeaveCoherent(s: Manager, c: Context)
    requires Coherent(s)
    ensures Coherent(UnsubscribeFromAll(s, c))
  {
  }

  lemma PurgeCoherent(s: Manager)
    requires Coherent(s)
    ensures Coherent(UnsubscribeAll(s))
  {
  }

  lemma StepCoherent(s: Manager, op: Op)
    requires Coherent(s)
    ensures Coherent(Step(s, op))
  {
    match op
    case DoEnqueue(p) =>
      if Admissible(p) && PacketName(p) !in s.streams {
        AddStreamCoherent(s, p);
      } else {
        PublishCoherent(s, p);
      }
    case DoSubscribe(c, names) => JoinCoherent(s, c, names);
    case DoSubscribeToAll(c) => JoinAllCoherent(s, c);
    case DoGetPackets(c) => FetchCoherent(s, c);
    case DoUnsubscribeFromAll(c) => LeaveCoherent(s, c);
    case DoUnsubscribeAll => PurgeCoherent(s);
    case DoCount => CountCoherent(s);
  }

  /** The coupling holds in every reachable state. */
  lemma {:induction false} RunAgrees(limit: Limit, log: seq<Op>)
    ensures Agrees(Run(limit, log), log)
  {
    if log == [] {
    } else {
      RunAgrees(limit, Prior(log));
      var s := Run(limit, Prior(log));
      assert log == Prior(log) + [Last(log)];
      StepCoherent(s, Last(log));
      forall c, n ensures AgreesAt(Run(limit, log), log, c, n) {
        StepAgreesAt(s, Prior(log), Last(log), c, n);
      }
    }
  }

  lemma ActiveEnqueue(s: Manager, p: Packet, c: Context, n: Name)
    requires Subscribed(s, c, n) ==> n in Lookup(s.active, c)
    ensures n in Lookup(EnqueuePacket(s, p).active, c)
       <==> n in Lookup(s.active, c) || Subscribed(EnqueuePacket(s, p), c, n)
  {
    if Admissible(p) && PacketName(p) !in s.streams {
      var t := AddStream(s, p);
      assert Subscribed(t, c, n) <==> Subscribed(s, c, n) || (n == PacketName(p) && c in Waiting(s, n));
    }
  }

  lemma ActiveFetch(s: Manager, d: Context, c: Context, n: Name)
    requires Subscribed(s, c, n) ==> n in Lookup(s.active, c)
    ensures n in Lookup(GetPackets(s, d).active, c) <==> n in Lookup(s.active, c) || Subscribed(GetPackets(s, d), c, n)
  {
  }

  /** A context becomes active on a stream by subscribing to it and stops being active only by
      being removed itself. */
  lemma ActiveStep(s: Manager, log: seq<Op>, op: Op, c: Context, n: Name)
    requires AgreesAt(s, log, c, n)
    ensures n in Lookup(Step(s, op).active, c)
       <==> op != DoUnsubscribeFromAll(c) && (n in Lookup(s.active, c) || Subscribed(Step(s, op), c, n))
  {
    match op
    case DoEnqueue(p) => ActiveEnqueue(s, p, c, n);
    case DoSubscribe(d, names) => JoinEffect(s, d, names, c, n);
    case DoSubscribeToAll(d) => JoinEffect(s, d, s.streams.Keys, c, n);
    case DoGetPackets(d) => ActiveFetch(s, d, c, n);
    case DoUnsubscribeFromAll(d) => LeaveEffect(s, d, c, n);
    case DoUnsubscribeAll =>
    case DoCount =>
  }

  /** What the active map means after any run, purges included. */
  lemma {:induction false} ActiveIff(limit: Limit, log: seq<Op>, c: Context, n: Name)
    ensures n in Lookup(Run(limit, log).active, c) <==> EverReceived(log, c, n)
  {
    if log == [] {
    } else {
      ActiveIff(limit, Prior(log), c, n);
      RunAgrees(limit, Prior(log));
      RunAgrees(limit, log);
      assert AgreesAt(Run(limit, Prior(log)), Prior(log), c, n);
      assert AgreesAt(Run(limit, log), log, c, n);
      ActiveStep(Run(limit, Prior(log)), Prior(log), Last(log), c, n);
    }
  }

  // ----- Consequences for every run -----

  /** A context receives a stream if and only if the stream exists and, since its last
      removal, the context asked for it or for everything. */
  lemma SubscriptionRefinement(limit: Limit, log: seq<Op>, c: Context, n: Name)
    ensures var s := Run(limit, log);
      && (Subscribed(s, c, n) <==> Known(log, n) && (AskedFor(log, c, n) || AskedForAll(log, c)))
      && (n in Lookup(s.pending, c) <==> AskedFor(log, c, n) && !Known(log, n))
      && (c in s.pending ==> s.pending[c] != {})
      && (c in s.toAll <==> AskedForAll(log, c))
      && (n in Lookup(s.active, c) <==> EverReceived(log, c, n))
      && (Subscribed(s, c, n) ==> n in Lookup(s.active, c))
      && (NoPurge(log) ==> (Subscribed(s, c, n) <==> n in Lookup(s.active, c)))
  {
    ActiveIff(limit, log, c, n);
    RunAgrees(limit, log);
    assert AgreesAt(Run(limit, log), log, c, n);
  }

  /** The number reported is the true number of distinct subscribers, whether it was cached
      or recounted, after every run. */
  lemma CountCoherence(limit: Limit, log: seq<Op>)
    ensures var s := Run(limit, log);
      && NumberOfSubscribers(s) == |Members(s)|
      && (s.count >= 0 ==> s.count == |Members(s)|)
  {
    RunAgrees(limit, log);
  }

  ghost predicate IsAsking(log: seq<Op>, c: Context)
  {
    AskedForAll(log, c) || exists n :: AskedFor(log, c, n)
  }

  /** Whoever asked for something is counted; without a purge nobody else is. */
  lemma MembersAreAskers(limit: Limit, log: seq<Op>, c: Context)
    ensures IsAsking(log, c) ==> c in Members(Run(limit, log))
    ensures NoPurge(log) ==> (c in Members(Run(limit, log)) <==> IsAsking(log, c))
  {
    var s := Run(limit, log);
    RunAgrees(limit, log);
    if c in s.active && NoPurge(log) {
      var n :| n in s.active[c];
      assert AgreesAt(s, log, c, n);
    }
    if c in s.pending {
      var n :| n in s.pending[c];
      assert AgreesAt(s, log, c, n);
    }
    if n :| AskedFor(log, c, n) {
      assert AgreesAt(s, log, c, n);
    }
    assert AgreesAt(s, log, c, "");
  }

  lemma ActiveEmptyIff(limit: Limit, log: seq<Op>)
    ensures var s := Run(limit, log);
      && (s.active == map[] <==> forall c, n :: !EverReceived(log, c, n))
      && (NoPurge(log) ==> (s.active == map[] <==> forall c, n :: !Subscribed(s, c, n)))
  {
    var s := Run(limit, log);
    RunAgrees(limit, log);
    if s.active == map[] {
      forall c, n ensures !EverReceived(log, c, n) && !Subscribed(s, c, n) {
        ActiveIff(limit, log, c, n);
        assert AgreesAt(s, log, c, n);
      }
    } else {
      var c :| c in s.active;
      var n :| n in s.active[c];
      ActiveIff(limit, log, c, n);
      assert EverReceived(log, c, n);
      assert AgreesAt(s, log, c, n);
    }
  }

  lemma PurgeEffect(s: Manager)
    ensures var t := UnsubscribeAll(s);
      && (forall c, n :: !Subscribed(t, c, n))
      && t.pending == map[] && t.toAll == {} && t.active == s.active
      && t.count == |s.active.Keys|
      && (t.count == 0 <==> s.active == map[])
  {
    var t := s.(streams := Cleared(s.streams, s.streams.Keys),
                pending := map[], toAll := {}, count := -1);
    assert Members(t) == s.active.Keys;
    assert s.active.Keys == {} <==> s.active == map[];
  }

  /** Purging everyone empties all queues and requests, but the count it ends with is the
      number of contexts still in the active map. It is zero if and only if no context has
      received anything since its own last removal, which before the first purge means that
      nobody is subscribed to any stream. */
  lemma PurgeLeavesActive(limit: Limit, log: seq<Op>)
    ensures var s, t := Run(limit, log), Run(limit, log + [DoUnsubscribeAll]);
      && (forall c, n :: !Subscribed(t, c, n))
      && t.pending == map[] && t.toAll == {}
      && t.active == s.active && t.count == |s.active.Keys|
      && (t.count == 0 <==> forall c, n :: !EverReceived(log, c, n))
      && (NoPurge(log) ==> (t.count == 0 <==> forall c, n :: !Subscribed(s, c, n)))
  {
    var s := Run(limit, log);
    var log' := log + [DoUnsubscribeAll];
    assert Prior(log') == log && Last(log') == DoUnsubscribeAll;
    PurgeEffect(s);
    ActiveEmptyIff(limit, log);
  }

  /** The shortest run after which purging everyone leaves somebody: one context that wants
      everything and one packet. */
  lemma PurgeLeavesSomebody(limit: Limit, p: Packet)
    requires Admissible(p)
    ensures var log := [DoSubscribeToAll(1), DoEnqueue(p)];
      Run(limit, log + [DoUnsubscribeAll]).count > 0
  {
    var log := [DoSubscribeToAll(1), DoEnqueue(p)];
    var asked := [DoSubscribeToAll(1)];
    assert Prior(log) == asked && Last(asked) == DoSubscribeToAll(1);
    assert AskedForAll(asked, 1);
    assert AskedForAll(log, 1) && Known(log, PacketName(p));
    assert EverReceived(log, 1, PacketName(p));
    ActiveIff(limit, log, 1, PacketName(p));
    PurgeLeavesActive(limit, log);
    assert 1 in Run(limit, log).active.Keys;
  }

  lemma NobodyActiveWithoutStreams(s: Manager, log: seq<Op>)
    requires Agrees(s, log) && s.streams.Keys == {}
    ensures s.active == map[]
  {
    forall c, n ensures n !in Lookup(s.active, c) {
      assert AgreesAt(s, log, c, n);
    }
    assert forall c <- s.active :: Lookup(s.active, c) == {};
    assert s.active.Keys == {};
  }

  /** After any run whatever, even one with purges, removing a context leaves it nowhere and
      leaves everybody else's requests, subscriptions and queues alone. */
  lemma RemovalComplete(limit: Limit, log: seq<Op>, c: Context)
    ensures var s, t := Run(limit, log), Run(limit, log + [DoUnsubscribeFromAll(c)]);
      && c !in Members(t)
      && (forall n :: !Subscribed(t, c, n))
      && (forall d | d != c ::
            && (d in t.toAll <==> d in s.toAll)
            && (d in t.active <==> d in s.active) && Lookup(t.active, d) == Lookup(s.active, d)
            && (d in t.pending <==> d in s.pending) && Lookup(t.pending, d) == Lookup(s.pending, d))
      && (forall d, n | d != c ::
            (Subscribed(t, d, n) <==> Subscribed(s, d, n)) && Queue(t, d, n) == Queue(s, d, n))
  {
    var s := Run(limit, log);
    var log' := log + [DoUnsubscribeFromAll(c)];
    assert Prior(log') == log && Last(log') == DoUnsubscribeFromAll(c);
    RunAgrees(limit, log);
    if s.streams.Keys == {} {
      NobodyActiveWithoutStreams(s, log);
    }
  }
}
