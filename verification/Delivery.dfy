/** What becomes of every packet a subscriber is entitled to (src/stream.cpp,
    src/subscriptionManager.cpp). */
module Delivery {
  import opened Sequences
  import opened Utilities
  import opened Streams
  import opened Subscriptions
  import opened Refinement

  // ----- The history of one context on one stream since its last removal -----

  /** The operation hands a packet of stream `n` to context `c`. */
  ghost predicate Grants(log: seq<Op>, op: Op, c: Context, n: Name)
  {
    op.DoEnqueue? && Admissible(op.packet) && PacketName(op.packet) == n && Wanted(log, c, n)
  }

  /** Every packet enqueued on `n` while `c` wanted the stream; in particular the packet that
      creates a stream `c` was waiting for, and nothing from before `c` asked. */
  ghost function Entitled(log: seq<Op>, c: Context, n: Name): seq<Packet>
  {
    if log == [] || Removes(Last(log), c) then []
    else
      var earlier := Entitled(Prior(log), c, n);
      if Grants(Prior(log), Last(log), c, n) then earlier + [Last(log).packet] else earlier
  }

  /** The packets of `n` that fetches by `c` have returned. */
  ghost function Delivered(limit: Limit, log: seq<Op>, c: Context, n: Name): seq<Packet>
  {
    if log == [] || Removes(Last(log), c) then []
    else
      var earlier := Delivered(limit, Prior(log), c, n);
      if Last(log) == DoGetPackets(c) then earlier + Batch(Run(limit, Prior(log)), c, n) else earlier
  }

  /** For each entitled packet that has left the queue, oldest first: was it delivered (true)
      or dropped by an overflow (false)? */
  ghost function Fates(limit: Limit, log: seq<Op>, c: Context, n: Name): seq<bool>
  {
    if log == [] || Removes(Last(log), c) then []
    else
      var earlier := Fates(limit, Prior(log), c, n);
      var s := Run(limit, Prior(log));
      if Last(log) == DoGetPackets(c) then earlier + seq(Taken(s, c, n), _ => true)
      else if Grants(Prior(log), Last(log), c, n) && |Queue(s, c, n)| >= limit then earlier + [false]
      else earlier
  }

  // ----- How the queue moves -----

  lemma {:induction false} RunKeepsLimit(limit: Limit, log: seq<Op>)
    ensures Run(limit, log).limit == limit
  {
    if log == [] {
    } else {
      RunKeepsLimit(limit, Prior(log));
    }
  }

  lemma EnqueueQueue(s: Manager, log: seq<Op>, p: Packet, c: Context, n: Name)
    requires AgreesAt(s, log, c, n)
    ensures Queue(EnqueuePacket(s, p), c, n) ==
        if Grants(log, DoEnqueue(p), c, n) then Push(Queue(s, c, n), p, s.limit) else Queue(s, c, n)
  {
  }

  /** The effect of any operation on one context's queue of one stream. */
  lemma QueueStep(s: Manager, log: seq<Op>, op: Op, c: Context, n: Name)
    requires AgreesAt(s, log, c, n)
    ensures Queue(Step(s, op), c, n) ==
        if Removes(op, c) then []
        else if Grants(log, op, c, n) then Push(Queue(s, c, n), op.packet, s.limit)
        else if op == DoGetPackets(c) then Queue(s, c, n)[Taken(s, c, n)..]
        else Queue(s, c, n)
  {
    match op
    case DoEnqueue(p) => EnqueueQueue(s, log, p, c, n);
    case DoSubscribe(d, names) =>
    case DoSubscribeToAll(d) =>
    case DoGetPackets(d) =>
    case DoUnsubscribeFromAll(d) =>
    case DoUnsubscribeAll =>
    case DoCount =>
  }

  lemma StepDrawsFrom(s: Manager, log: seq<Op>, op: Op, c: Context, n: Name, p: Packet)
    requires AgreesAt(s, log, c, n) && p in Queue(Step(s, op), c, n)
    ensures p in Queue(s, c, n) || (op.DoEnqueue? && p == op.packet && PacketName(p) == n)
  {
    QueueStep(s, log, op, c, n);
  }

  /** In every reachable state each queue holds packets of its own stream only. */
  lemma {:induction false} RunWellNamed(limit: Limit, log: seq<Op>)
    ensures WellNamed(Run(limit, log))
  {
    if log == [] {
    } else {
      var rest, s := Prior(log), Run(limit, Prior(log));
      RunWellNamed(limit, rest);
      RunAgrees(limit, rest);
      forall c, n, p | p in Queue(Run(limit, log), c, n) ensures PacketName(p) == n {
        assert AgreesAt(s, rest, c, n);
        StepDrawsFrom(s, rest, Last(log), c, n, p);
      }
    }
  }

  /** The last admissible packet of stream `n`. */
  ghost function Latest(log: seq<Op>, n: Name): Packet
    requires Known(log, n)
  {
    var op := Last(log);
    if op.DoEnqueue? && Admissible(op.packet) && PacketName(op.packet) == n then op.packet
    else Latest(Prior(log), n)
  }

  lemma StepMostRecent(s: Manager, op: Op, n: Name)
    ensures var t := Step(s, op);
      if op.DoEnqueue? && Admissible(op.packet) && PacketName(op.packet) == n
      then n in t.streams && t.streams[n].mostRecent == op.packet
      else
        && (n in t.streams <==> n in s.streams)
        && (n in s.streams ==> t.streams[n].mostRecent == s.streams[n].mostRecent)
  {
  }

  /** What a stream would hand to a waiting context is always its latest packet. */
  lemma {:induction false} MostRecentIsLatest(limit: Limit, log: seq<Op>, n: Name)
    requires Known(log, n)
    ensures n in Run(limit, log).streams && Run(limit, log).streams[n].mostRecent == Latest(log, n)
  {
    var rest, op := Prior(log), Last(log);
    RunAgrees(limit, rest);
    assert AgreesAt(Run(limit, rest), rest, 0, n);
    if Known(rest, n) {
      MostRecentIsLatest(limit, rest, n);
    }
    StepMostRecent(Run(limit, rest), op, n);
  }

  // ----- The delivery theorem -----

  /** The queue is a bounded suffix of the entitled packets, every older packet has a fate,
      and the delivered packets are those whose fate was delivery. */
  ghost predicate Balanced(limit: Limit, entitled: seq<Packet>, fates: seq<bool>,
                           queue: seq<Packet>, delivered: seq<Packet>)
  {
    && |queue| <= limit
    && |fates| <= |entitled|
    && queue == entitled[|fates|..]
    && delivered == Select(entitled[..|fates|], fates)
  }

  lemma GrantBalances(limit: Limit, e: seq<Packet>, f: seq<bool>, q: seq<Packet>, d: seq<Packet>, p: Packet)
    requires Balanced(limit, e, f, q, d)
    ensures Balanced(limit, e + [p], if |q| >= limit then f + [false] else f, Push(q, p, limit), d)
  {
    var e' := e + [p];
    assert e'[|f|..] == q + [p];
    assert e'[..|f|] == e[..|f|];
    if |q| >= limit {
      assert e'[..|f| + 1] == e[..|f|] + [e[|f|]];
      SelectConcat(e[..|f|], [e[|f|]], f, [false]);
      assert Select([e[|f|]], [false]) == [];
    }
  }

  lemma FetchBalances(limit: Limit, e: seq<Packet>, f: seq<bool>, q: seq<Packet>, d: seq<Packet>, k: nat)
    requires Balanced(limit, e, f, q, d) && k <= |q|
    ensures Balanced(limit, e, f + seq(k, _ => true), q[k..], d + q[..k])
  {
    assert e[..|f| + k] == e[..|f|] + q[..k];
    SelectConcat(e[..|f|], q[..k], f, seq(k, _ => true));
    SelectAll(q[..k]);
  }

  ghost predicate LedgerBalances(limit: Limit, log: seq<Op>, c: Context, n: Name)
  {
    Balanced(limit, Entitled(log, c, n), Fates(limit, log, c, n),
             Queue(Run(limit, log), c, n), Delivered(limit, log, c, n))
  }

  /** After every run: the queue is a bounded contiguous suffix of the entitled packets, all
      the older ones were either delivered or dropped, and what was delivered is, in order
      and without repetition, exactly those not dropped. */
  lemma {:induction false} DeliveryLedger(limit: Limit, log: seq<Op>, c: Context, n: Name)
    ensures LedgerBalances(limit, log, c, n)
  {
    if log == [] {
    } else {
      var rest, op := Prior(log), Last(log);
      var s := Run(limit, rest);
      DeliveryLedger(limit, rest, c, n);
      RunKeepsLimit(limit, rest);
      RunAgrees(limit, rest);
      assert AgreesAt(s, rest, c, n);
      QueueStep(s, rest, op, c, n);
      var e, f := Entitled(rest, c, n), Fates(limit, rest, c, n);
      var q, d := Queue(s, c, n), Delivered(limit, rest, c, n);
      if Removes(op, c) {
      } else if Grants(rest, op, c, n) {
        GrantBalances(limit, e, f, q, d, op.packet);
      } else if op == DoGetPackets(c) {
        FetchBalances(limit, e, f, q, d, Taken(s, c, n));
      }
    }
  }

  /** Read as plain sequences: delivery preserves order. */
  lemma DeliveryInOrder(limit: Limit, log: seq<Op>, c: Context, n: Name)
    ensures Subsequence(Delivered(limit, log, c, n) + Queue(Run(limit, log), c, n), Entitled(log, c, n))
  {
    DeliveryLedger(limit, log, c, n);
    var e, f := Entitled(log, c, n), Fates(limit, log, c, n);
    SelectIsSubsequence(e[..|f|], f);
    SubsequenceRefl(e[|f|..]);
    SubsequenceConcat(Select(e[..|f|], f), e[..|f|], e[|f|..], e[|f|..]);
    assert e == e[..|f|] + e[|f|..];
  }

  /** At no point since its last removal was the reader more than `limit` packets behind. */
  ghost predicate KeepsUp(limit: Limit, log: seq<Op>, c: Context, n: Name)
  {
    || log == []
    || Removes(Last(log), c)
    || (|Entitled(log, c, n)| - |Delivered(limit, log, c, n)| <= limit && KeepsUp(limit, Prior(log), c, n))
  }

  lemma {:induction false} NoDropIff(limit: Limit, log: seq<Op>, c: Context, n: Name)
    ensures KeepsUp(limit, log, c, n) <==> false !in Fates(limit, log, c, n)
  {
    if log != [] && !Removes(Last(log), c) {
      var rest := Prior(log);
      NoDropIff(limit, rest, c, n);
      DeliveryLedger(limit, rest, c, n);
      DeliveryLedger(limit, log, c, n);
      SelectLength(Entitled(rest, c, n)[..|Fates(limit, rest, c, n)|], Fates(limit, rest, c, n));
      SelectLength(Entitled(log, c, n)[..|Fates(limit, log, c, n)|], Fates(limit, log, c, n));
    }
  }

  lemma LosslessBalance(limit: Limit, e: seq<Packet>, f: seq<bool>, q: seq<Packet>, d: seq<Packet>)
    requires Balanced(limit, e, f, q, d)
    ensures false !in f <==> d + q == e
  {
    assert e == e[..|f|] + e[|f|..];
    SelectLength(e[..|f|], f);
  }

  /** Nothing is lost exactly when the reader keeps up. */
  lemma LosslessIff(limit: Limit, log: seq<Op>, c: Context, n: Name)
    ensures KeepsUp(limit, log, c, n)
       <==> Delivered(limit, log, c, n) + Queue(Run(limit, log), c, n) == Entitled(log, c, n)
  {
    DeliveryLedger(limit, log, c, n);
    NoDropIff(limit, log, c, n);
    LosslessBalance(limit, Entitled(log, c, n), Fates(limit, log, c, n),
                    Queue(Run(limit, log), c, n), Delivered(limit, log, c, n));
  }

  // ----- Fetching -----

  /** One fetch from state `s` by `c`, as seen on stream `n`: it returns a prefix of the
      caller's own queue, one packet for each context active on the stream, makes progress
      if the queue is not empty and touches nobody else's queue. */
  ghost predicate FetchesExactly(s: Manager, c: Context, n: Name)
  {
    var t := GetPackets(s, c);
    var available, pollers := |Queue(s, c, n)|, |Pollers(s.active, n)|;
    && Batch(s, c, n) + Queue(t, c, n) == Queue(s, c, n)
    && |Batch(s, c, n)| == (if available <= pollers then available else pollers)
    && (available > 0 ==> |Batch(s, c, n)| > 0)
    && (forall d | d != c :: Queue(t, d, n) == Queue(s, d, n))
  }

  lemma FetchQueue(s: Manager, c: Context, d: Context, n: Name)
    ensures Queue(GetPackets(s, c), d, n) == if d == c then Queue(s, c, n)[Taken(s, c, n)..] else Queue(s, d, n)
  {
  }

  lemma SubscriberPolls(s: Manager, c: Context, n: Name)
    requires n in Lookup(s.active, c)
    ensures |Pollers(s.active, n)| >= 1
  {
    assert c in Pollers(s.active, n);
  }

  lemma FetchFromState(s: Manager, c: Context, n: Name)
    requires Subscribed(s, c, n) ==> n in Lookup(s.active, c)
    ensures FetchesExactly(s, c, n)
  {
    FetchQueue(s, c, c, n);
    if Queue(s, c, n) != [] {
      SubscriberPolls(s, c, n);
    }
    forall d | d != c ensures Queue(GetPackets(s, c), d, n) == Queue(s, d, n) {
      FetchQueue(s, c, d, n);
    }
  }

  /** Every fetch in every reachable state is exact. */
  lemma FetchExact(limit: Limit, log: seq<Op>, c: Context, n: Name)
    ensures FetchesExactly(Run(limit, log), c, n)
  {
    SubscriptionRefinement(limit, log, c, n);
    FetchFromState(Run(limit, log), c, n);
  }

  /** `k` fetches by `c` with nothing else going on. */
  function Fetches(c: Context, k: nat): (r: seq<Op>)
    ensures |r| == k
  {
    if k == 0 then [] else Fetches(c, k - 1) + [DoGetPackets(c)]
  }

  /** One more fetch moves a batch from the queue to the reader, a non-empty one if possible. */
  lemma FetchMoves(limit: Limit, log: seq<Op>, c: Context, n: Name)
    ensures var later := log + [DoGetPackets(c)];
      && Delivered(limit, later, c, n) + Queue(Run(limit, later), c, n)
         == Delivered(limit, log, c, n) + Queue(Run(limit, log), c, n)
      && (Queue(Run(limit, log), c, n) != [] ==> |Queue(Run(limit, later), c, n)| < |Queue(Run(limit, log), c, n)|)
      && (Queue(Run(limit, log), c, n) == [] ==> Queue(Run(limit, later), c, n) == [])
  {
    var later := log + [DoGetPackets(c)];
    assert Prior(later) == log && Last(later) == DoGetPackets(c);
    FetchExact(limit, log, c, n);
  }

  /** Repeated fetching moves packets from the queue to the reader without loss, and the
      queue shrinks with every call: as many calls as the queue bound drain everything. */
  lemma {:induction false} FetchesDrain(limit: Limit, log: seq<Op>, c: Context, n: Name, k: nat)
    ensures var later := log + Fetches(c, k);
      && Delivered(limit, later, c, n) + Queue(Run(limit, later), c, n)
         == Delivered(limit, log, c, n) + Queue(Run(limit, log), c, n)
      && |Queue(Run(limit, later), c, n)| <= (if k < limit then limit - k else 0)
  {
    var later := log + Fetches(c, k);
    if k == 0 {
      assert later == log;
      DeliveryLedger(limit, log, c, n);
    } else {
      var before := log + Fetches(c, k - 1);
      assert later == before + [DoGetPackets(c)];
      FetchesDrain(limit, log, c, n, k - 1);
      FetchMoves(limit, before, c, n);
    }
  }
}
