/** The subscription manager as the service runs it: maps updated in place and one Stream
    object per stream (src/subscriptionManager.cpp). Every operation is proved against the
    state functions of module Subscriptions. */
module SubscriptionManagers {
  import opened Wrappers
  import opened Sequences
  import opened Utilities
  import opened Streams
  import P = Polling
  import S = Subscriptions

  // ----- Facts about the state functions that let the loops go one element at a time -----

  lemma ActivateTwice(active: map<Context, set<Name>>, a: set<Context>, b: set<Context>, n: Name)
    ensures S.Activate(S.Activate(active, a, n), b, n) == S.Activate(active, a + b, n)
  {
    var u, v := S.Activate(S.Activate(active, a, n), b, n), S.Activate(active, a + b, n);
    assert u.Keys == v.Keys;
    forall c | c in u ensures u[c] == v[c] {
      if c in b && c in a {
        assert S.Lookup(active, c) + {n} + {n} == S.Lookup(active, c) + {n};
      }
    }
  }

  lemma ActivateFew(active: map<Context, set<Name>>, c: Context, n: Name)
    ensures S.Activate(active, {}, n) == active
    ensures S.Activate(active, {c}, n) == active[c := S.Lookup(active, c) + {n}]
    ensures n in S.Lookup(active, c) ==> S.Activate(active, {c}, n) == active
  {
    assert S.Activate(active, {}, n).Keys == active.Keys;
    assert S.Activate(active, {c}, n).Keys == active.Keys + {c};
    if n in S.Lookup(active, c) {
      assert S.Lookup(active, c) + {n} == active[c];
    }
  }

  /** Joining and activating the same contexts keeps subscribers among the active. */
  lemma JoinedAreActive(st: StreamState, active: map<Context, set<Name>>, cs: set<Context>, n: Name)
    requires forall c <- st.queues :: n in S.Lookup(active, c)
    ensures forall c <- JoinAll(st, cs).queues :: n in S.Lookup(S.Activate(active, cs, n), c)
  {
  }

  lemma StrikeNone(pending: map<Context, set<Name>>, n: Name)
    ensures S.Strike(pending, {}, n) == pending
  {
    assert S.Strike(pending, {}, n).Keys == pending.Keys;
  }

  lemma ServedStep(pending: map<Context, set<Name>>, n: Name, done: set<Context>, c: Context)
    requires c in pending
    ensures (done + {c}) * S.Askers(pending, n)
         == done * S.Askers(pending, n) + if n in pending[c] then {c} else {}
  {
  }

  lemma StrikeMore(pending: map<Context, set<Name>>, cs: set<Context>, c: Context, n: Name)
    requires c in pending && cs <= pending.Keys
    ensures var struck := S.Strike(pending, cs, n);
      struck[c := struck[c] - {n}] == S.Strike(pending, cs + {c}, n)
  {
    var u, v := S.Strike(pending, cs, n)[c := S.Strike(pending, cs, n)[c] - {n}], S.Strike(pending, cs + {c}, n);
    assert u.Keys == v.Keys;
    forall d | d in u ensures u[d] == v[d] {
      if d == c && c in cs {
        assert pending[c] - {n} - {n} == pending[c] - {n};
      }
    }
  }

  lemma AddNamesTwice(m: map<Context, set<Name>>, c: Context, a: set<Name>, b: set<Name>)
    ensures S.AddNames(S.AddNames(m, c, a), c, b) == S.AddNames(m, c, a + b)
  {
    if a == {} {
      assert a + b == b;
    } else if b == {} {
      assert a + b == a;
    } else {
      assert S.Lookup(m, c) + a + b == S.Lookup(m, c) + (a + b);
    }
  }

  lemma UnjoinedTwice(s: S.Manager, c: Context, a: set<Name>, b: set<Name>)
    ensures S.JoinNamed(s, c, a).streams.Keys == s.streams.Keys
    ensures S.Unjoined(s, c, a + b) == S.Unjoined(s, c, a) + S.Unjoined(S.JoinNamed(s, c, a), c, b)
  {
  }

  lemma JoinTwice(s: S.Manager, c: Context, a: set<Name>, b: set<Name>)
    ensures S.JoinNamed(S.JoinNamed(s, c, a), c, b) == S.JoinNamed(s, c, a + b)
  {
    var t := S.JoinNamed(s, c, a);
    var u, v := S.JoinNamed(t, c, b), S.JoinNamed(s, c, a + b);
    UnjoinedTwice(s, c, a, b);
    assert u.streams.Keys == v.streams.Keys;
    AddNamesTwice(s.active, c, S.Unjoined(s, c, a), S.Unjoined(t, c, b));
    assert (a + b) - s.streams.Keys == (a - s.streams.Keys) + (b - s.streams.Keys);
    AddNamesTwice(s.pending, c, a - s.streams.Keys, b - s.streams.Keys);
    assert u.streams == v.streams;
  }

  lemma JoinNothing(s: S.Manager, c: Context)
    ensures S.JoinNamed(s, c, {}) == s
  {
    assert S.JoinNamed(s, c, {}).streams == s.streams by {
      assert S.JoinNamed(s, c, {}).streams.Keys == s.streams.Keys;
    }
    assert S.Unjoined(s, c, {}) == {};
  }

  /** Joining by a single name touches one stream, or one pending request. */
  lemma JoinOneName(s: S.Manager, c: Context, n: Name)
    ensures S.JoinNamed(s, c, {n}) ==
        if n !in s.streams then s.(pending := S.AddNames(s.pending, c, {n}))
        else if c in s.streams[n].queues then s
        else s.(streams := s.streams[n := Join(s.streams[n], c, false)], active := S.AddNames(s.active, c, {n}))
  {
    var t := S.JoinNamed(s, c, {n});
    assert t.streams.Keys == s.streams.Keys;
    assert S.Unjoined(s, c, {n}) == if n in s.streams && c !in s.streams[n].queues then {n} else {};
    assert {n} - s.streams.Keys == if n in s.streams then {} else {n};
    if n in s.streams {
      assert t.streams == s.streams[n := Join(s.streams[n], c, false)];
    } else {
      assert t.streams == s.streams;
    }
  }

  lemma LeaveNothing(s: S.Manager, c: Context)
    ensures S.LeaveNamed(s, c, {}) == s
  {
    assert S.LeaveNamed(s, c, {}).streams == s.streams by {
      assert S.LeaveNamed(s, c, {}).streams.Keys == s.streams.Keys;
    }
  }

  lemma LeaveOneName(s: S.Manager, c: Context, n: Name)
    requires n in s.streams
    ensures S.LeaveNamed(s, c, {n})
         == s.(streams := s.streams[n := Leave(s.streams[n], c)], active := s.active - {c})
  {
    assert S.LeaveNamed(s, c, {n}).streams.Keys == s.streams.Keys;
  }

  lemma NamesOfMore(ids: seq<StreamIdentifier>, id: StreamIdentifier)
    ensures S.Names(ids + [id]) == S.Names(ids) + {ToName(id)}
  {
    assert forall x :: x in ids + [id] <==> x in ids || x == id;
  }

  lemma NamesOfPrefix(ids: seq<StreamIdentifier>, i: nat)
    requires i < |ids|
    ensures S.Names(ids[..i + 1]) == S.Names(ids[..i]) + {ToName(ids[i])}
  {
    assert ids[..i + 1] == ids[..i] + [ids[i]];
    NamesOfMore(ids[..i], ids[i]);
  }

  lemma LeaveTwice(s: S.Manager, c: Context, a: set<Name>, b: set<Name>)
    requires a + b <= s.streams.Keys
    ensures S.LeaveNamed(S.LeaveNamed(s, c, a), c, b) == S.LeaveNamed(s, c, a + b)
  {
    var t := S.LeaveNamed(s, c, a);
    var u, v := S.LeaveNamed(t, c, b), S.LeaveNamed(s, c, a + b);
    assert u.streams.Keys == v.streams.Keys;
    forall n | n in u.streams ensures u.streams[n] == v.streams[n] {
      assert Leave(Leave(s.streams[n], c), c) == Leave(s.streams[n], c);
    }
    assert u.active == v.active;
  }

  lemma ClearNone(streams: map<Name, StreamState>)
    ensures S.Cleared(streams, {}) == streams
  {
    assert S.Cleared(streams, {}).Keys == streams.Keys;
  }

  lemma ClearMore(streams: map<Name, StreamState>, names: set<Name>, n: Name)
    requires n in streams && names <= streams.Keys
    ensures var t := S.Cleared(streams, names);
      t[n := t[n].(queues := map[])] == S.Cleared(streams, names + {n})
  {
    var t := S.Cleared(streams, names);
    assert t[n := t[n].(queues := map[])].Keys == S.Cleared(streams, names + {n}).Keys;
  }

  lemma JoinReaches(s: S.Manager, c: Context, names: set<Name>, n: Name)
    requires n in names
    ensures S.Subscribed(S.JoinNamed(s, c, names), c, n) || S.Awaits(S.JoinNamed(s, c, names), c, n)
  {
    var t := S.JoinNamed(s, c, names);
    if n !in s.streams {
      assert n in names - s.streams.Keys;
      assert n in t.pending[c];
    }
  }

  /** Every selected stream reaches the context, or is pending until it exists. */
  lemma SubscribeReaches(s: S.Manager, c: Context, ids: seq<StreamIdentifier>)
    ensures var t := S.Subscribe(s, c, S.Names(ids));
      forall id <- ids :: S.Subscribed(t, c, ToName(id)) || S.Awaits(t, c, ToName(id))
  {
    var t := S.Subscribe(s, c, S.Names(ids));
    forall id <- ids ensures S.Subscribed(t, c, ToName(id)) || S.Awaits(t, c, ToName(id)) {
      assert ToName(id) in S.Names(ids);
      JoinReaches(s, c, S.Names(ids), ToName(id));
    }
  }

  class SubscriptionManager {
    const maximumQueueSize: S.Limit
    var streams: map<Name, Stream>
    var active: map<Context, set<Name>>
    var pending: map<Context, set<Name>>
    var toAll: set<Context>
    var numberOfSubscribers: int
    ghost var Repr: set<Stream>
    ghost var States: map<Name, StreamState>  // the values of the streams

    ghost predicate Valid()
      reads this, Repr
    {
      && States.Keys == streams.Keys
      && forall n <- streams ::
           && streams[n] in Repr && streams[n].Valid() && streams[n].View() == States[n]
           && streams[n].identifier == n && streams[n].maximumQueueSize == maximumQueueSize
    }

    ghost function View(): S.Manager
      reads this
    {
      S.Manager(maximumQueueSize, States, active, pending, toAll, numberOfSubscribers)
    }

    constructor (maximumQueueSize: S.Limit)
      ensures Valid() && View() == S.Initial(maximumQueueSize) && Repr == {}
    {
      this.maximumQueueSize := maximumQueueSize;
      streams, active, pending, toAll, numberOfSubscribers := map[], map[], map[], {}, -1;
      Repr, States := {}, map[];
    }

    method AddToActiveSubscriptionsMap(c: Context, n: Name)
      modifies this`active
      ensures active == S.AddNames(old(active), c, {n})
    {
      if c in active {
        active := active[c := active[c] + {n}];
      } else {
        assert S.Lookup(active, c) + {n} == {n};
        active := active[c := {n}];
      }
    }

    // ----- Enqueueing -----

    /** Refuses a packet for any one of five defects, and for nothing else. */
    method CheckPacket(packet: Packet) returns (r: Outcome)
      ensures r.Pass? <==> S.Admissible(packet)
      ensures packet.identifier == None ==> r.Fail?
      ensures packet.numberOfSamples == None ==> r.Fail?
      ensures packet.dataType == Unknown ==> r.Fail?
      ensures packet.samplingRate <= 0.0 ==> r.Fail?
      ensures packet.data == None ==> r.Fail?
      ensures packet.identifier != None && packet.numberOfSamples != None && packet.data != None
              && packet.samplingRate > 0.0 && packet.dataType in {Integer32, Integer64, Float, Double, Text}
              ==> r.Pass?
    {
      if packet.identifier.None? {
        return Fail("Stream identifier not set");
      }
      if packet.numberOfSamples.None? {
        return Fail("Number of samples not set");
      }
      if packet.dataType.Unknown? {
        return Fail("Undefined data type");
      }
      if packet.samplingRate <= 0.0 {
        return Fail("Sampling rate not positive");
      }
      if packet.data.None? {
        return Fail("Data not set");
      }
      return Pass;
    }

    method EnqueuePacket(packet: Packet) returns (r: Outcome)
      requires Valid()
      modifies this, Repr
      ensures Valid() && fresh(Repr - old(Repr))
      ensures r.Pass? <==> S.Admissible(packet)
      ensures View() == S.EnqueuePacket(old(View()), packet)
      ensures r.Fail? ==> View() == old(View())
      ensures packet.identifier == None ==> r.Fail?
      ensures packet.numberOfSamples == None ==> r.Fail?
      ensures packet.dataType == Unknown ==> r.Fail?
      ensures packet.samplingRate <= 0.0 ==> r.Fail?
      ensures packet.data == None ==> r.Fail?
      ensures packet.identifier != None && packet.numberOfSamples != None && packet.data != None
              && packet.samplingRate > 0.0 && packet.dataType in {Integer32, Integer64, Float, Double, Text}
              ==> r.Pass? && ToName(packet.identifier.value) in States
    {
      r := CheckPacket(packet);
      if r.Fail? {
        return;
      }
      if PacketName(packet) in streams {
        r := PublishPacket(packet);
      } else {
        CreateStream(packet);
        r := Pass;
      }
    }

    /** The stream's own identity check cannot fail here: packets are routed by name. */
    method PublishPacket(packet: Packet) returns (r: Outcome)
      requires Valid() && PacketName(packet) in streams
      modifies this`States, streams[PacketName(packet)]
      ensures Valid() && r.Pass?
      ensures var n, s := PacketName(packet), old(View());
          View() == s.(streams := s.streams[n := Publish(s.streams[n], packet, s.limit)])
    {
      var stream := streams[PacketName(packet)];
      r := stream.SetNextPacket(packet);
      States := States[stream.identifier := stream.View()];
    }

    method CreateStream(packet: Packet)
      requires Valid() && PacketName(packet) !in streams
      modifies this
      ensures Valid() && fresh(Repr - old(Repr))
      ensures View() == S.AddStream(old(View()), packet)
    {
      var stream := new Stream(packet, maximumQueueSize);
      NotifyWaiting(stream);
      InsertStream(stream);
    }

    method InsertStream(stream: Stream)
      requires Valid() && stream.Valid()
      requires stream.identifier !in streams && stream.maximumQueueSize == maximumQueueSize
      modifies this`streams, this`Repr, this`States
      ensures Valid() && Repr == old(Repr) + {stream}
      ensures States == old(States)[stream.identifier := stream.View()]
    {
      streams := streams[stream.identifier := stream];
      Repr := Repr + {stream};
      States := States[stream.identifier := stream.View()];
    }

    /** Hands a new stream to everyone who waited for it and settles their requests. */
    method NotifyWaiting(stream: Stream)
      requires stream.Valid() && stream.View().queues == map[]
      modifies this`active, this`pending, stream
      ensures var n := stream.identifier;
          var waiting := toAll + S.Askers(old(pending), n);
          && stream.Valid() && stream.View() == JoinAll(old(stream.View()), waiting)
          && active == S.Activate(old(active), waiting, n)
          && pending == S.Settle(S.Strike(old(pending), old(pending).Keys, n))
    {
      ghost var n, askers := stream.identifier, S.Askers(pending, stream.identifier);
      ActivateTwice(active, toAll, askers, n);
      JoinAllMore(stream.View(), toAll, askers);
      JoinedAreActive(stream.View(), active, toAll, n);
      SubscribeThoseWaitingForAll(stream);
      SubscribeThoseWaitingFor(stream);
      PurgeFilledRequests();
    }

    /** Subscribes one waiting context to a new stream. */
    method SubscribeWaiter(stream: Stream, c: Context)
      requires stream.Valid()
      requires c in stream.View().queues ==> stream.identifier in S.Lookup(active, c)
      modifies this`active, stream
      ensures stream.Valid() && stream.View() == JoinAll(old(stream.View()), {c})
      ensures active == S.Activate(old(active), {c}, stream.identifier)
    {
      JoinAllFew(stream.View(), c);
      ActivateFew(active, c, stream.identifier);
      var added := stream.Subscribe(c, true);
      if added {
        AddToActiveSubscriptionsMap(c, stream.identifier);
      }
    }

    method SubscribeThoseWaitingForAll(stream: Stream)
      requires stream.Valid() && stream.View().queues == map[]
      modifies this`active, stream
      ensures stream.Valid() && stream.View() == JoinAll(old(stream.View()), toAll)
      ensures active == S.Activate(old(active), toAll, stream.identifier)
    {
      var todo := toAll;
      JoinAllFew(stream.View(), 0);
      ActivateFew(active, 0, stream.identifier);
      NoneDone(toAll);
      while todo != {}
        invariant todo <= toAll
        invariant stream.Valid() && stream.View() == JoinAll(old(stream.View()), toAll - todo)
        invariant active == S.Activate(old(active), toAll - todo, stream.identifier)
      {
        var c :| c in todo;
        OneMoreDone(toAll, todo, c);
        ActivateTwice(old(active), toAll - todo, {c}, stream.identifier);
        JoinAllMore(old(stream.View()), toAll - todo, {c});
        SubscribeWaiter(stream, c);
        todo := todo - {c};
      }
    }

    /** Serves one context's pending request for a new stream, if it has one. */
    method ServeRequest(stream: Stream, c: Context)
      requires stream.Valid() && c in pending
      requires c in stream.View().queues ==> stream.identifier in S.Lookup(active, c)
      modifies this`active, this`pending, stream
      ensures var n := stream.identifier;
          var served := if n in old(pending)[c] then {c} else {};
          && stream.Valid() && stream.View() == JoinAll(old(stream.View()), served)
          && active == S.Activate(old(active), served, n)
          && pending == old(pending)[c := old(pending)[c] - {n}]
    {
      JoinAllFew(stream.View(), c);
      ActivateFew(active, c, stream.identifier);
      if stream.identifier in pending[c] {
        SubscribeWaiter(stream, c);
        pending := pending[c := pending[c] - {stream.identifier}];
      } else {
        assert pending[c] - {stream.identifier} == pending[c];
      }
    }

    /** Whoever asked for this stream by name joins it, if not already there through a
        request for everything, and the name is struck from the pending requests. */
    method SubscribeThoseWaitingFor(stream: Stream)
      requires stream.Valid()
      requires forall c <- stream.View().queues :: stream.identifier in S.Lookup(active, c)
      modifies this`active, this`pending, stream
      ensures var n := stream.identifier;
          var askers := S.Askers(old(pending), n);
          && stream.Valid() && stream.View() == JoinAll(old(stream.View()), askers)
          && active == S.Activate(old(active), askers, n)
          && pending == S.Strike(old(pending), old(pending).Keys, n)
    {
      ghost var n, was, joined := stream.identifier, pending, stream.View();
      ghost var askers, served := S.Askers(pending, n), {};
      var todo := pending.Keys;
      JoinAllFew(joined, 0);
      ActivateFew(active, 0, n);
      NoneDone(was.Keys);
      StrikeNone(was, n);
      while todo != {}
        invariant todo <= was.Keys && served == (was.Keys - todo) * askers
        invariant pending == S.Strike(was, was.Keys - todo, n)
        invariant stream.Valid() && stream.View() == JoinAll(joined, served)
        invariant active == S.Activate(old(active), served, n)
      {
        var c :| c in todo;
        OneMoreDone(was.Keys, todo, c);
        ghost var one := if n in was[c] then {c} else {};
        ServedStep(was, n, was.Keys - todo, c);
        ActivateTwice(old(active), served, one, n);
        JoinAllMore(joined, served, one);
        StrikeMore(was, was.Keys - todo, c, n);
        JoinedAreActive(joined, old(active), served, n);
        ServeRequest(stream, c);
        todo, served := todo - {c}, served + one;
      }
      assert was.Keys * askers == askers;
    }

    method PurgeFilledRequests()
      modifies this`pending
      ensures pending == S.Settle(old(pending))
    {
      var todo := pending.Keys;
      while todo != {}
        invariant todo <= pending.Keys <= old(pending).Keys
        invariant forall c <- old(pending) :: c in pending <==> c in todo || old(pending)[c] != {}
        invariant forall c <- pending :: pending[c] == old(pending)[c]
      {
        var c :| c in todo;
        if pending[c] == {} {
          pending := pending - {c};
        }
        todo := todo - {c};
      }
    }

    // ----- Subscribing -----

    /** Drops selections whose name occurred before. */
    static method Deduplicate(ids: seq<StreamIdentifier>) returns (selections: seq<StreamIdentifier>)
      ensures S.Names(selections) == S.Names(ids)
      ensures forall i, j :: 0 <= i < j < |selections| ==> ToName(selections[i]) != ToName(selections[j])
      ensures forall id <- selections :: id in ids
    {
      selections := [];
      var existing: set<Name> := {};
      for i := 0 to |ids|
        invariant existing == S.Names(selections) == S.Names(ids[..i])
        invariant forall j, k :: 0 <= j < k < |selections| ==> ToName(selections[j]) != ToName(selections[k])
        invariant forall id <- selections :: id in ids
      {
        NamesOfPrefix(ids, i);
        var name := ToName(ids[i]);
        if name !in existing {
          NamesOfMore(selections, ids[i]);
          selections := selections + [ids[i]];
          existing := existing + {name};
        }
      }
      assert ids[..|ids|] == ids;
    }

    method Subscribe(c: Context, ids: seq<StreamIdentifier>) returns (r: Outcome)
      requires Valid()
      modifies this`active, this`pending, this`States, this`numberOfSubscribers, Repr
      ensures Valid()
      ensures r.Pass? <==> ids != []
      ensures View() == S.Subscribe(old(View()), c, S.Names(ids))
      ensures forall id <- ids :: S.Subscribed(View(), c, ToName(id)) || S.Awaits(View(), c, ToName(id))
    {
      if ids == [] {
        return Fail("No streams selected");
      }
      assert ToName(ids[0]) in S.Names(ids);
      SubscribeReaches(View(), c, ids);
      var selections := Deduplicate(ids);
      SubscribeSelections(c, selections);
      return Pass;
    }

    method SubscribeSelections(c: Context, ids: seq<StreamIdentifier>)
      requires Valid()
      modifies this`active, this`pending, this`States, this`numberOfSubscribers, Repr
      ensures Valid()
      ensures View() == S.JoinNamed(old(View()), c, S.Names(ids)).(count := -1)
    {
      ghost var s := View();
      JoinNothing(s, c);
      assert S.Names(ids[..0]) == {};
      for i := 0 to |ids|
        invariant Valid()
        invariant View() == S.JoinNamed(s, c, S.Names(ids[..i]))
      {
        NamesOfPrefix(ids, i);
        JoinTwice(s, c, S.Names(ids[..i]), {ToName(ids[i])});
        SubscribeName(c, ToName(ids[i]));
      }
      assert ids[..|ids|] == ids;
      numberOfSubscribers := -1;
    }

    /** Joins the stream if it exists; otherwise the name becomes pending. */
    method SubscribeName(c: Context, n: Name)
      requires Valid()
      modifies this`active, this`pending, this`States, Repr
      ensures Valid()
      ensures View() == S.JoinNamed(old(View()), c, {n})
    {
      JoinOneName(View(), c, n);
      if n in streams {
        JoinStream(c, n);
      } else if c in pending {
        if n in pending[c] {
          assert pending[c] + {n} == pending[c];
          assert S.AddNames(pending, c, {n}) == pending;
        } else {
          pending := pending[c := pending[c] + {n}];
        }
      } else {
        assert S.Lookup(pending, c) + {n} == {n};
        pending := pending[c := {n}];
      }
    }

    /** A late joiner gets nothing that was published before. */
    method JoinStream(c: Context, n: Name)
      requires Valid() && n in streams
      modifies this`active, this`States, streams[n]
      ensures Valid()
      ensures View() == S.JoinNamed(old(View()), c, {n})
    {
      JoinOneName(View(), c, n);
      var added := JoinQueue(c, n);
      if added {
        AddToActiveSubscriptionsMap(c, n);
      }
    }

    method JoinQueue(c: Context, n: Name) returns (added: bool)
      requires Valid() && n in streams
      modifies this`States, streams[n]
      ensures Valid()
      ensures added <==> c !in old(States)[n].queues
      ensures States == if added then old(States)[n := Join(old(States)[n], c, false)] else old(States)
    {
      var stream := streams[n];
      added := stream.Subscribe(c, false);
      if added {
        States := States[n := stream.View()];
      }
    }

    method SubscribeToAll(c: Context)
      requires Valid()
      modifies this`active, this`States, this`toAll, this`numberOfSubscribers, Repr
      ensures Valid()
      ensures View() == S.SubscribeToAll(old(View()), c)
    {
      if c in toAll {
        return;
      }
      JoinAllStreams(c);
      toAll := toAll + {c};
      numberOfSubscribers := -1;
    }

    method JoinAllStreams(c: Context)
      requires Valid()
      modifies this`active, this`States, Repr
      ensures Valid()
      ensures View() == S.JoinNamed(old(View()), c, old(View()).streams.Keys)
    {
      ghost var s := View();
      JoinNothing(s, c);
      var todo := streams.Keys;
      NoneDone(s.streams.Keys);
      while todo != {}
        invariant todo <= s.streams.Keys
        invariant Valid()
        invariant View() == S.JoinNamed(s, c, s.streams.Keys - todo)
      {
        var n :| n in todo;
        JoinTwice(s, c, s.streams.Keys - todo, {n});
        OneMoreDone(s.streams.Keys, todo, n);
        JoinStream(c, n);
        todo := todo - {n};
      }
    }

    // ----- Leaving -----

    method UnsubscribeFromAll(c: Context)
      requires Valid()
      modifies this`active, this`pending, this`States, this`toAll, this`numberOfSubscribers, Repr
      ensures Valid()
      ensures View() == S.UnsubscribeFromAll(old(View()), c)
    {
      pending := pending - {c};
      toAll := toAll - {c};
      LeaveAllStreams(c);
      numberOfSubscribers := -1;
    }

    method LeaveAllStreams(c: Context)
      requires Valid()
      modifies this`active, this`States, Repr
      ensures Valid()
      ensures View() == S.LeaveNamed(old(View()), c, old(View()).streams.Keys)
    {
      ghost var s := View();
      LeaveNothing(s, c);
      var purged := false;
      var todo := streams.Keys;
      NoneDone(s.streams.Keys);
      while todo != {}
        invariant todo <= s.streams.Keys
        invariant Valid()
        invariant View() == S.LeaveNamed(s, c, s.streams.Keys - todo)
        invariant purged ==> c !in active
      {
        var n :| n in todo;
        LeaveTwice(s, c, s.streams.Keys - todo, {n});
        OneMoreDone(s.streams.Keys, todo, n);
        purged := LeaveStream(c, n, purged);
        todo := todo - {n};
      }
    }

    /** Leaves one stream. The context stops being active when it really was a subscriber and
        had not been purged yet, or when it was noted as active without being one. */
    method LeaveStream(c: Context, n: Name, purged: bool) returns (nowPurged: bool)
      requires Valid() && n in streams
      requires purged ==> c !in active
      modifies this`active, this`States, streams[n]
      ensures Valid()
      ensures nowPurged ==> c !in active
      ensures View() == S.LeaveNamed(old(View()), c, {n})
    {
      LeaveOneName(View(), c, n);
      nowPurged := purged;
      var response := LeaveQueue(c, n);
      match response {
        case Unsubscribed =>
          if !nowPurged {
            active := active - {c};
            nowPurged := true;
          }
        case NeverSubscribed =>
          if c in active {
            active := active - {c};
            nowPurged := true;
          }
      }
    }

    method LeaveQueue(c: Context, n: Name) returns (response: UnsubscribeResponse)
      requires Valid() && n in streams
      modifies this`States, streams[n]
      ensures Valid()
      ensures response.Unsubscribed? <==> c in old(States)[n].queues
      ensures States == old(States)[n := Leave(old(States)[n], c)]
    {
      var stream := streams[n];
      response := stream.Unsubscribe(c);
      States := States[n := stream.View()];
    }

    method UnsubscribeAll()
      requires Valid()
      modifies this`pending, this`States, this`toAll, this`numberOfSubscribers, Repr
      ensures Valid()
      ensures View() == S.UnsubscribeAll(old(View()))
    {
      numberOfSubscribers := -1;
      pending, toAll := map[], {};
      ClearStreams();
      var remaining := GetNumberOfSubscribers();
    }

    method ClearStreams()
      requires Valid()
      modifies this`States, Repr
      ensures Valid()
      ensures States == S.Cleared(old(States), old(States).Keys)
    {
      ghost var was := States;
      var todo := streams.Keys;
      ClearNone(was);
      NoneDone(was.Keys);
      while todo != {}
        invariant todo <= was.Keys
        invariant Valid()
        invariant States == S.Cleared(was, was.Keys - todo)
      {
        var n :| n in todo;
        ClearMore(was, was.Keys - todo, n);
        OneMoreDone(was.Keys, todo, n);
        var stream := streams[n];
        stream.UnsubscribeAll();
        States := States[n := stream.View()];
        todo := todo - {n};
      }
    }

    // ----- Fetching -----

    /** Walks the active set of every context, not just the caller's, in the order of the
        contexts and of the names, and polls the caller's own queue once for each name. */
    method GetPackets(c: Context) returns (result: seq<Packet>)
      requires Valid()
      modifies this`States, Repr
      ensures Valid()
      ensures View() == S.GetPackets(old(View()), c)
      ensures result == P.Gathered(old(View()), c, P.FetchVisits(old(View())))
      ensures S.WellNamed(old(View())) ==> S.IsBatch(old(View()), c, result)
    {
      ghost var s, visits := View(), [];
      result := [];
      var todo := active.Keys;
      while todo != {}
        invariant todo <= active.Keys
        invariant Valid() && View() == P.Polled(s, c, visits) && result == P.Gathered(s, c, visits)
        invariant visits + P.Visits(active, todo) == P.FetchVisits(s)
      {
        P.FirstContextExists(todo);
        var d :| d in todo && P.IsFirstContext(d, todo);
        P.VisitsStep(active, todo, d);
        Regroup(visits, P.NamesInOrder(active[d]), P.Visits(active, todo - {d}));
        result := PollNames(c, active[d], result, s, visits);
        visits := visits + P.NamesInOrder(active[d]);
        todo := todo - {d};
      }
      assert visits + [] == visits;
      P.PolledByAll(s, c);
    }

    /** Polls each of the named streams once, in order. */
    method PollNames(c: Context, names: set<Name>, soFar: seq<Packet>, ghost s: S.Manager, ghost visits: seq<Name>)
      returns (result: seq<Packet>)
      requires Valid() && View() == P.Polled(s, c, visits) && soFar == P.Gathered(s, c, visits)
      modifies this`States, Repr
      ensures Valid() && View() == P.Polled(s, c, visits + P.NamesInOrder(names))
      ensures result == P.Gathered(s, c, visits + P.NamesInOrder(names))
    {
      ghost var visited := visits;
      result := soFar;
      var todo := names;
      while todo != {}
        invariant Valid() && View() == P.Polled(s, c, visited) && result == P.Gathered(s, c, visited)
        invariant visited + P.NamesInOrder(todo) == visits + P.NamesInOrder(names)
      {
        P.FirstNameExists(todo);
        var n :| n in todo && P.IsFirstName(n, todo);
        P.NamesStep(todo, n);
        P.PolledMore(s, c, visited, n);
        P.GatheredMore(s, c, visited, n);
        Regroup(visited, [n], P.NamesInOrder(todo - {n}));
        var packet := PollStream(c, n);
        result := result + (if packet.Some? then [packet.value] else []);
        visited := visited + [n];
        todo := todo - {n};
      }
      assert visited + [] == visited;
    }

    method PollStream(c: Context, n: Name) returns (packet: Option<Packet>)
      requires Valid()
      modifies this`States, Repr
      ensures Valid()
      ensures View() == P.PollOnce(old(View()), c, n)
      ensures var queue := S.Queue(old(View()), c, n);
          packet == if queue == [] then None else Some(queue[0])
    {
      packet := None;
      if n in streams {
        var stream := streams[n];
        packet := stream.GetNextPacket(c);
        States := States[n := stream.View()];
      }
    }

    // ----- Counting -----

    method GetNumberOfSubscribers() returns (count: int)
      modifies this`numberOfSubscribers
      ensures View() == S.GetNumberOfSubscribers(old(View()))
      ensures count == S.NumberOfSubscribers(old(View()))
    {
      if numberOfSubscribers >= 0 {
        return numberOfSubscribers;
      }
      var all := InsertAll({}, active.Keys);
      all := InsertAll(all, pending.Keys);
      all := InsertAll(all, toAll);
      numberOfSubscribers := |all|;
      return numberOfSubscribers;
    }

    static method InsertAll(subscribers: set<Context>, more: set<Context>) returns (all: set<Context>)
      ensures all == subscribers + more
    {
      all := subscribers;
      var todo := more;
      while todo != {}
        invariant todo <= more && all == subscribers + (more - todo)
      {
        var c :| c in todo;
        all := all + {c};
        todo := todo - {c};
      }
    }
  }
}
