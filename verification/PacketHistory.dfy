/** The duplicate detector as its callers see it: whole runs of packets on many channels
    (src/duplicatePacketDetector.cpp). */
module PacketHistory {
  import opened Wrappers
  import opened Sequences
  import opened Utilities
  import opened DuplicateDetector
  import opened DetectorHistory

  lemma ReceiveKeepsOk(options: Options, channels: Channels, p: Packet)
    requires OptionsOk(options) && ChannelsOk(channels)
    ensures ChannelsOk(Receive(options, channels, p).0)
  {
    MakeHeaderOk(p);
    if HasHeader(p) {
      AcceptKeepsOk(options, channels, HeaderOf(p));
    }
  }

  /** The detector's buffers after a run of packets. */
  ghost function Received(options: Options, ps: seq<Packet>): (channels: Channels)
    requires OptionsOk(options)
    ensures ChannelsOk(channels)
  {
    if ps == [] then map[]
    else
      ReceiveKeepsOk(options, Received(options, Prior(ps)), Last(ps));
      Receive(options, Received(options, Prior(ps)), Last(ps)).0
  }

  lemma HeadersMore(ps: seq<Packet>, p: Packet)
    ensures Headers(ps + [p]) == if HasHeader(p) then Headers(ps) + [HeaderOf(p)] else Headers(ps)
  {
    assert Prior(ps + [p]) == ps && Last(ps + [p]) == p;
  }

  /** A run of packets is the run of their headers, and the headers of one channel are those of
      the packets of that name. */
  lemma {:induction false} ReceivedHeaders(options: Options, ps: seq<Packet>, n: Name)
    requires OptionsOk(options)
    ensures AllOk(Headers(ps)) && Received(options, ps) == Run(options, Headers(ps))
    ensures OfChannel(Headers(ps), n) == Headers(On(ps, n))
  {
    if ps == [] {
    } else {
      var p := Last(ps);
      ReceivedHeaders(options, Prior(ps), n);
      MakeHeaderOk(p);
      if HasHeader(p) {
        HeaderNames(p);
        HeadersMore(Prior(ps), p);
        HeadersMore(On(Prior(ps), n), p);
      }
    }
  }

  lemma {:induction false} HeadersNone(ps: seq<Packet>)
    ensures Headers(ps) == [] <==> forall p <- ps :: !HasHeader(p)
  {
    if ps == [] {
    } else {
      HeadersNone(Prior(ps));
      assert ps == Prior(ps) + [Last(ps)];
    }
  }

  lemma {:induction false} OnMembers(ps: seq<Packet>, n: Name)
    ensures forall p :: p in On(ps, n) <==> p in ps && PacketName(p) == n
  {
    if ps == [] {
    } else {
      OnMembers(Prior(ps), n);
      assert ps == Prior(ps) + [Last(ps)];
    }
  }

  /** A channel is known exactly if some packet of its name had a header. */
  lemma KnownChannels(options: Options, ps: seq<Packet>, n: Name)
    requires OptionsOk(options)
    ensures n in Received(options, ps) <==> exists p <- ps :: HasHeader(p) && PacketName(p) == n
  {
    ReceivedHeaders(options, ps, n);
    ChannelsIndependent(options, Headers(ps), n);
    HeadersNone(On(ps, n));
    OnMembers(ps, n);
  }

  lemma {:induction false} OnTwice(ps: seq<Packet>, n: Name)
    ensures On(On(ps, n), n) == On(ps, n)
  {
    if ps == [] {
    } else {
      OnTwice(Prior(ps), n);
      if PacketName(Last(ps)) == n {
        OnConcat(On(Prior(ps), n), [Last(ps)], n);
      }
    }
  }

  /** Packets of different names do not interfere: the buffer of a name is what the packets of
      that name alone lead to. */
  lemma PacketChannelsIndependent(options: Options, ps: seq<Packet>, n: Name)
    requires OptionsOk(options) && n in Received(options, ps)
    ensures n in Received(options, On(ps, n)) && Received(options, ps)[n] == Received(options, On(ps, n))[n]
  {
    ReceivedHeaders(options, ps, n);
    ChannelsIndependent(options, Headers(ps), n);
    OnTwice(ps, n);
    ReceivedHeaders(options, On(ps, n), n);
    ChannelsIndependent(options, Headers(On(ps, n)), n);
  }

  /** The first packet with a header of each channel is allowed, whatever came on others. */
  lemma FirstOfChannelAllowed(options: Options, ps: seq<Packet>, p: Packet)
    requires OptionsOk(options) && HasHeader(p)
    requires forall q <- ps :: HasHeader(q) ==> PacketName(q) != PacketName(p)
    ensures Receive(options, Received(options, ps), p).1 == Allowed
  {
    KnownChannels(options, ps, PacketName(p));
    HeaderNames(p);
  }
}
