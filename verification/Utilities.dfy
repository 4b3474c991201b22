/** Packets, stream identifiers, the routing key and the integer time arithmetic
    (src/modules/utilities.cppm). */
module Utilities {
  import opened Sequences
  import opened Wrappers

  datatype StreamIdentifier = StreamIdentifier(
    network: string, station: string, channel: string, locationCode: string)

  datatype DataType = Unknown | Integer32 | Float | Double | Text | Integer64

  /** A packet as it travels over the wire: `None` marks a field that was never set. */
  datatype Packet = Packet(
    identifier: Option<StreamIdentifier>,
    startTime: int,
    samplingRate: real,
    dataType: DataType,
    numberOfSamples: Option<nat>,
    data: Option<string>)

  /** The routing key of a stream. */
  type Name = string

  /** The address of an RPC's server context. */
  type Context = nat

  /** What reading an unset identifier yields: the location code's default is "--". */
  const UNSET_IDENTIFIER := StreamIdentifier("", "", "", "--")

  function ToName(id: StreamIdentifier): Name
  {
    var name := id.network + "." + id.station + "." + id.channel;
    if id.locationCode != "" then name + "." + id.locationCode else name
  }

  function PacketName(p: Packet): Name
  {
    ToName(p.identifier.GetOr(UNSET_IDENTIFIER))
  }

  /** The packets of one stream, in order. */
  function On(packets: seq<Packet>, n: Name): seq<Packet>
  {
    if packets == [] then []
    else
      var front := On(packets[..|packets| - 1], n);
      var p := packets[|packets| - 1];
      if PacketName(p) == n then front + [p] else front
  }

  lemma {:induction false} OnConcat(a: seq<Packet>, b: seq<Packet>, n: Name)
    ensures On(a + b, n) == On(a, n) + On(b, n)
  {
    if b == [] {
      assert a + b == a;
    } else {
      var k := |b| - 1;
      OnConcat(a, b[..k], n);
      assert (a + b)[..|a + b| - 1] == a + b[..k];
    }
  }

  lemma OnOneMore(some: seq<Packet>, all: seq<Packet>, p: Packet, n: Name)
    requires Subsequence(On(some, n), On(all, n))
    ensures Subsequence(On(some, n), On(all + [p], n)) && Subsequence(On(some + [p], n), On(all + [p], n))
  {
    OnConcat(all, [p], n);
    OnConcat(some, [p], n);
    SubsequenceBothGrow(On(some, n), On(all, n), On([p], n));
    SubsequenceGrows(On(some, n), On(all, n), On([p], n));
  }

  /** Selecting packets selects among those of each stream. */
  lemma {:induction false} OnSelect(packets: seq<Packet>, keep: seq<bool>, n: Name)
    requires |packets| == |keep|
    ensures Subsequence(On(Select(packets, keep), n), On(packets, n))
  {
    if packets == [] {
      SubsequenceRefl(On([], n));
    } else {
      var k := |packets| - 1;
      OnSelect(packets[..k], keep[..k], n);
      OnOneMore(Select(packets[..k], keep[..k]), packets[..k], packets[k], n);
      FrontThenLast(packets);
    }
  }

  lemma OnSubsequence(a: seq<Packet>, b: seq<Packet>, n: Name)
    requires Subsequence(a, b)
    ensures Subsequence(On(a, n), On(b, n))
  {
    var keep: seq<bool> :| |keep| == |b| && Select(b, keep) == a;
    OnSelect(b, keep, n);
  }

  /** What names look like, with and without a location code, and of a packet whose identifier was
      never set. */
  lemma NamesOfStreams(p: Packet)
    ensures ToName(StreamIdentifier("UU", "CWU", "HHZ", "01")) == "UU.CWU.HHZ.01"
    ensures ToName(StreamIdentifier("UU", "CWU", "HHZ", "")) == "UU.CWU.HHZ"
    ensures p.identifier.Some? ==> PacketName(p) == ToName(p.identifier.value)
    ensures p.identifier.None? ==> PacketName(p) == "...--"
  {
    assert "UU" + "." + "CWU" + "." + "HHZ" == "UU.CWU.HHZ";
    assert "UU.CWU.HHZ" + "." + "01" == "UU.CWU.HHZ.01";
    assert "" + "." + "" + "." + "" == "..";
    assert ".." + "." + "--" == "...--";
  }

  // ----- The routing key determines the identifier -----

  predicate Dotless(s: string)
  {
    '.' !in s
  }

  /** No field of the identifier contains the separator. */
  predicate PlainIdentifier(id: StreamIdentifier)
  {
    Dotless(id.network) && Dotless(id.station) && Dotless(id.channel) && Dotless(id.locationCode)
  }

  /** A dotless field is recovered from the front of a name. */
  lemma FirstFieldUnique(x: string, y: string, r: string, q: string)
    requires Dotless(x) && Dotless(y)
    requires x + "." + r == y + "." + q
    ensures x == y && r == q
  {
    var s, t := x + "." + r, y + "." + q;
    assert s[|x|] == '.' && t[|y|] == '.';
    assert |x| == |y|;
    assert x == s[..|x|] && y == t[..|x|];
    assert r == s[|x| + 1..] && q == t[|x| + 1..];
  }

  /** What follows the station in a name. */
  function ChannelAndLocation(id: StreamIdentifier): string
  {
    if id.locationCode != "" then id.channel + "." + id.locationCode else id.channel
  }

  lemma NameParts(id: StreamIdentifier)
    ensures ToName(id) == id.network + "." + (id.station + "." + ChannelAndLocation(id))
  {
    var whole := id.network + "." + (id.station + "." + id.channel);
    assert id.network + "." + id.station + "." + id.channel == whole;
    if id.locationCode != "" {
      assert whole + "." + id.locationCode
          == id.network + "." + (id.station + "." + (id.channel + "." + id.locationCode));
    }
  }

  /** Routing by name is routing by identifier, for identifiers without embedded dots:
      an empty location code and any non-empty one are told apart too. */
  lemma ToNameInjective(a: StreamIdentifier, b: StreamIdentifier)
    requires PlainIdentifier(a) && PlainIdentifier(b)
    ensures ToName(a) == ToName(b) <==> a == b
  {
    if ToName(a) == ToName(b) {
      NameParts(a);
      NameParts(b);
      FirstFieldUnique(a.network, b.network,
                       a.station + "." + ChannelAndLocation(a), b.station + "." + ChannelAndLocation(b));
      FirstFieldUnique(a.station, b.station, ChannelAndLocation(a), ChannelAndLocation(b));
      assert a.locationCode != "" ==> '.' in ChannelAndLocation(a);
      assert b.locationCode != "" ==> '.' in ChannelAndLocation(b);
      if a.locationCode != "" {
        FirstFieldUnique(a.channel, b.channel, a.locationCode, b.locationCode);
      }
    }
  }

  /** No other identifier whatever shares this one's name. */
  ghost predicate NameIsUnambiguous(id: StreamIdentifier)
  {
    forall other: StreamIdentifier :: ToName(other) == ToName(id) ==> other == id
  }

  /** Splits a field at one of its dots. */
  lemma SplitAtDot(s: string) returns (front: string, back: string)
    requires !Dotless(s)
    ensures s == front + "." + back
  {
    var i :| 0 <= i < |s| && s[i] == '.';
    front, back := s[..i], s[i + 1..];
  }

  function DotCount(s: string): nat
  {
    if s == "" then 0 else (if s[0] == '.' then 1 else 0) + DotCount(s[1..])
  }

  lemma {:induction false} CountZero(s: string)
    ensures DotCount(s) == 0 <==> Dotless(s)
  {
    if s == "" {
    } else {
      CountZero(s[1..]);
      assert s == [s[0]] + s[1..];
    }
  }

  lemma {:induction false} CountConcat(s: string, t: string)
    ensures DotCount(s + t) == DotCount(s) + DotCount(t)
  {
    if s == "" {
      assert s + t == t;
    } else {
      CountConcat(s[1..], t);
      assert (s + t)[1..] == s[1..] + t;
    }
  }

  lemma CountName(id: StreamIdentifier)
    ensures DotCount(ToName(id))
         == DotCount(id.network) + DotCount(id.station) + DotCount(id.channel) + DotCount(id.locationCode)
            + (if id.locationCode == "" then 2 else 3)
  {
    var a := id.network + ".";
    var b := a + id.station;
    var c := b + ".";
    var d := c + id.channel;
    CountConcat(id.network, ".");
    CountConcat(a, id.station);
    CountConcat(b, ".");
    CountConcat(c, id.channel);
    assert DotCount(".") == 1;
    if id.locationCode != "" {
      CountConcat(d, ".");
      CountConcat(d + ".", id.locationCode);
    }
  }

  /** Two dots in a name leave only one way of reading it. */
  lemma PlainNameUnambiguous(id: StreamIdentifier, other: StreamIdentifier)
    requires PlainIdentifier(id) && id.locationCode == ""
    requires ToName(other) == ToName(id)
    ensures other == id
  {
    CountName(id);
    CountName(other);
    CountZero(id.network);
    CountZero(id.station);
    CountZero(id.channel);
    CountZero(other.network);
    CountZero(other.station);
    CountZero(other.channel);
    CountZero(other.locationCode);
    ToNameInjective(other, id);
  }

  /** Another identifier with the same name: move a dot across a field boundary. */
  lemma Namesake(id: StreamIdentifier) returns (other: StreamIdentifier)
    requires !PlainIdentifier(id) || id.locationCode != ""
    ensures other != id && ToName(other) == ToName(id)
  {
    NameParts(id);
    if id.locationCode != "" {
      other := StreamIdentifier(id.network + "." + id.station, id.channel, id.locationCode, "");
    } else if !Dotless(id.network) {
      var front, back := SplitAtDot(id.network);
      other := StreamIdentifier(front, back + "." + id.station, id.channel, "");
    } else if !Dotless(id.station) {
      var front, back := SplitAtDot(id.station);
      other := StreamIdentifier(id.network + "." + front, back, id.channel, "");
    } else {
      var front, back := SplitAtDot(id.channel);
      other := StreamIdentifier(id.network, id.station + "." + front, back, "");
    }
    NameParts(other);
    assert ToName(other) == ToName(id);
  }

  /** When fields may contain dots the routing key stops being injective. A name belongs to
      one identifier only exactly when it has no location code and no field has a dot. */
  lemma NameUnambiguousIff(id: StreamIdentifier)
    ensures NameIsUnambiguous(id) <==> PlainIdentifier(id) && id.locationCode == ""
  {
    if PlainIdentifier(id) && id.locationCode == "" {
      forall other: StreamIdentifier | ToName(other) == ToName(id)
        ensures other == id
      {
        PlainNameUnambiguous(id, other);
      }
    } else {
      var other := Namesake(id);
    }
  }

  // ----- Time arithmetic in microseconds -----

  /** C++ std::round: to the nearest integer, halves away from zero. */
  function Round(x: real): int
  {
    if x >= 0.0 then (x + 0.5).Floor else -((-x + 0.5).Floor)
  }

  lemma RoundIsNearest(x: real, k: int)
    ensures x - 0.5 < k as real < x + 0.5 ==> Round(x) == k
    ensures Round(-x) == -Round(x)
    ensures x == k as real + 0.5 && k >= 0 ==> Round(x) == k + 1
  {
  }

  /** The sample period in microseconds, rounded. */
  function SamplePeriod(samplingRate: real): int
    requires samplingRate > 0.0
  {
    Round(1000000.0 / samplingRate)
  }

  /** Time of the last sample; None stands for the exception on a non-positive rate. */
  function EndTime(startTime: int, samplingRate: real, numberOfSamples: nat): Option<int>
  {
    if samplingRate <= 0.0 then None
    else Some(startTime + SamplePeriod(samplingRate) * (numberOfSamples - 1))
  }
}
