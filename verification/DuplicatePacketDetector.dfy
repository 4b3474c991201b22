/** Duplicate and timing-slip detection with one circular buffer of headers per channel
    (src/duplicatePacketDetector.cpp). Times are integer microseconds, sampling rates reals. */
module DuplicateDetector {
  import opened Wrappers
  import opened Utilities
  import opened Sorting

  datatype Header = Header(name: Name, startTime: int, endTime: int, samplingRate: int, nSamples: int)

  /** The header of a packet; None stands for the exceptions on a non-positive rate and on
      a sample count that is not positive once it is a signed 32-bit integer. */
  function MakeHeader(p: Packet): Option<Header>
  {
    var n := p.numberOfSamples.GetOr(0);
    var end := EndTime(p.startTime, p.samplingRate, n);
    if end.None? || !(0 < n < 0x8000_0000) then None
    else Some(Header(PacketName(p), p.startTime, end.value, Round(p.samplingRate), n))
  }

  /** What the header constructor guarantees. */
  predicate HeaderOk(h: Header)
  {
    0 < h.nSamples && h.startTime <= h.endTime
  }

  /** The packets that have a header. */
  predicate HasHeader(p: Packet)
  {
    p.samplingRate > 0.0 && p.numberOfSamples.Some? && 0 < p.numberOfSamples.value < 0x8000_0000
  }

  lemma MakeHeaderOk(p: Packet)
    ensures MakeHeader(p).Some? ==> HeaderOk(MakeHeader(p).value)
    ensures MakeHeader(p).Some? <==> HasHeader(p)
  {
    if p.samplingRate > 0.0 {
      var n, period := p.numberOfSamples.GetOr(0), SamplePeriod(p.samplingRate);
      assert 1000000.0 / p.samplingRate > 0.0;
      if n > 0 {
        assert period * (n - 1) >= 0;
      }
    }
  }

  lemma AtMostHalf(m: real, off: real)
    requires m >= 0.0 && off <= 0.5
    ensures m * off <= 0.5 * m
  {
    assert m * (0.5 - off) >= 0.0;
  }

  lemma TimesWithin(n: nat, rounded: int, exact: real)
    requires -0.5 <= rounded as real - exact <= 0.5
    ensures -0.5 * n as real <= (rounded * n) as real - n as real * exact <= 0.5 * n as real
  {
    var m, off := n as real, rounded as real - exact;
    assert (rounded * n) as real == m * rounded as real;
    assert m * rounded as real - m * exact == m * off;
    AtMostHalf(m, off);
    AtMostHalf(m, -off);
    assert m * (-off) == -(m * off);
  }

  /** A header carries its packet's channel, start and sample count as they are. */
  lemma HeaderNames(p: Packet)
    ensures HasHeader(p) <==> MakeHeader(p).Some?
    ensures HasHeader(p) ==>
        && MakeHeader(p).value.name == ToName(p.identifier.GetOr(UNSET_IDENTIFIER))
        && MakeHeader(p).value.startTime == p.startTime
        && MakeHeader(p).value.nSamples == p.numberOfSamples.value
  {
    MakeHeaderOk(p);
  }

  /** Its rate is within half a sample per second, and its end is off by at most half a
      microsecond for each sample period. */
  lemma HeaderMeasures(p: Packet)
    requires HasHeader(p)
    ensures MakeHeader(p).Some?
    ensures var h, periods := MakeHeader(p).value, p.numberOfSamples.value - 1;
      var exact := periods as real * (1000000.0 / p.samplingRate);
      && -0.5 <= h.samplingRate as real - p.samplingRate <= 0.5
      && -0.5 * periods as real <= (h.endTime - p.startTime) as real - exact <= 0.5 * periods as real
  {
    MakeHeaderOk(p);
    TimesWithin(p.numberOfSamples.value - 1, SamplePeriod(p.samplingRate), 1000000.0 / p.samplingRate);
  }

  // ----- Comparing headers -----

  /** How far apart two starts may be and still be the same packet; None beyond 1004 Hz. */
  function Tolerance(samplingRate: int): Option<int>
  {
    if samplingRate < 105 then Some(15000)
    else if samplingRate < 255 then Some(4500)
    else if samplingRate < 505 then Some(2500)
    else if samplingRate < 1005 then Some(1500)
    else None
  }

  /** `Incomparable` stands for the exceptions of the equality operator. */
  datatype Comparison = Same | Different | Incomparable

  function Distance(a: int, b: int): nat
  {
    if a < b then b - a else a - b
  }

  function Compare(a: Header, b: Header): Comparison
  {
    if a.name != b.name then Different
    else if a.samplingRate != b.samplingRate then Incomparable
    else if a.nSamples != b.nSamples then Different
    else
      match Tolerance(a.samplingRate)
      case None => Incomparable
      case Some(t) => if Distance(a.startTime, b.startTime) < t then Same else Different
  }

  /** When two headers are the same packet, class by class: equal counts and starts less than the
      tolerance apart, in either direction. */
  lemma SameIff(a: Header, b: Header)
    ensures var apart := a.startTime - b.startTime;
      Compare(a, b).Same? <==>
        && a.name == b.name && a.samplingRate == b.samplingRate && a.nSamples == b.nSamples
        && (|| (a.samplingRate <= 104 && -15000 < apart < 15000)
            || (105 <= a.samplingRate <= 254 && -4500 < apart < 4500)
            || (255 <= a.samplingRate <= 504 && -2500 < apart < 2500)
            || (505 <= a.samplingRate <= 1004 && -1500 < apart < 1500))
  {
  }

  /** When they cannot be compared: one channel with different rates, or a rate of 1005 Hz or more
      and equal counts. */
  lemma IncomparableIff(a: Header, b: Header)
    ensures Compare(a, b).Incomparable? <==>
        && a.name == b.name
        && (a.samplingRate != b.samplingRate || (a.nSamples == b.nSamples && a.samplingRate >= 1005))
  {
  }

  /** The first comparison that is not `Different` decides, as in std::find. */
  function Find(items: seq<Header>, h: Header): Comparison
  {
    if items == [] then Different
    else
      var first := Compare(items[0], h);
      if first.Different? then Find(items[1..], h) else first
  }

  /** An endpoint of `h` falls inside the stored packet. */
  predicate Slips(stored: Header, h: Header)
  {
    || stored.startTime <= h.startTime <= stored.endTime
    || stored.startTime <= h.endTime <= stored.endTime
  }

  // ----- The circular buffer -----

  datatype Buffer = Buffer(capacity: nat, items: seq<Header>) {
    predicate Usable() {
      0 < capacity && items != []
    }
    function Oldest(): Header
      requires Usable()
    {
      items[0]
    }
    function Newest(): Header
      requires Usable()
    {
      items[|items| - 1]
    }
    predicate Full() {
      |items| >= capacity
    }
    /** What is left once there is room for one more at the back. */
    function Retained(): seq<Header>
      requires Usable()
    {
      if Full() then items[1..] else items
    }
  }

  const START_OF := (h: Header) => h.startTime

  /** Boost's push_back: a full buffer overwrites its front. */
  function PushBack(b: Buffer, h: Header): Buffer
    requires b.Usable()
  {
    b.(items := b.Retained() + [h])
  }

  datatype Verdict = Allowed | Refused | Threw

  /** Where a header goes that is neither a duplicate, nor newer than the newest, nor a slip. */
  function BackFill(b: Buffer, h: Header): Buffer
    requires b.Usable()
  {
    b.(items := Insert(h, b.Retained(), START_OF))
  }

  /** Offering a header to the buffer of its own channel. */
  function Offer(b: Buffer, h: Header): (Buffer, Verdict)
    requires b.Usable()
  {
    match Find(b.items, h)
    case Same => (b, Refused)
    case Incomparable => (b, Threw)
    case Different =>
      if h.startTime > b.Newest().endTime then (PushBack(b, h), Allowed)
      else if h.endTime < b.Oldest().startTime then
        (if b.Full() then b else b.(items := [h] + b.items), Refused)
      else if exists i :: 0 <= i < |b.items| && Slips(b.items[i], h) then (b, Refused)
      else (BackFill(b, h), Allowed)
  }

  // ----- What every buffer keeps -----

  ghost predicate StrictlySorted(items: seq<Header>)
  {
    forall i, j :: 0 <= i < j < |items| ==> items[i].startTime < items[j].startTime
  }

  /** Start times strictly increase, the size is between one and the capacity, and all headers
      share one name and one rounded rate. */
  ghost predicate BufferOk(b: Buffer)
  {
    && 1 <= |b.items| <= b.capacity
    && StrictlySorted(b.items)
    && (forall h <- b.items :: HeaderOk(h) && h.name == b.items[0].name && h.samplingRate == b.items[0].samplingRate)
  }

  /** A header that meets no comparison but `Different` has the buffer's rounded rate. */
  lemma DifferentMeansSameRate(b: Buffer, h: Header)
    requires b.Usable() && h.name == b.items[0].name && Find(b.items, h).Different?
    ensures h.samplingRate == b.items[0].samplingRate
  {
  }

  lemma {:induction false} InsertStrict(h: Header, items: seq<Header>)
    requires StrictlySorted(items)
    requires forall s <- items :: s.startTime != h.startTime
    ensures StrictlySorted(Insert(h, items, START_OF))
    ensures |Insert(h, items, START_OF)| == |items| + 1
  {
    if items == [] || h.startTime < items[0].startTime {
    } else {
      var rest := Insert(h, items[1..], START_OF);
      InsertStrict(h, items[1..]);
      forall j | 0 <= j < |rest| ensures items[0].startTime < rest[j].startTime {
        InsertMembers(h, items[1..], START_OF, rest[j]);
      }
    }
  }

  /** Sorting after a push_back is ordered insertion after evicting the oldest header. */
  lemma PushThenSortIsInsert(b: Buffer, h: Header)
    requires BufferOk(b)
    ensures PushBack(b, h).(items := SortBy(PushBack(b, h).items, START_OF)) == BackFill(b, h)
  {
    var kept := b.Retained();
    assert (kept + [h])[..|kept|] == kept;
    SortedIsFixed(kept, START_OF);
  }

  /** Headers that do not slip against each other differ in their starts. */
  lemma StartsDistinguish(b: Buffer, h: Header)
    requires BufferOk(b) && HeaderOk(h) && forall s <- b.items :: !Slips(s, h)
    ensures Distinguishes(START_OF, PushBack(b, h).items)
  {
    var kept := b.Retained();
    forall x <- kept + [h], y <- kept + [h] | x.startTime == y.startTime
      ensures x == y
    {
      assert x in kept ==> x in b.items;
      assert y in kept ==> y in b.items;
    }
  }

  /** Whatever algorithm sorts the buffer after a back-fill, stable or not, the result is the
      ordered insertion. */
  lemma AnySortIsInsert(b: Buffer, h: Header, items: seq<Header>)
    requires BufferOk(b) && HeaderOk(h) && forall s <- b.items :: !Slips(s, h)
    requires Sorted(items, START_OF) && multiset(items) == multiset(PushBack(b, h).items)
    ensures b.(items := items) == BackFill(b, h)
  {
    var pushed := PushBack(b, h).items;
    PushThenSortIsInsert(b, h);
    SortBySorts(pushed, START_OF);
    StartsDistinguish(b, h);
    DistinguishesAnyOrder(pushed, items, START_OF);
    SortUnique(items, SortBy(pushed, START_OF), START_OF);
  }

  lemma BackFillOk(b: Buffer, h: Header)
    requires BufferOk(b) && HeaderOk(h)
    requires h.name == b.items[0].name && h.samplingRate == b.items[0].samplingRate
    requires forall s <- b.items :: !Slips(s, h)
    ensures BufferOk(BackFill(b, h))
  {
    var kept := b.Retained();
    assert forall s <- kept :: s in b.items;
    InsertStrict(h, kept);
    var items := Insert(h, kept, START_OF);
    forall s <- items
      ensures HeaderOk(s) && s.name == h.name && s.samplingRate == h.samplingRate
    {
      InsertMembers(h, kept, START_OF, s);
    }
  }

  lemma AppendOk(kept: seq<Header>, h: Header)
    requires StrictlySorted(kept) && HeaderOk(h)
    requires forall s <- kept ::
        HeaderOk(s) && s.name == h.name && s.samplingRate == h.samplingRate && s.startTime < h.startTime
    ensures StrictlySorted(kept + [h])
    ensures forall s <- kept + [h] :: HeaderOk(s) && s.name == h.name && s.samplingRate == h.samplingRate
  {
  }

  lemma PushBackOk(b: Buffer, h: Header)
    requires BufferOk(b) && HeaderOk(h) && h.startTime > b.Newest().endTime
    requires h.name == b.items[0].name && h.samplingRate == b.items[0].samplingRate
    ensures BufferOk(PushBack(b, h))
  {
    var kept := b.Retained();
    assert HeaderOk(b.Newest());
    forall s <- kept
      ensures HeaderOk(s) && s.name == h.name && s.samplingRate == h.samplingRate && s.startTime < h.startTime
    {
      assert s in b.items && s.startTime <= b.Newest().startTime;
    }
    AppendOk(kept, h);
  }

  lemma PushFrontOk(b: Buffer, h: Header)
    requires BufferOk(b) && HeaderOk(h) && h.endTime < b.Oldest().startTime && !b.Full()
    requires h.name == b.items[0].name && h.samplingRate == b.items[0].samplingRate
    ensures BufferOk(b.(items := [h] + b.items))
  {
  }

  /** Every offer keeps a buffer well formed; one that is not admitted may at most add an old
      header in front, and one that throws changes nothing. */
  lemma OfferKeepsOk(b: Buffer, h: Header)
    requires BufferOk(b) && HeaderOk(h) && h.name == b.items[0].name
    ensures var (b', v) := Offer(b, h);
      && BufferOk(b') && b'.capacity == b.capacity
      && b'.items[0].name == b.items[0].name && b'.items[0].samplingRate == b.items[0].samplingRate
      && (v.Threw? ==> b' == b)
  {
    if Find(b.items, h).Different? {
      DifferentMeansSameRate(b, h);
      if h.startTime > b.Newest().endTime {
        PushBackOk(b, h);
      } else if h.endTime < b.Oldest().startTime {
        if !b.Full() {
          PushFrontOk(b, h);
        }
      } else if forall i :: 0 <= i < |b.items| ==> !Slips(b.items[i], h) {
        BackFillOk(b, h);
      }
    }
  }

  // ----- Capacity -----

  /** A fixed number of headers, or room for a span of time. C++ does not define the
      conversion of an infinite quotient to an integer, which is what packets shorter than
      half a second lead to; `infinityAsInt` stands for whatever it yields. */
  datatype Options = FixedSize(size: nat) | ForDuration(memory: nat, infinityAsInt: int)

  predicate OptionsOk(options: Options)
  {
    match options
    case FixedSize(size) => 0 < size
    case ForDuration(memory, _) => 0 < memory
  }

  /** Seconds of data in a packet, and the same rounded. */
  function ExactDuration(h: Header): real
  {
    (h.nSamples as real - 1.0) / (if h.samplingRate > 1 then h.samplingRate else 1) as real
  }

  function RoundedDuration(h: Header): int
  {
    var d := Round(ExactDuration(h));
    if d > 0 then d else 0
  }

  function EstimateCapacity(h: Header, memory: nat, infinityAsInt: int): int
  {
    var d := RoundedDuration(h);
    var packets := if d == 0 then infinityAsInt else (1.5 * memory as real / d as real).Floor;
    (if packets > 10 then packets else 10) + 1
  }

  /** Three seconds of data at 100 Hz to a packet and five minutes to remember: room for half as
      many again as fill the five minutes, and one. */
  lemma FiveMinutesOfThreeSeconds(name: Name, infinityAsInt: int)
    ensures var h := Header(name, 0, 2990000, 100, 300);
      && ExactDuration(h) * 1000000.0 == (h.endTime - h.startTime) as real
      && RoundedDuration(h) == 3
      && EstimateCapacity(h, 300, infinityAsInt) == 151
  {
    var h := Header(name, 0, 2990000, 100, 300);
    assert ExactDuration(h) == 2.99;
    assert RoundedDuration(h) == 3;
    assert 1.5 * 300.0 / 3.0 == 150.0;
  }

  lemma QuotientTimes(x: real, y: real)
    requires y > 0.0
    ensures x / y * y == x
  {
  }

  /** The duration of a packet is the time from its first to its last sample at the rounded rate. */
  lemma DurationTimesRate(h: Header)
    ensures h.samplingRate >= 1 ==> ExactDuration(h) * h.samplingRate as real == (h.nSamples - 1) as real
    ensures h.samplingRate < 1 ==> ExactDuration(h) == (h.nSamples - 1) as real
  {
    if h.samplingRate >= 1 {
      QuotientTimes(h.nSamples as real - 1.0, h.samplingRate as real);
    }
  }

  function Capacity(options: Options, h: Header): (capacity: nat)
    requires OptionsOk(options)
    ensures 0 < capacity
    ensures if options.FixedSize? then capacity == options.size else capacity >= 11
  {
    match options
    case FixedSize(size) => size
    case ForDuration(memory, infinityAsInt) => EstimateCapacity(h, memory, infinityAsInt)
  }

  // ----- The detector -----

  type Channels = map<Name, Buffer>

  ghost predicate ChannelsOk(channels: Channels)
  {
    forall n <- channels :: BufferOk(channels[n]) && channels[n].items[0].name == n
  }

  /** Offering a header to the detector: the first of its channel opens a buffer. */
  function Accept(options: Options, channels: Channels, h: Header): (Channels, Verdict)
    requires OptionsOk(options)
    requires h.name in channels ==> channels[h.name].Usable()
  {
    if h.name in channels then
      var (b, v) := Offer(channels[h.name], h);
      (channels[h.name := b], v)
    else
      (channels[h.name := Buffer(Capacity(options, h), [h])], Allowed)
  }

  lemma AcceptKeepsOk(options: Options, channels: Channels, h: Header)
    requires OptionsOk(options) && ChannelsOk(channels) && HeaderOk(h)
    ensures ChannelsOk(Accept(options, channels, h).0)
  {
    if h.name in channels {
      OfferKeepsOk(channels[h.name], h);
    }
  }

  method FindHeader(items: seq<Header>, h: Header) returns (found: Comparison)
    ensures found == Find(items, h)
  {
    for i := 0 to |items|
      invariant Find(items, h) == Find(items[i..], h)
    {
      found := Compare(items[i], h);
      if !found.Different? {
        return;
      }
      assert items[i..][1..] == items[i + 1..];
    }
    found := Different;
  }

  method DetectSlip(items: seq<Header>, h: Header) returns (slipped: bool)
    ensures slipped <==> exists i :: 0 <= i < |items| && Slips(items[i], h)
  {
    for i := 0 to |items|
      invariant forall j :: 0 <= j < i ==> !Slips(items[j], h)
    {
      if Slips(items[i], h) {
        return true;
      }
    }
    return false;
  }

  /** Offering a packet: one without a header is refused. */
  function Receive(options: Options, channels: Channels, p: Packet): (Channels, Verdict)
    requires OptionsOk(options)
    requires forall n <- channels :: channels[n].Usable()
  {
    match MakeHeader(p)
    case None => (channels, Refused)
    case Some(h) => Accept(options, channels, h)
  }

  class DuplicatePacketDetector {
    const options: Options
    var channels: Channels

    ghost predicate Valid()
      reads this
    {
      OptionsOk(options) && ChannelsOk(channels)
    }

    constructor (options: Options)
      requires OptionsOk(options)
      ensures Valid() && this.options == options && channels == map[]
    {
      this.options := options;
      channels := map[];
    }

    method AllowPacket(packet: Packet) returns (v: Verdict)
      requires Valid()
      modifies this`channels
      ensures Valid()
      ensures (channels, v) == Receive(options, old(channels), packet)
      ensures !HasHeader(packet) ==> v == Refused && channels == old(channels)
      ensures HasHeader(packet) && ToName(packet.identifier.GetOr(UNSET_IDENTIFIER)) !in old(channels) ==> v == Allowed
    {
      MakeHeaderOk(packet);
      HeaderNames(packet);
      match MakeHeader(packet) {
        case None => v := Refused;
        case Some(h) => v := Allow(h);
      }
    }

    method Allow(h: Header) returns (v: Verdict)
      requires Valid() && HeaderOk(h)
      modifies this`channels
      ensures Valid()
      ensures (channels, v) == Accept(options, old(channels), h)
    {
      AcceptKeepsOk(options, channels, h);
      if h.name !in channels {
        channels := channels[h.name := Buffer(Capacity(options, h), [h])];
        return Allowed;
      }
      var buffer := channels[h.name];
      assert channels == channels[h.name := buffer];
      var found := FindHeader(buffer.items, h);
      if found.Incomparable? {
        return Threw;
      }
      if found.Same? {
        return Refused;
      }
      if h.startTime > buffer.Newest().endTime {
        channels := channels[h.name := PushBack(buffer, h)];
        return Allowed;
      }
      if h.endTime < buffer.Oldest().startTime {
        if !buffer.Full() {
          channels := channels[h.name := buffer.(items := [h] + buffer.items)];
        }
        return Refused;
      }
      var slipped := DetectSlip(buffer.items, h);
      if slipped {
        return Refused;
      }
      var pushed := PushBack(buffer, h);
      PushThenSortIsInsert(buffer, h);
      channels := channels[h.name := pushed.(items := SortBy(pushed.items, START_OF))];
      return Allowed;
    }
  }
}
