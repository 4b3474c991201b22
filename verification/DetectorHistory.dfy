/** What the duplicate detector does over whole runs: how long a packet is remembered, which
    packets are never refused, and when stored packets are disjoint. */
module DetectorHistory {
  import opened Wrappers
  import opened Sequences
  import opened Utilities
  import opened Sorting
  import opened DuplicateDetector

  // ----- Runs -----

  /** All headers are well formed and belong to this buffer's channel. */
  ghost predicate Offerable(b: Buffer, hs: seq<Header>)
  {
    b.items != [] && forall h <- hs :: HeaderOk(h) && h.name == b.items[0].name
  }

  /** The buffer after a run of offers. */
  ghost function After(b: Buffer, hs: seq<Header>): (r: Buffer)
    requires BufferOk(b) && Offerable(b, hs)
    ensures BufferOk(r) && r.capacity == b.capacity
    ensures r.items[0].name == b.items[0].name && r.items[0].samplingRate == b.items[0].samplingRate
  {
    if hs == [] then b
    else
      var before := After(b, Prior(hs));
      OfferKeepsOk(before, Last(hs));
      Offer(before, Last(hs)).0
  }

  /** How many of the offers put a header into the buffer. */
  ghost function Insertions(b: Buffer, hs: seq<Header>): nat
    requires BufferOk(b) && Offerable(b, hs)
  {
    if hs == [] then 0
    else Insertions(b, Prior(hs)) + if After(b, hs) == After(b, Prior(hs)) then 0 else 1
  }

  // ----- How long a header is remembered -----

  /** How many insertions the header at index `i` is sure to survive. */
  function Slack(b: Buffer, i: nat): int
  {
    b.capacity - |b.items| + i
  }

  lemma {:induction false} InsertIndex(h: Header, items: seq<Header>, i: nat) returns (j: nat)
    requires i < |items|
    ensures i <= j < |Insert(h, items, START_OF)| == |items| + 1
    ensures Insert(h, items, START_OF)[j] == items[i]
  {
    if items == [] || h.startTime < items[0].startTime {
      j := i + 1;
    } else if i == 0 {
      j := 0;
      InsertElements(h, items[1..], START_OF);
      assert |multiset(Insert(h, items[1..], START_OF))| == |items|;
    } else {
      j := InsertIndex(h, items[1..], i - 1);
      j := j + 1;
    }
  }

  /** One offer costs a header at most one unit of slack, and only if something is inserted. */
  lemma SurvivesOffer(b: Buffer, h: Header, i: nat) returns (j: nat)
    requires BufferOk(b) && HeaderOk(h) && h.name == b.items[0].name && i < |b.items|
    requires Offer(b, h).0 == b || Slack(b, i) > 0
    ensures var b' := Offer(b, h).0;
      && j < |b'.items| && b'.items[j] == b.items[i]
      && Slack(b', j) >= Slack(b, i) - (if b' == b then 0 else 1)
  {
    var b' := Offer(b, h).0;
    var evicted := if b.Full() then 1 else 0;
    if b' == b {
      j := i;
    } else if b' == PushBack(b, h) {
      j := i - evicted;
    } else if b' == BackFill(b, h) {
      j := InsertIndex(h, b.Retained(), i - evicted);
    } else {
      j := i + 1;
    }
  }

  /** Over any run a header survives as many insertions as it has slack. */
  lemma {:induction false} Survives(b: Buffer, hs: seq<Header>, i: nat) returns (j: nat)
    requires BufferOk(b) && Offerable(b, hs) && i < |b.items|
    requires Insertions(b, hs) <= Slack(b, i)
    ensures j < |After(b, hs).items| && After(b, hs).items[j] == b.items[i]
    ensures Slack(After(b, hs), j) >= Slack(b, i) - Insertions(b, hs)
  {
    if hs == [] {
      j := i;
    } else {
      j := Survives(b, Prior(hs), i);
      j := SurvivesOffer(After(b, Prior(hs)), Last(hs), j);
    }
  }

  /** Two headers the detector takes for the same packet. */
  predicate Similar(g: Header, h: Header)
  {
    && g.name == h.name && g.samplingRate == h.samplingRate && g.nSamples == h.nSamples
    && Tolerance(g.samplingRate).Some?
    && Distance(g.startTime, h.startTime) < Tolerance(g.samplingRate).value
  }

  lemma {:induction false} FindsSimilar(items: seq<Header>, g: Header, h: Header)
    requires forall s <- items :: s.name == g.name && s.samplingRate == g.samplingRate
    requires g in items && Similar(g, h)
    ensures Find(items, h) == Same
  {
    assert items == [items[0]] + items[1..];
    if Compare(items[0], h).Different? {
      FindsSimilar(items[1..], g, h);
    }
  }

  /** A header in the buffer is remembered: anything similar to it is refused, and refused
      without changing the buffer. */
  lemma RememberedIsRefused(b: Buffer, g: Header, h: Header)
    requires BufferOk(b) && g in b.items && Similar(g, h)
    ensures Offer(b, h) == (b, Refused)
  {
    FindsSimilar(b.items, g, h);
  }

  /** The memory window: whatever is offered in between, while no more than the slack of a
      stored header has been inserted, everything similar to it is refused. */
  lemma DuplicateWindow(b: Buffer, hs: seq<Header>, i: nat, h: Header)
    requires BufferOk(b) && Offerable(b, hs) && i < |b.items|
    requires Insertions(b, hs) <= b.capacity - |b.items| + i
    requires Similar(b.items[i], h)
    ensures b.items[i] in After(b, hs).items
    ensures Offer(After(b, hs), h) == (After(b, hs), Refused)
  {
    var j := Survives(b, hs, i);
    RememberedIsRefused(After(b, hs), After(b, hs).items[j], h);
  }

  /** A header admitted as the newest is remembered through capacity - 1 further insertions. */
  lemma NewestWindow(b: Buffer, g: Header, hs: seq<Header>, h: Header)
    requires BufferOk(b) && HeaderOk(g) && g.name == b.items[0].name && Offerable(b, hs)
    requires Offer(b, g).1 == Allowed && g.startTime > b.Newest().endTime
    requires Similar(g, h)
    ensures var b' := Offer(b, g).0;
      && BufferOk(b') && Offerable(b', hs)
      && (Insertions(b', hs) <= b.capacity - 1 ==> Offer(After(b', hs), h) == (After(b', hs), Refused))
  {
    OfferKeepsOk(b, g);
    var b' := Offer(b, g).0;
    assert b'.items[|b'.items| - 1] == g;
    if Insertions(b', hs) <= b.capacity - 1 {
      DuplicateWindow(b', hs, |b'.items| - 1, h);
    }
  }

  lemma {:induction false} FindIncomparableIff(items: seq<Header>, h: Header, samplingRate: int)
    requires forall s <- items :: s.name == h.name && s.samplingRate == samplingRate
    ensures Find(items, h).Incomparable? <==>
        || (items != [] && h.samplingRate != samplingRate)
        || (h.samplingRate == samplingRate && Tolerance(samplingRate).None?
            && exists s <- items :: s.nSamples == h.nSamples)
  {
    if items == [] {
    } else {
      FindIncomparableIff(items[1..], h, samplingRate);
      assert items == [items[0]] + items[1..];
    }
  }

  /** A call throws exactly when the rounded rate changed, or is too high for any tolerance
      and some stored packet has as many samples. */
  lemma OfferThrowsIff(b: Buffer, h: Header)
    requires BufferOk(b) && h.name == b.items[0].name
    ensures Offer(b, h).1 == Threw <==>
        || h.samplingRate != b.items[0].samplingRate
        || (h.samplingRate >= 1005 && exists s <- b.items :: s.nSamples == h.nSamples)
  {
    FindIncomparableIff(b.items, h, b.items[0].samplingRate);
  }

  // ----- Good data is never refused -----

  lemma {:induction false} FindsNothing(items: seq<Header>, h: Header)
    requires forall s <- items :: Compare(s, h).Different?
    ensures Find(items, h).Different?
  {
    if items == [] {
    } else {
      FindsNothing(items[1..], h);
    }
  }

  /** A header whose start is at least a tolerance beyond the newest start is admitted if and
      only if it starts after the newest packet has ended. */
  lemma NewestAdmittedIff(b: Buffer, h: Header)
    requires BufferOk(b) && HeaderOk(h) && h.name == b.items[0].name && h.samplingRate == b.items[0].samplingRate
    requires Tolerance(h.samplingRate).Some?
    requires h.startTime - b.Newest().startTime >= Tolerance(h.samplingRate).value
    ensures Offer(b, h).1 == Allowed <==> h.startTime > b.Newest().endTime
    ensures Offer(b, h).1 == Allowed ==> Offer(b, h).0 == PushBack(b, h)
  {
    forall s <- b.items ensures Compare(s, h).Different? {
      assert s.startTime <= b.Newest().startTime;
    }
    FindsNothing(b.items, h);
    if h.startTime <= b.Newest().endTime {
      assert b.Oldest().startTime <= b.Newest().startTime;
      assert Slips(b.items[|b.items| - 1], h);
    }
  }

  /** `q` comes on the same channel and starts too late to be taken for `p`. */
  predicate FarAfter(p: Header, q: Header)
  {
    && HeaderOk(q) && p.name == q.name && p.samplingRate == q.samplingRate
    && Tolerance(q.samplingRate).Some?
    && q.startTime - p.startTime >= Tolerance(q.samplingRate).value
  }

  /** In addition it starts after `p` ends. */
  predicate Succeeds(p: Header, q: Header)
  {
    FarAfter(p, q) && q.startTime > p.endTime
  }

  function NewestOf(first: Header, hs: seq<Header>): Header
  {
    if hs == [] then first else Last(hs)
  }

  /** Each header succeeds the one before it, the first of them `first`. */
  ghost predicate InOrder(first: Header, hs: seq<Header>)
  {
    hs != [] ==> InOrder(first, Prior(hs)) && Succeeds(NewestOf(first, Prior(hs)), Last(hs))
  }

  /** Each header is far enough after the one before it, the first of them `first`. */
  ghost predicate Spaced(first: Header, hs: seq<Header>)
  {
    hs != [] ==> Spaced(first, Prior(hs)) && FarAfter(NewestOf(first, Prior(hs)), Last(hs))
  }

  lemma {:induction false} InOrderSpaced(first: Header, hs: seq<Header>)
    requires InOrder(first, hs)
    ensures Spaced(first, hs)
  {
    if hs == [] {
    } else {
      InOrderSpaced(first, Prior(hs));
    }
  }

  lemma {:induction false} SpacedOfferable(first: Header, hs: seq<Header>)
    requires Spaced(first, hs)
    ensures forall h <- hs :: HeaderOk(h) && h.name == first.name && h.samplingRate == first.samplingRate
  {
    if hs == [] {
    } else {
      SpacedOfferable(first, Prior(hs));
      assert hs == Prior(hs) + [Last(hs)];
      assert Prior(hs) != [] ==> Last(Prior(hs)) in Prior(hs);
    }
  }

  /** Every header of the run was admitted when its turn came. */
  ghost predicate AllAdmitted(b: Buffer, hs: seq<Header>)
    requires BufferOk(b) && Offerable(b, hs)
  {
    hs != [] ==> AllAdmitted(b, Prior(hs)) && Offer(After(b, Prior(hs)), Last(hs)).1 == Allowed
  }

  lemma LastNPush(s: seq<Header>, h: Header, n: nat)
    requires n > 0
    ensures LastN(s + [h], n) == (if |LastN(s, n)| >= n then LastN(s, n)[1..] else LastN(s, n)) + [h]
  {
  }

  /** The next header in order is pushed behind the newest `capacity` headers so far. */
  lemma PushNewest(b: Buffer, all: seq<Header>, h: Header)
    requires BufferOk(b) && b.items == LastN(all, b.capacity) && Succeeds(b.Newest(), h)
    ensures Offer(b, h) == (b.(items := LastN(all + [h], b.capacity)), Allowed)
    ensures LastN(all + [h], b.capacity) != [] && Last(LastN(all + [h], b.capacity)) == h
  {
    assert b.Newest() in b.items;
    NewestAdmittedIff(b, h);
    LastNPush(all, h, b.capacity);
  }

  lemma AppendLast<T>(s: seq<T>, t: seq<T>)
    requires t != []
    ensures s + t == (s + Prior(t)) + [Last(t)]
  {
  }

  /** An in-order run of any length is admitted in full, and the buffer then holds exactly the
      newest headers that fit: older ones are forgotten no sooner and no later. */
  lemma {:induction false} InOrderAdmitted(b: Buffer, hs: seq<Header>)
    requires BufferOk(b) && InOrder(b.Newest(), hs)
    ensures Offerable(b, hs) && AllAdmitted(b, hs)
    ensures After(b, hs).items == LastN(b.items + hs, b.capacity)
    ensures After(b, hs).Newest() == NewestOf(b.Newest(), hs)
  {
    InOrderSpaced(b.Newest(), hs);
    SpacedOfferable(b.Newest(), hs);
    if hs == [] {
      assert b.items + hs == b.items;
    } else {
      InOrderAdmitted(b, Prior(hs));
      PushNewest(After(b, Prior(hs)), b.items + Prior(hs), Last(hs));
      AppendLast(b.items, hs);
    }
  }

  /** Of headers spaced by at least a tolerance the detector admits a whole run, of any length,
      if and only if each of them starts after the one before it has ended. */
  lemma {:induction false} RunAdmittedIff(b: Buffer, hs: seq<Header>)
    requires BufferOk(b) && Spaced(b.Newest(), hs)
    ensures Offerable(b, hs)
    ensures AllAdmitted(b, hs) <==> InOrder(b.Newest(), hs)
  {
    SpacedOfferable(b.Newest(), hs);
    if hs == [] {
    } else {
      RunAdmittedIff(b, Prior(hs));
      if InOrder(b.Newest(), Prior(hs)) {
        InOrderAdmitted(b, Prior(hs));
        var a := After(b, Prior(hs));
        assert a.Newest() in a.items;
        NewestAdmittedIff(a, Last(hs));
      }
    }
  }

  function HeaderOf(p: Packet): Header
    requires HasHeader(p)
  {
    MakeHeaderOk(p);
    MakeHeader(p).value
  }

  lemma Cancel(x: real, y: real, z: real)
    requires z > 0.0 && x * z > y * z
    ensures x > y
  {
  }

  /** Dividing by a smaller rate gives a longer period. */
  lemma PeriodAbove(rate: real, bound: real, period: real)
    requires 0.0 < rate < bound && 0.0 < period && period * bound <= 1000000.0
    ensures 1000000.0 / rate > period
  {
    var q := 1000000.0 / rate;
    assert q * rate == 1000000.0;
    assert period * rate < period * bound;
    Cancel(q, period, rate);
  }

  /** The sample period in microseconds. */
  function ExactPeriod(rate: real): real
    requires rate > 0.0
  {
    1000000.0 / rate
  }

  /** In each of the four classes two sample periods, exact or rounded, reach the tolerance. */
  lemma TwoPeriodsReachTolerance(rate: real)
    requires rate > 0.0 && Round(rate) < 1005
    ensures SamplePeriod(rate) > 0
    ensures 2 * SamplePeriod(rate) >= Tolerance(Round(rate)).value
    ensures 2.0 * ExactPeriod(rate) - 1.0 >= Tolerance(Round(rate)).value as real
  {
    if Round(rate) < 105 {
      PeriodAbove(rate, 104.5, 9000.0);
    } else if Round(rate) < 255 {
      PeriodAbove(rate, 254.5, 3000.0);
    } else if Round(rate) < 505 {
      PeriodAbove(rate, 504.5, 1500.0);
    } else {
      PeriodAbove(rate, 1004.5, 900.0);
    }
  }

  /** `q` does not start before the samples of `p` are over, to the microsecond. */
  predicate Continues(p: Packet, q: Packet)
    requires HasHeader(p)
  {
    (q.startTime - p.startTime) as real > p.numberOfSamples.value as real * ExactPeriod(p.samplingRate) - 1.0
  }

  /** The packet is not so long that rounding its sample period adds up to a whole period. */
  predicate ShortEnough(p: Packet)
    requires HasHeader(p)
  {
    p.numberOfSamples.value as real < 2.0 * ExactPeriod(p.samplingRate) - 1.0
  }

  /** `q` was recorded after `p`, counting in exact or in rounded sample periods. */
  predicate RecordedAfter(p: Packet, q: Packet)
    requires HasHeader(p)
  {
    || (Continues(p, q) && ShortEnough(p))
    || q.startTime >= p.startTime + p.numberOfSamples.value * SamplePeriod(p.samplingRate)
  }

  /** One channel and one rounded rate that has a tolerance; at least two samples. */
  predicate SameChannel(p: Packet, q: Packet)
  {
    && HasHeader(p) && HasHeader(q) && p.numberOfSamples.value >= 2
    && PacketName(p) == PacketName(q) && Round(p.samplingRate) == Round(q.samplingRate) < 1005
  }

  lemma Periods(n: nat, period: int)
    requires n >= 2 && period > 0
    ensures period * (n - 1) < n * period && n * period >= 2 * period
  {
  }

  lemma Scale2(x: real, y: real, z: real)
    requires x >= 0.0 && y >= z
    ensures x * y >= x * z
  {
  }

  /** Rounding a period is off by half a microsecond at most. */
  lemma RoundingStaysBelow(n: nat, exact: real, period: int)
    requires n >= 2 && period as real <= exact + 0.5 && n as real < 2.0 * exact - 1.0
    ensures (period * (n - 1)) as real < n as real * exact - 1.0
  {
    var m, span := (n - 1) as real, n as real * exact;
    assert span == m * exact + exact;
    assert m * (exact + 0.5) == m * exact + m / 2.0;
    Scale2(m, exact + 0.5, period as real);
    assert m / 2.0 < exact - 1.0;
    assert (period * (n - 1)) as real == m * period as real;
  }

  lemma ContinuationReaches(p: Packet, q: Packet)
    requires SameChannel(p, q) && Continues(p, q)
    ensures q.startTime - p.startTime >= Tolerance(Round(p.samplingRate)).value
  {
    TwoPeriodsReachTolerance(p.samplingRate);
    Scale2(ExactPeriod(p.samplingRate), p.numberOfSamples.value as real, 2.0);
  }

  lemma RecordedSucceeds(p: Packet, q: Packet)
    requires SameChannel(p, q) && RecordedAfter(p, q)
    ensures Succeeds(HeaderOf(p), HeaderOf(q))
  {
    var n := p.numberOfSamples.value;
    MakeHeaderOk(q);
    TwoPeriodsReachTolerance(p.samplingRate);
    if Continues(p, q) && ShortEnough(p) {
      ContinuationReaches(p, q);
      RoundingStaysBelow(n, ExactPeriod(p.samplingRate), SamplePeriod(p.samplingRate));
    } else {
      Periods(n, SamplePeriod(p.samplingRate));
    }
  }

  /** `q` starts after the end that is stored for `p`. */
  predicate StartsPastStoredEnd(p: Packet, q: Packet)
    requires HasHeader(p)
  {
    q.startTime > p.startTime + SamplePeriod(p.samplingRate) * (p.numberOfSamples.value - 1)
  }

  /** The packet that follows the newest one is admitted if and only if it starts after that
      one's end as stored, which is computed with the rounded sample period. */
  lemma ContinuationAdmittedIff(b: Buffer, p: Packet, q: Packet)
    requires BufferOk(b) && SameChannel(p, q) && Continues(p, q) && b.Newest() == HeaderOf(p)
    ensures Offer(b, HeaderOf(q)).1 == Allowed
       <==> StartsPastStoredEnd(p, q)
  {
    MakeHeaderOk(q);
    ContinuationReaches(p, q);
    assert b.Newest() in b.items;
    NewestAdmittedIff(b, HeaderOf(q));
  }

  /** A long packet whose sample period is rounded up seems to end after its successor begins,
      and the successor is refused. */
  lemma LongPacketRefused()
    ensures var id := Some(StreamIdentifier("UU", "CWU", "HHZ", "01"));
      var p := Packet(id, 0, 999.4, Float, Some(3000), None);
      var q := p.(startTime := 3001802);
      && SameChannel(p, q) && Continues(p, q)
      && Offer(Buffer(15, [HeaderOf(p)]), HeaderOf(q)) == (Buffer(15, [HeaderOf(p)]), Refused)
  {
    var id := Some(StreamIdentifier("UU", "CWU", "HHZ", "01"));
    var p := Packet(id, 0, 999.4, Float, Some(3000), None);
    var q := p.(startTime := 3001802);
    MakeHeaderOk(p);
    MakeHeaderOk(q);
    var h, g := HeaderOf(p), HeaderOf(q);
    assert SamplePeriod(999.4) == 1001;
    assert h.endTime == 3001999;
    assert Find([h], g).Different?;
    assert Slips([h][0], g);
  }

  /** Packets of one channel in the order in which they were recorded: at least two samples
      each, rates that round to one integer below 1005, and no packet starting before the
      samples of the previous one are over. Gaps are allowed. */
  ghost predicate RecordedRun(ps: seq<Packet>)
  {
    ps != [] ==>
      var q := Last(ps);
      && HasHeader(q) && q.numberOfSamples.value >= 2 && Round(q.samplingRate) < 1005
      && RecordedRun(Prior(ps))
      && (Prior(ps) != [] ==> SameChannel(Last(Prior(ps)), q) && RecordedAfter(Last(Prior(ps)), q))
  }

  /** The headers of the packets that have one. */
  function Headers(ps: seq<Packet>): seq<Header>
  {
    if ps == [] then []
    else
      var front := Headers(Prior(ps));
      if HasHeader(Last(ps)) then front + [HeaderOf(Last(ps))] else front
  }

  lemma {:induction false} RecordedInOrder(first: Packet, ps: seq<Packet>)
    requires RecordedRun([first] + ps)
    ensures HasHeader(first) && |Headers(ps)| == |ps|
    ensures InOrder(HeaderOf(first), Headers(ps))
    ensures ps != [] ==> HasHeader(Last(ps)) && Last(Headers(ps)) == HeaderOf(Last(ps))
  {
    var all := [first] + ps;
    assert Prior([first]) == [];
    if ps == [] {
      assert all == [first];
    } else {
      assert Prior(all) == [first] + Prior(ps) && Last(all) == Last(ps);
      RecordedInOrder(first, Prior(ps));
      var p := Last(Prior(all));
      assert p == if Prior(ps) == [] then first else Last(Prior(ps));
      RecordedSucceeds(p, Last(ps));
      assert Prior(Headers(ps)) == Headers(Prior(ps));
    }
  }

  /** Good data is never refused: the first packet opens its channel's buffer and the whole
      recorded run that follows, however long, is admitted. */
  lemma GoodDataAdmitted(options: Options, first: Packet, ps: seq<Packet>)
    requires OptionsOk(options) && RecordedRun([first] + ps)
    ensures HasHeader(first) && |Headers(ps)| == |ps|
    ensures var h := HeaderOf(first);
      var (channels, v) := Accept(options, map[], h);
      var b := channels[h.name];
      && v == Allowed
      && BufferOk(b) && Offerable(b, Headers(ps)) && AllAdmitted(b, Headers(ps))
      && After(b, Headers(ps)).items == LastN([h] + Headers(ps), b.capacity)
  {
    RecordedInOrder(first, ps);
    MakeHeaderOk(first);
    var h := HeaderOf(first);
    InOrderAdmitted(Buffer(Capacity(options, h), [h]), Headers(ps));
  }

  /** Packets of one channel whose starts are at least a tolerance apart. */
  ghost predicate SpacedRun(ps: seq<Packet>)
  {
    ps != [] ==>
      && HasHeader(Last(ps)) && SpacedRun(Prior(ps))
      && (Prior(ps) != [] ==>
            var p, q := Last(Prior(ps)), Last(ps);
            SameChannel(p, q) && q.startTime - p.startTime >= Tolerance(Round(q.samplingRate)).value)
  }

  /** In such a run every packet starts past the stored end of the one before it. */
  ghost predicate NoSeemingOverlap(ps: seq<Packet>)
    requires SpacedRun(ps)
  {
    ps != [] ==>
      && NoSeemingOverlap(Prior(ps))
      && (Prior(ps) != [] ==> StartsPastStoredEnd(Last(Prior(ps)), Last(ps)))
  }

  lemma {:induction false} SpacedHeaders(first: Packet, ps: seq<Packet>)
    requires SpacedRun([first] + ps)
    ensures HasHeader(first) && |Headers(ps)| == |ps|
    ensures Spaced(HeaderOf(first), Headers(ps))
    ensures ps != [] ==> HasHeader(Last(ps)) && Last(Headers(ps)) == HeaderOf(Last(ps))
    ensures NoSeemingOverlap([first] + ps) <==> InOrder(HeaderOf(first), Headers(ps))
  {
    var all := [first] + ps;
    assert Prior([first]) == [];
    if ps == [] {
      assert all == [first];
    } else {
      assert Prior(all) == [first] + Prior(ps) && Last(all) == Last(ps);
      SpacedHeaders(first, Prior(ps));
      assert Last(Prior(all)) == if Prior(ps) == [] then first else Last(Prior(ps));
      assert Prior(Headers(ps)) == Headers(Prior(ps));
      MakeHeaderOk(Last(ps));
    }
  }

  /** A recorded run is spaced, whatever the length of its packets. */
  lemma {:induction false} ContinuingRunSpaced(ps: seq<Packet>)
    requires forall i :: 0 <= i < |ps| ==> HasHeader(ps[i])
    requires forall i :: 0 < i < |ps| ==> SameChannel(ps[i - 1], ps[i]) && Continues(ps[i - 1], ps[i])
    ensures SpacedRun(ps)
  {
    if ps == [] {
    } else {
      ContinuingRunSpaced(Prior(ps));
      if |ps| > 1 {
        ContinuationReaches(ps[|ps| - 2], ps[|ps| - 1]);
      }
    }
  }

  /** When a run of packets on one channel is admitted in full: if and only if each starts past
      the end that was stored, with a rounded period, for the one before it. */
  lemma SpacedRunAdmittedIff(options: Options, first: Packet, ps: seq<Packet>)
    requires OptionsOk(options) && SpacedRun([first] + ps)
    ensures HasHeader(first) && |Headers(ps)| == |ps|
    ensures var h := HeaderOf(first);
      var (channels, v) := Accept(options, map[], h);
      var b := channels[h.name];
      && v == Allowed
      && BufferOk(b) && Offerable(b, Headers(ps))
      && (AllAdmitted(b, Headers(ps)) <==> NoSeemingOverlap([first] + ps))
  {
    SpacedHeaders(first, ps);
    MakeHeaderOk(first);
    var h := HeaderOf(first);
    RunAdmittedIff(Buffer(Capacity(options, h), [h]), Headers(ps));
  }

  // ----- Disjointness -----

  predicate Disjoint(a: Header, b: Header)
  {
    a.endTime < b.startTime || b.endTime < a.startTime
  }

  /** `h` sticks out of the stored packet at both ends. */
  predicate StrictlyContains(h: Header, stored: Header)
  {
    h.startTime < stored.startTime && stored.endTime < h.endTime
  }

  ghost predicate PairwiseDisjoint(items: seq<Header>)
  {
    forall i, j :: 0 <= i < j < |items| ==> items[i].endTime < items[j].startTime
  }

  /** The slip test looks at the endpoints of the new packet only. It misses an overlap exactly
      when the new packet strictly contains the stored one. */
  lemma SlipTestExact(stored: Header, h: Header)
    requires HeaderOk(stored) && HeaderOk(h)
    ensures Disjoint(stored, h) <==> !Slips(stored, h) && !StrictlyContains(h, stored)
  {
  }

  lemma {:induction false} InsertDisjoint(h: Header, items: seq<Header>)
    requires PairwiseDisjoint(items) && HeaderOk(h)
    requires forall s <- items :: HeaderOk(s) && Disjoint(s, h)
    ensures PairwiseDisjoint(Insert(h, items, START_OF))
  {
    if items == [] || h.startTime < items[0].startTime {
      if items != [] {
        assert HeaderOk(items[0]) && Disjoint(items[0], h);
      }
    } else {
      var rest := Insert(h, items[1..], START_OF);
      InsertDisjoint(h, items[1..]);
      assert HeaderOk(items[0]) && Disjoint(items[0], h);
      forall j | 0 <= j < |rest| ensures items[0].endTime < rest[j].startTime {
        InsertMembers(h, items[1..], START_OF, rest[j]);
        if rest[j] != h {
          var k :| 0 <= k < |items[1..]| && items[1..][k] == rest[j];
          assert items[k + 1] == rest[j];
        }
      }
    }
  }

  /** The packet gets past the search for duplicates and the slip test although it strictly
      contains one of those that will be retained. */
  predicate SlipsPast(b: Buffer, h: Header)
    requires b.Usable()
  {
    && Find(b.items, h).Different?
    && (forall s <- b.items :: !Slips(s, h))
    && (exists s <- b.Retained() :: StrictlyContains(h, s))
  }

  lemma PushFrontDisjoint(b: Buffer, h: Header)
    requires BufferOk(b) && HeaderOk(h) && PairwiseDisjoint(b.items) && h.endTime < b.Oldest().startTime
    ensures PairwiseDisjoint([h] + b.items)
    ensures forall s <- b.Retained() :: !StrictlyContains(h, s)
  {
    forall s <- b.items ensures b.Oldest().startTime <= s.startTime <= s.endTime {
    }
    assert forall s <- b.Retained() :: s in b.items;
  }

  lemma DisjointThenNewer(kept: seq<Header>, h: Header)
    requires PairwiseDisjoint(kept) && forall s <- kept :: s.endTime < h.startTime
    ensures PairwiseDisjoint(kept + [h])
  {
  }

  lemma PushBackDisjoint(b: Buffer, h: Header)
    requires BufferOk(b) && HeaderOk(h) && PairwiseDisjoint(b.items) && h.startTime > b.Newest().endTime
    ensures PairwiseDisjoint(PushBack(b, h).items)
    ensures forall s <- b.Retained() :: !StrictlyContains(h, s)
  {
    assert HeaderOk(b.Newest());
    forall s <- b.Retained() ensures s.startTime <= s.endTime <= b.Newest().endTime {
      assert s in b.items;
    }
    DisjointThenNewer(b.Retained(), h);
  }

  lemma OverlappingNotDisjoint(items: seq<Header>, h: Header, s: Header)
    requires h in items && s in items && HeaderOk(s) && StrictlyContains(h, s)
    ensures !PairwiseDisjoint(items)
  {
    var i :| 0 <= i < |items| && items[i] == s;
    var j :| 0 <= j < |items| && items[j] == h;
    assert items[i] != items[j];
  }

  lemma BackFillDisjointIff(b: Buffer, h: Header)
    requires BufferOk(b) && HeaderOk(h) && PairwiseDisjoint(b.items)
    requires forall s <- b.items :: !Slips(s, h)
    ensures PairwiseDisjoint(BackFill(b, h).items) <==> forall s <- b.Retained() :: !StrictlyContains(h, s)
  {
    var kept := b.Retained();
    assert forall s <- kept :: s in b.items;
    if s :| s in kept && StrictlyContains(h, s) {
      InsertMembers(h, kept, START_OF, s);
      InsertMembers(h, kept, START_OF, h);
      OverlappingNotDisjoint(Insert(h, kept, START_OF), h, s);
    } else {
      forall s <- kept ensures Disjoint(s, h) {
        SlipTestExact(s, h);
      }
      InsertDisjoint(h, kept);
    }
  }

  /** An offer destroys the disjointness of the stored packets if and only if the packet slips
      past both tests around a retained one. */
  lemma OfferDisjointIff(b: Buffer, h: Header)
    requires BufferOk(b) && HeaderOk(h) && h.name == b.items[0].name && PairwiseDisjoint(b.items)
    ensures PairwiseDisjoint(Offer(b, h).0.items) <==> !SlipsPast(b, h)
  {
    if !Find(b.items, h).Different? {
    } else if h.startTime > b.Newest().endTime {
      PushBackDisjoint(b, h);
    } else if h.endTime < b.Oldest().startTime {
      PushFrontDisjoint(b, h);
    } else if forall s <- b.items :: !Slips(s, h) {
      assert Offer(b, h).0 == BackFill(b, h);
      BackFillDisjointIff(b, h);
    } else {
      var s :| s in b.items && Slips(s, h);
      assert exists k :: 0 <= k < |b.items| && b.items[k] == s;
    }
  }

  /** No header of the run, nor of the buffer it meets, is strictly contained in another of
      the run. */
  ghost predicate NoContainment(b: Buffer, hs: seq<Header>)
  {
    forall h <- hs, s <- b.items + hs :: !StrictlyContains(h, s)
  }

  lemma OfferDrawsFrom(b: Buffer, h: Header, s: Header)
    requires b.Usable() && s in Offer(b, h).0.items
    ensures s in b.items || s == h
  {
    InsertMembers(h, b.Retained(), START_OF, s);
  }

  lemma {:induction false} AfterDrawsFrom(b: Buffer, hs: seq<Header>)
    requires BufferOk(b) && Offerable(b, hs)
    ensures forall s <- After(b, hs).items :: s in b.items + hs
  {
    if hs == [] {
    } else {
      AfterDrawsFrom(b, Prior(hs));
      var a := After(b, Prior(hs));
      assert hs == Prior(hs) + [Last(hs)];
      forall s <- After(b, hs).items ensures s in b.items + hs {
        OfferDrawsFrom(a, Last(hs), s);
      }
    }
  }

  /** If no packet offered on a channel strictly contains another, every reachable buffer holds
      pairwise disjoint packets. */
  lemma {:induction false} RunDisjoint(b: Buffer, hs: seq<Header>)
    requires BufferOk(b) && Offerable(b, hs) && PairwiseDisjoint(b.items) && NoContainment(b, hs)
    ensures PairwiseDisjoint(After(b, hs).items)
  {
    if hs == [] {
    } else {
      var a, h := After(b, Prior(hs)), Last(hs);
      assert hs == Prior(hs) + [h];
      RunDisjoint(b, Prior(hs));
      AfterDrawsFrom(b, Prior(hs));
      OfferDisjointIff(a, h);
      assert forall s <- a.Retained() :: s in a.items;
    }
  }

  lemma StoredBetween(b: Buffer, s: Header)
    requires BufferOk(b) && s in b.items
    ensures HeaderOk(s) && b.Oldest().startTime <= s.startTime <= b.Newest().startTime
  {
  }

  lemma NewestEndsLast(b: Buffer, s: Header)
    requires BufferOk(b) && PairwiseDisjoint(b.items) && s in b.items
    ensures s.endTime <= b.Newest().endTime
  {
    assert HeaderOk(b.Newest());
  }

  /** A packet that overlaps a stored one without strictly containing it is admitted if and only
      if it is not a duplicate and starts after the newest stored packet has ended. As long as
      the stored packets are disjoint that cannot be, and the buffer is left as it was. */
  lemma OverlapAdmittedIff(b: Buffer, s: Header, h: Header)
    requires BufferOk(b) && HeaderOk(h) && h.name == b.items[0].name
    requires s in b.items && !Disjoint(s, h) && !StrictlyContains(h, s)
    ensures Offer(b, h).1 == Allowed <==> Find(b.items, h).Different? && h.startTime > b.Newest().endTime
    ensures Offer(b, h).1 != Allowed ==> Offer(b, h).0 == b
    ensures PairwiseDisjoint(b.items) ==> h.startTime <= b.Newest().endTime && Offer(b, h).1 != Allowed
  {
    SlipTestExact(s, h);
    StoredBetween(b, s);
    var i :| 0 <= i < |b.items| && b.items[i] == s;
    if PairwiseDisjoint(b.items) {
      NewestEndsLast(b, s);
    }
  }

  /** Once a long packet has got in around a short one, a packet that starts behind the short
      one but inside the long one is taken for newer than everything. */
  lemma OverlapAdmitted()
    ensures var long := Header("UU.CWU.HHZ.01", 0, 9990000, 100, 1000);
      var short := Header("UU.CWU.HHZ.01", 3000000, 5990000, 100, 300);
      var next := Header("UU.CWU.HHZ.01", 7000000, 8990000, 100, 200);
      && !Disjoint(long, next) && !StrictlyContains(next, long)
      && Offer(Buffer(15, [long, short]), next) == (Buffer(15, [long, short, next]), Allowed)
  {
    var long := Header("UU.CWU.HHZ.01", 0, 9990000, 100, 1000);
    var short := Header("UU.CWU.HHZ.01", 3000000, 5990000, 100, 300);
    var next := Header("UU.CWU.HHZ.01", 7000000, 8990000, 100, 200);
    assert [long, short][1..] == [short];
    assert Find([short], next).Different?;
    assert Find([long, short], next).Different?;
    assert [long, short] + [next] == [long, short, next];
  }

  // ----- Out-of-order data -----

  lemma BackFillChanges(b: Buffer, h: Header)
    requires BufferOk(b) && h !in b.items
    ensures BackFill(b, h) != b
  {
    InsertMembers(h, b.Retained(), START_OF, h);
  }

  lemma PushBackInserts(b: Buffer, h: Header)
    requires BufferOk(b) && h.startTime > b.Newest().endTime
    ensures PushBack(b, h).items == Insert(h, b.Retained(), START_OF)
  {
    assert HeaderOk(b.Newest());
    forall s <- b.Retained() ensures s.startTime <= h.startTime {
      StoredBetween(b, s);
    }
    InsertLargest(h, b.Retained(), START_OF);
  }

  /** A packet that is older than everything goes to the front if there is room ... */
  lemma OfferOldest(b: Buffer, h: Header)
    requires BufferOk(b) && HeaderOk(h) && Find(b.items, h).Different? && h.endTime < b.Oldest().startTime
    ensures Offer(b, h) == (if b.Full() then b else b.(items := [h] + b.items), Refused)
  {
    assert HeaderOk(b.Newest());
    StoredBetween(b, b.Newest());
  }

  /** ... and any other that fits a gap is inserted, after making room if need be. */
  lemma OfferInserts(b: Buffer, h: Header)
    requires BufferOk(b) && HeaderOk(h) && Find(b.items, h).Different? && h.endTime >= b.Oldest().startTime
    requires forall s <- b.items :: !Slips(s, h)
    ensures Offer(b, h) == (BackFill(b, h), Allowed)
  {
    if h.startTime > b.Newest().endTime {
      PushBackInserts(b, h);
    }
  }

  /** A header that fits a gap, not similar to anything stored, is admitted if and only if it
      does not lie before everything stored; it is stored if and only if it is admitted or
      there is room at the front. */
  lemma OutOfOrderAdmittedIff(b: Buffer, h: Header)
    requires BufferOk(b) && HeaderOk(h) && h.name == b.items[0].name
    requires Find(b.items, h).Different? && forall s <- b.items :: Disjoint(s, h)
    ensures Offer(b, h).1 == Allowed <==> h.startTime > b.Oldest().startTime
    ensures Offer(b, h).0 != b <==> h.startTime > b.Oldest().startTime || !b.Full()
    ensures Offer(b, h).1 != Threw
  {
    assert Disjoint(b.Oldest(), h) && HeaderOk(b.Oldest());
    if h.startTime < b.Oldest().startTime {
      OfferOldest(b, h);
      assert ([h] + b.items)[0] != b.items[0];
    } else {
      forall s <- b.items ensures !Slips(s, h) {
        SlipTestExact(s, h);
      }
      OfferInserts(b, h);
      BackFillChanges(b, h);
    }
  }

  /** Two packets a channel delivers in reverse order: the earlier one is kept although the
      verdict refuses it. */
  lemma ReversedPairRefused()
    ensures var later := Header("UU.CWU.HHZ.01", 3000000, 5990000, 100, 300);
      var earlier := Header("UU.CWU.HHZ.01", 0, 2990000, 100, 300);
      Offer(Buffer(15, [later]), earlier) == (Buffer(15, [earlier, later]), Refused)
  {
    var later := Header("UU.CWU.HHZ.01", 3000000, 5990000, 100, 300);
    var earlier := Header("UU.CWU.HHZ.01", 0, 2990000, 100, 300);
    assert Find([later], earlier).Different?;
    assert [earlier] + [later] == [earlier, later];
  }

  /** A long packet around a short one is admitted, and the buffer is no longer disjoint. */
  lemma ContainingPacketAdmitted()
    ensures var short := Header("UU.CWU.HHZ.01", 3000000, 5990000, 100, 300);
      var long := Header("UU.CWU.HHZ.01", 0, 9990000, 100, 1000);
      && Offer(Buffer(15, [short]), long) == (Buffer(15, [long, short]), Allowed)
      && !PairwiseDisjoint([long, short])
  {
    var short := Header("UU.CWU.HHZ.01", 3000000, 5990000, 100, 300);
    var long := Header("UU.CWU.HHZ.01", 0, 9990000, 100, 1000);
    assert Find([short], long).Different?;
    assert Insert(long, [short], START_OF) == [long, short];
    assert !PairwiseDisjoint([long, short]) by {
      assert [long, short][0].endTime >= [long, short][1].startTime;
    }
  }

  // ----- Capacity -----

  lemma Scale(x: real, y: real, z: real)
    requires x > y && z > 0.0
    ensures x * z > y * z
  {
  }

  lemma CoversRounded(c: real, d: real, memory: real)
    requires d > 0.0 && c > memory / d
    ensures c * d > memory
  {
    assert memory / d * d == memory;
    Scale(c, memory / d, d);
  }

  lemma NotMore(c: real, d: real, memory: real)
    requires d > 0.0 && c <= memory / d
    ensures c * d <= memory
  {
    assert memory / d * d == memory;
    Scale2(d, memory / d, c);
  }

  lemma CoversExact(c: real, d: real, exact: real, memory: real)
    requires c > 0.0 && c * d > memory && exact >= d / 2.0
    ensures c * exact > memory / 2.0
  {
    assert c * (d / 2.0) == c * d / 2.0;
    Scale2(c, exact, d / 2.0);
  }

  /** Whenever the rounded duration is at least a second, the estimated capacity covers the
      requested memory one and a half times in rounded durations, and three quarters of it in
      true durations; above the minimum one packet less would not do. */
  lemma CapacityCoversMemory(h: Header, memory: nat, infinityAsInt: int)
    requires RoundedDuration(h) >= 1
    ensures var c, d := EstimateCapacity(h, memory, infinityAsInt), RoundedDuration(h);
      && c >= 11
      && c as real * d as real > 1.5 * memory as real
      && c as real * ExactDuration(h) > 0.75 * memory as real
      && (c == 11 || (c - 1) as real * d as real <= 1.5 * memory as real)
  {
    var c, d := EstimateCapacity(h, memory, infinityAsInt), RoundedDuration(h);
    CoversRounded(c as real, d as real, 1.5 * memory as real);
    if c > 11 {
      NotMore((c - 1) as real, d as real, 1.5 * memory as real);
    }
    var exact := ExactDuration(h);
    assert exact >= d as real - 0.5 >= d as real / 2.0;
    CoversExact(c as real, d as real, exact, 1.5 * memory as real);
  }

  /** Each header starts at least `step` microseconds after the one before it. */
  ghost predicate SpacedBy(first: Header, hs: seq<Header>, step: real)
  {
    hs != [] ==>
      && SpacedBy(first, Prior(hs), step)
      && (Last(hs).startTime - NewestOf(first, Prior(hs)).startTime) as real >= step
  }

  /** How far, in microseconds, the channel has moved on. */
  function Moved(first: Header, hs: seq<Header>): real
  {
    (NewestOf(first, hs).startTime - first.startTime) as real
  }

  function Steps(n: nat, step: real): real
  {
    if n == 0 then 0.0 else Steps(n - 1, step) + step
  }

  lemma {:induction false} StepsAdd(n: nat, step: real)
    ensures Steps(n, step) == n as real * step
  {
    if n == 0 {
    } else {
      StepsAdd(n - 1, step);
    }
  }

  lemma {:induction false} SpanGrows(first: Header, hs: seq<Header>, step: real)
    requires SpacedBy(first, hs, step)
    ensures Moved(first, hs) >= Steps(|hs|, step)
  {
    if hs == [] {
    } else {
      SpanGrows(first, Prior(hs), step);
    }
  }

  lemma NewestStays<T>(s: seq<T>, t: seq<T>, n: nat)
    requires s != [] && |t| < n
    ensures Last(s) in LastN(s + t, n)
  {
    var k := |s + t| - |LastN(s + t, n)|;
    assert LastN(s + t, n)[|s| - 1 - k] == (s + t)[|s| - 1];
  }

  /** As long as fewer headers than the capacity have followed in order, the newest one of then
      is remembered. */
  lemma NewestWithinCapacity(b: Buffer, hs: seq<Header>, h: Header)
    requires BufferOk(b) && InOrder(b.Newest(), hs) && |hs| < b.capacity && Similar(b.Newest(), h)
    ensures Offerable(b, hs) && Offer(After(b, hs), h) == (After(b, hs), Refused)
  {
    InOrderAdmitted(b, hs);
    NewestStays(b.items, hs, b.capacity);
    RememberedIsRefused(After(b, hs), b.Newest(), h);
  }

  lemma {:induction false} FewerSteps(m: nat, n: nat, step: real)
    requires step >= 0.0 && Steps(m, step) < Steps(n, step)
    ensures m < n
  {
    if m == 0 {
    } else if n > 0 {
      FewerSteps(m - 1, n - 1, step);
    } else {
      StepsAdd(m, step);
      Scale2(step, m as real, 0.0);
    }
  }

  /** The same in time: while the channel has moved on by less than its capacity in steps. */
  lemma SpanWindow(b: Buffer, hs: seq<Header>, step: real, span: real, h: Header)
    requires BufferOk(b) && InOrder(b.Newest(), hs) && SpacedBy(b.Newest(), hs, step)
    requires Moved(b.Newest(), hs) <= span < Steps(b.capacity, step)
    requires step >= 0.0 && Similar(b.Newest(), h)
    ensures Offerable(b, hs) && Offer(After(b, hs), h) == (After(b, hs), Refused)
  {
    SpanGrows(b.Newest(), hs, step);
    FewerSteps(|hs|, b.capacity, step);
    NewestWithinCapacity(b, hs, h);
  }

  lemma StepsCover(c: real, exact: real, step: real, memory: real)
    requires c > 0.0 && step >= 1000000.0 * exact && c * exact > memory
    ensures c * step > 1000000.0 * memory
  {
    Scale2(c, step, 1000000.0 * exact);
    assert c * (1000000.0 * exact) == 1000000.0 * (c * exact);
  }

  lemma CapacityCoversSteps(first: Header, memory: nat, infinityAsInt: int, step: real)
    requires RoundedDuration(first) >= 1 && step >= 1000000.0 * ExactDuration(first)
    ensures Steps(EstimateCapacity(first, memory, infinityAsInt), step) > 750000.0 * memory as real
    ensures step >= 0.0
  {
    var c, exact := EstimateCapacity(first, memory, infinityAsInt) as real, ExactDuration(first);
    CapacityCoversMemory(first, memory, infinityAsInt);
    assert exact >= 0.0;
    StepsAdd(EstimateCapacity(first, memory, infinityAsInt), step);
    StepsCover(c, exact, step, 0.75 * memory as real);
  }

  /** What the requested memory buys: while an in-order channel has moved on by no more than
      three quarters of the requested time, its packets lasting at least as long as the one
      that opened the channel, the packet that was newest then is still remembered. */
  lemma MemoryWindow(b: Buffer, first: Header, memory: nat, infinityAsInt: int,
                     hs: seq<Header>, step: real, h: Header)
    requires RoundedDuration(first) >= 1 && step >= 1000000.0 * ExactDuration(first)
    requires BufferOk(b) && b.capacity == EstimateCapacity(first, memory, infinityAsInt)
    requires InOrder(b.Newest(), hs) && SpacedBy(b.Newest(), hs, step)
    requires Moved(b.Newest(), hs) <= 750000.0 * memory as real
    requires Similar(b.Newest(), h)
    ensures Offerable(b, hs) && Offer(After(b, hs), h) == (After(b, hs), Refused)
  {
    CapacityCoversSteps(first, memory, infinityAsInt, step);
    SpanWindow(b, hs, step, 750000.0 * memory as real, h);
  }

  // ----- Many channels -----

  ghost predicate AllOk(hs: seq<Header>)
  {
    forall h <- hs :: HeaderOk(h)
  }

  /** The detector's buffers after a run over all channels. */
  ghost function Run(options: Options, hs: seq<Header>): (channels: Channels)
    requires OptionsOk(options) && AllOk(hs)
    ensures ChannelsOk(channels)
  {
    if hs == [] then map[]
    else
      AcceptKeepsOk(options, Run(options, Prior(hs)), Last(hs));
      Accept(options, Run(options, Prior(hs)), Last(hs)).0
  }

  function OfChannel(hs: seq<Header>, n: Name): seq<Header>
  {
    if hs == [] then []
    else
      var front := OfChannel(Prior(hs), n);
      if Last(hs).name == n then front + [Last(hs)] else front
  }

  lemma {:induction false} OfChannelDraws(hs: seq<Header>, n: Name)
    requires AllOk(hs)
    ensures forall h <- OfChannel(hs, n) :: HeaderOk(h) && h.name == n
  {
    if hs == [] {
    } else {
      OfChannelDraws(Prior(hs), n);
    }
  }

  /** The buffer that a channel's own headers alone would have led to. */
  ghost function Alone(options: Options, hs: seq<Header>): (b: Buffer)
    requires OptionsOk(options) && hs != []
    requires forall h <- hs :: HeaderOk(h) && h.name == hs[0].name
    ensures BufferOk(b) && b.items[0].name == hs[0].name
  {
    After(Buffer(Capacity(options, hs[0]), [hs[0]]), hs[1..])
  }

  lemma AloneMore(options: Options, hs: seq<Header>, h: Header)
    requires OptionsOk(options) && hs != [] && HeaderOk(h) && h.name == hs[0].name
    requires forall g <- hs :: HeaderOk(g) && g.name == hs[0].name
    ensures forall g <- hs + [h] :: HeaderOk(g) && g.name == (hs + [h])[0].name
    ensures Alone(options, hs + [h]) == Offer(Alone(options, hs), h).0
  {
    assert (hs + [h])[1..] == hs[1..] + [h];
    assert Prior(hs[1..] + [h]) == hs[1..] && Last(hs[1..] + [h]) == h;
  }

  lemma AcceptTouchesOwnChannel(options: Options, channels: Channels, h: Header, n: Name)
    requires OptionsOk(options) && ChannelsOk(channels)
    ensures var after := Accept(options, channels, h).0;
      && (n in after <==> n in channels || n == h.name)
      && (n in after && n != h.name ==> after[n] == channels[n])
      && (n == h.name ==> after[n] == if n in channels then Offer(channels[n], h).0
                                      else Buffer(Capacity(options, h), [h]))
  {
  }

  /** Channels do not interfere: however their headers are interleaved, each buffer is what
      the channel's own headers alone lead to. Everything said about one buffer's run holds
      of every channel of the detector. */
  lemma {:induction false} ChannelsIndependent(options: Options, hs: seq<Header>, n: Name)
    requires OptionsOk(options) && AllOk(hs)
    ensures n in Run(options, hs) <==> OfChannel(hs, n) != []
    ensures forall h <- OfChannel(hs, n) :: HeaderOk(h) && h.name == n
    ensures n in Run(options, hs) ==> Run(options, hs)[n] == Alone(options, OfChannel(hs, n))
  {
    OfChannelDraws(hs, n);
    if hs == [] {
    } else {
      ChannelsIndependent(options, Prior(hs), n);
      AcceptTouchesOwnChannel(options, Run(options, Prior(hs)), Last(hs), n);
      var own, h := OfChannel(Prior(hs), n), Last(hs);
      if h.name == n {
        if own == [] {
          assert own + [h] == [h];
        } else {
          AloneMore(options, own, h);
        }
      }
    }
  }
}
