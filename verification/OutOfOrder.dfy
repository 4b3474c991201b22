/** What the duplicate detector does with disjoint packets that arrive in any order, and when
    what it stores stays disjoint over a run. */
module OutOfOrder {
  import opened Sequences
  import opened Sorting
  import opened DuplicateDetector
  import opened DetectorHistory

  /** No two of the packets overlap or can be taken for each other. */
  ghost predicate Compatible(items: seq<Header>)
  {
    forall i, j :: 0 <= i < j < |items| ==> Disjoint(items[i], items[j]) && Compare(items[i], items[j]).Different?
  }

  lemma CompatibleWithLast(items: seq<Header>, h: Header)
    requires Compatible(items + [h])
    ensures Compatible(items)
    ensures forall s <- items :: Disjoint(s, h) && Compare(s, h).Different?
  {
    forall i, j | 0 <= i < j < |items| ensures Disjoint(items[i], items[j]) && Compare(items[i], items[j]).Different? {
      assert (items + [h])[i] == items[i] && (items + [h])[j] == items[j];
    }
    forall s <- items ensures Disjoint(s, h) && Compare(s, h).Different? {
      var i :| 0 <= i < |items| && items[i] == s;
      assert (items + [h])[i] == s && (items + [h])[|items|] == h;
    }
  }

  // ----- One packet -----

  /** Wherever a compatible packet goes, the buffer then holds, in order, the newest of what it
      held and the packet itself; the packet is admitted unless it is older than everything. */
  lemma OfferKeepsNewest(b: Buffer, h: Header)
    requires BufferOk(b) && HeaderOk(h) && h.name == b.items[0].name
    requires forall s <- b.items :: Disjoint(s, h) && Compare(s, h).Different?
    ensures Offer(b, h).1 == Allowed <==> h.startTime > b.Oldest().startTime
    ensures Offer(b, h).0.items ==
        if !b.Full() then Insert(h, b.items, START_OF)
        else if h.startTime < b.Oldest().startTime then b.items
        else Insert(h, b.items[1..], START_OF)
  {
    FindsNothing(b.items, h);
    OutOfOrderAdmittedIff(b, h);
    assert Disjoint(b.Oldest(), h) && HeaderOk(b.Oldest());
    if h.startTime < b.Oldest().startTime {
      OfferOldest(b, h);
    } else {
      forall s <- b.items ensures !Slips(s, h) {
        SlipTestExact(s, h);
      }
      OfferInserts(b, h);
    }
  }

  // ----- Insertion into the newest part of a sorted sequence -----

  lemma FirstAndRest<T>(s: seq<T>, t: seq<T>)
    requires s != []
    ensures [s[0]] + (s[1..] + t) == s + t
  {
  }

  lemma {:induction false} InsertPast<T>(x: T, s: seq<T>, t: seq<T>, key: T -> int)
    requires forall e <- s :: key(e) <= key(x)
    ensures Insert(x, s + t, key) == s + Insert(x, t, key)
  {
    if s == [] {
      assert s + t == t;
    } else {
      InsertPast(x, s[1..], t, key);
      assert (s + t)[1..] == s[1..] + t;
      FirstAndRest(s, Insert(x, t, key));
    }
  }

  lemma {:induction false} InsertBefore<T>(x: T, s: seq<T>, t: seq<T>, key: T -> int)
    requires t != [] && key(x) < key(t[0])
    ensures Insert(x, s + t, key) == Insert(x, s, key) + t
  {
    if s == [] {
      assert s + t == t;
    } else {
      assert (s + t)[1..] == s[1..] + t;
      if key(x) < key(s[0]) {
        assert [x] + (s + t) == [x] + s + t;
      } else {
        InsertBefore(x, s[1..], t, key);
      }
    }
  }

  lemma InsertLength<T>(x: T, s: seq<T>, key: T -> int)
    ensures |Insert(x, s, key)| == |s| + 1
  {
    InsertElements(x, s, key);
    assert |multiset(Insert(x, s, key))| == |multiset(s)| + 1;
  }

  /** The newest `n` after an insertion, from the newest `n` before it. */
  lemma InsertIntoNewest(h: Header, s: seq<Header>, n: nat)
    requires n > 0 && StrictlySorted(s) && forall e <- s :: e.startTime != h.startTime
    ensures var newest := LastN(s, n);
      LastN(Insert(h, s, START_OF), n) ==
        if |s| < n then Insert(h, newest, START_OF)
        else if h.startTime < newest[0].startTime then newest
        else Insert(h, newest[1..], START_OF)
  {
    InsertLength(h, s, START_OF);
    if |s| >= n {
      var k := |s| - n;
      var past, newest := s[..k], s[k..];
      assert s == past + newest;
      if h.startTime < newest[0].startTime {
        InsertBefore(h, past, newest, START_OF);
        InsertLength(h, past, START_OF);
      } else {
        assert s == s[..k + 1] + newest[1..];
        assert forall e <- s[..k + 1] :: e.startTime <= newest[0].startTime;
        InsertPast(h, s[..k + 1], newest[1..], START_OF);
        InsertLength(h, newest[1..], START_OF);
      }
    }
  }

  lemma SortedMembers(items: seq<Header>)
    ensures |SortBy(items, START_OF)| == |items|
    ensures forall s :: s in SortBy(items, START_OF) <==> s in items
  {
    SortBySorts(items, START_OF);
    SameLength(SortBy(items, START_OF), items);
    assert forall s :: s in SortBy(items, START_OF) <==> s in multiset(items);
  }

  // ----- A whole run in any order -----

  ghost predicate Shuffled(b: Buffer, hs: seq<Header>)
  {
    BufferOk(b) && Offerable(b, hs) && Compatible(b.items + hs)
  }

  lemma ShuffledPrior(b: Buffer, hs: seq<Header>)
    requires Shuffled(b, hs) && hs != []
    ensures Shuffled(b, Prior(hs))
    ensures forall s <- b.items + Prior(hs) :: Disjoint(s, Last(hs)) && Compare(s, Last(hs)).Different?
    ensures forall s <- b.items + Prior(hs) :: HeaderOk(s)
    ensures b.items + hs == (b.items + Prior(hs)) + [Last(hs)]
  {
    AppendLast(b.items, hs);
    CompatibleWithLast(b.items + Prior(hs), Last(hs));
    assert forall h <- Prior(hs) :: h in hs;
  }

  /** In whatever order disjoint packets of a channel are offered, the buffer holds the newest
      of them that fit, sorted. */
  lemma {:induction false} AnyOrderKeepsNewest(b: Buffer, hs: seq<Header>)
    requires Shuffled(b, hs)
    ensures After(b, hs).items == LastN(SortBy(b.items + hs, START_OF), b.capacity)
    ensures StrictlySorted(SortBy(b.items + hs, START_OF))
  {
    if hs == [] {
      assert b.items + hs == b.items;
      SortedIsFixed(b.items, START_OF);
    } else {
      var a, h := After(b, Prior(hs)), Last(hs);
      var all := b.items + Prior(hs);
      ShuffledPrior(b, hs);
      AnyOrderKeepsNewest(b, Prior(hs));
      SortedMembers(all);
      assert Last(b.items + hs) == h && (b.items + hs)[..|b.items + hs| - 1] == all;
      InsertStrict(h, SortBy(all, START_OF));
      OfferKeepsNewest(a, h);
      InsertIntoNewest(h, SortBy(all, START_OF), b.capacity);
    }
  }

  /** The order in which the packets come makes no difference to what is stored in the end. */
  lemma OrderDoesNotMatter(b: Buffer, hs: seq<Header>, ks: seq<Header>)
    requires Shuffled(b, hs) && Shuffled(b, ks) && multiset(hs) == multiset(ks)
    ensures After(b, hs) == After(b, ks)
  {
    var s, t := SortBy(b.items + hs, START_OF), SortBy(b.items + ks, START_OF);
    AnyOrderKeepsNewest(b, hs);
    AnyOrderKeepsNewest(b, ks);
    SortBySorts(b.items + hs, START_OF);
    SortBySorts(b.items + ks, START_OF);
    SortUnique(s, t, START_OF);
  }

  // ----- When such a run is admitted in full -----

  /** How many of the packets start after `h`. */
  function Newer(items: seq<Header>, h: Header): nat
  {
    if items == [] then 0 else (if items[0].startTime > h.startTime then 1 else 0) + Newer(items[1..], h)
  }

  lemma {:induction false} NewerConcat(s: seq<Header>, t: seq<Header>, h: Header)
    ensures Newer(s + t, h) == Newer(s, h) + Newer(t, h)
  {
    if s == [] {
      assert s + t == t;
    } else {
      assert (s + t)[1..] == s[1..] + t;
      NewerConcat(s[1..], t, h);
    }
  }

  lemma {:induction false} NewerInsert(x: Header, s: seq<Header>, h: Header)
    ensures Newer(Insert(x, s, START_OF), h) == Newer(s, h) + Newer([x], h)
  {
    assert [x][1..] == [];
    if s == [] || x.startTime < s[0].startTime {
      NewerConcat([x], s, h);
    } else {
      var rest := Insert(x, s[1..], START_OF);
      NewerInsert(x, s[1..], h);
      assert ([s[0]] + rest)[1..] == rest;
    }
  }

  lemma {:induction false} NewerSorted(s: seq<Header>, h: Header)
    ensures Newer(SortBy(s, START_OF), h) == Newer(s, h)
  {
    if s == [] {
    } else {
      var front := s[..|s| - 1];
      NewerSorted(front, h);
      NewerInsert(s[|s| - 1], SortBy(front, START_OF), h);
      NewerConcat(front, [s[|s| - 1]], h);
      assert s == front + [s[|s| - 1]];
    }
  }

  lemma {:induction false} NewerBounds(s: seq<Header>, h: Header)
    ensures Newer(s, h) <= |s|
    ensures (forall e <- s :: e.startTime > h.startTime) ==> Newer(s, h) == |s|
    ensures (forall e <- s :: e.startTime <= h.startTime) ==> Newer(s, h) == 0
    ensures s != [] && s[0].startTime <= h.startTime ==> Newer(s, h) < |s|
  {
    if s == [] {
    } else {
      NewerBounds(s[1..], h);
      assert forall e <- s[1..] :: e in s;
      assert s[0] in s;
    }
  }

  lemma PastIsOlder(past: seq<Header>, newest: seq<Header>)
    requires newest != [] && StrictlySorted(past + newest)
    ensures forall e <- past :: e.startTime < newest[0].startTime
  {
    forall e <- past ensures e.startTime < newest[0].startTime {
      var i :| 0 <= i < |past| && past[i] == e;
      assert (past + newest)[i] == e && (past + newest)[|past|] == newest[0];
    }
  }

  lemma FirstIsOldest(items: seq<Header>)
    requires items != [] && StrictlySorted(items)
    ensures forall e <- items :: items[0].startTime <= e.startTime
  {
  }

  lemma NewerThanFirstIff(past: seq<Header>, newest: seq<Header>, h: Header)
    requires newest != [] && StrictlySorted(past + newest) && StrictlySorted(newest)
    requires newest[0].startTime != h.startTime
    ensures h.startTime > newest[0].startTime <==> Newer(past, h) + Newer(newest, h) < |newest|
  {
    NewerBounds(newest, h);
    if h.startTime > newest[0].startTime {
      PastIsOlder(past, newest);
      NewerBounds(past, h);
    } else {
      FirstIsOldest(newest);
    }
  }

  /** A packet is newer than the oldest of the newest `n` exactly when fewer than these are
      newer than it. */
  lemma NewerThanOldestIff(s: seq<Header>, h: Header, n: nat)
    requires n > 0 && s != [] && StrictlySorted(s) && forall e <- s :: e.startTime != h.startTime
    ensures h.startTime > LastN(s, n)[0].startTime <==> Newer(s, h) < |LastN(s, n)|
  {
    var k := |s| - |LastN(s, n)|;
    var past, newest := s[..k], s[k..];
    assert s == past + newest && newest == LastN(s, n);
    assert newest[0] == s[k];
    NewerConcat(past, newest, h);
    NewerThanFirstIff(past, newest, h);
  }

  lemma NewerThanRetainedIff(all: seq<Header>, h: Header, n: nat)
    requires n > 0 && all != [] && StrictlySorted(SortBy(all, START_OF))
    requires forall e <- all :: HeaderOk(e) && Disjoint(e, h)
    requires HeaderOk(h)
    ensures var kept := LastN(SortBy(all, START_OF), n);
      && kept != []
      && (h.startTime > kept[0].startTime <==> Newer(all, h) < if |all| < n then |all| else n)
  {
    SortedMembers(all);
    NewerSorted(all, h);
    NewerThanOldestIff(SortBy(all, START_OF), h, n);
  }

  /** No packet comes after as many newer ones as the buffer holds, or after newer ones only. */
  ghost predicate NoneTooLate(b: Buffer, hs: seq<Header>)
  {
    hs != [] ==>
      var before := b.items + Prior(hs);
      && NoneTooLate(b, Prior(hs))
      && Newer(before, Last(hs)) < (if |before| < b.capacity then |before| else b.capacity)
  }

  /** A buffer that holds the newest of `all` admits a packet that does not come too late. */
  lemma OfferAdmittedIff(b: Buffer, all: seq<Header>, h: Header)
    requires BufferOk(b) && HeaderOk(h) && h.name == b.items[0].name
    requires all != [] && StrictlySorted(SortBy(all, START_OF)) && b.items == LastN(SortBy(all, START_OF), b.capacity)
    requires forall s <- all :: HeaderOk(s) && Disjoint(s, h) && Compare(s, h).Different?
    ensures Offer(b, h).1 == Allowed <==> Newer(all, h) < if |all| < b.capacity then |all| else b.capacity
  {
    SortedMembers(all);
    assert forall s <- b.items :: s in SortBy(all, START_OF);
    NewerThanRetainedIff(all, h, b.capacity);
    OfferKeepsNewest(b, h);
  }

  lemma NextAdmittedIff(b: Buffer, hs: seq<Header>)
    requires Shuffled(b, hs) && hs != []
    ensures var before := b.items + Prior(hs);
      && Offerable(b, Prior(hs))
      && (Offer(After(b, Prior(hs)), Last(hs)).1 == Allowed <==>
            Newer(before, Last(hs)) < if |before| < b.capacity then |before| else b.capacity)
  {
    ShuffledPrior(b, hs);
    AnyOrderKeepsNewest(b, Prior(hs));
    OfferAdmittedIff(After(b, Prior(hs)), b.items + Prior(hs), Last(hs));
  }

  /** A run of disjoint packets, in any order and of any length, is admitted in full if and only
      if none of them comes too late. */
  lemma {:induction false} AnyOrderAdmittedIff(b: Buffer, hs: seq<Header>)
    requires Shuffled(b, hs)
    ensures AllAdmitted(b, hs) <==> NoneTooLate(b, hs)
  {
    if hs == [] {
    } else {
      ShuffledPrior(b, hs);
      NextAdmittedIff(b, hs);
      AnyOrderAdmittedIff(b, Prior(hs));
    }
  }

  lemma {:induction false} NoneTooLateWithRoom(b: Buffer, hs: seq<Header>)
    requires Shuffled(b, hs) && |b.items| + |hs| <= b.capacity
    ensures NoneTooLate(b, hs) <==> forall h <- hs :: h.startTime > b.Oldest().startTime
  {
    if hs == [] {
    } else {
      var before, h := b.items + Prior(hs), Last(hs);
      ShuffledPrior(b, hs);
      NoneTooLateWithRoom(b, Prior(hs));
      NewerBounds(before, h);
      assert before[0] == b.Oldest() && Disjoint(before[0], h) && HeaderOk(before[0]);
      assert forall g <- hs :: g in Prior(hs) || g == h;
      assert h in hs && forall g <- Prior(hs) :: g in hs;
      if h.startTime < b.Oldest().startTime && NoneTooLate(b, Prior(hs)) {
        forall e <- before ensures e.startTime > h.startTime {
          if e in b.items {
            StoredBetween(b, e);
          }
        }
      }
    }
  }

  /** While there is room for all of them, that is the case if and only if the oldest packet
      comes first; stored they are in any case. */
  lemma OldestFirstIff(b: Buffer, hs: seq<Header>)
    requires Shuffled(b, hs) && |b.items| + |hs| <= b.capacity
    ensures AllAdmitted(b, hs) <==> forall h <- hs :: h.startTime > b.Oldest().startTime
    ensures After(b, hs).items == SortBy(b.items + hs, START_OF)
  {
    AnyOrderAdmittedIff(b, hs);
    NoneTooLateWithRoom(b, hs);
    AnyOrderKeepsNewest(b, hs);
    SortedMembers(b.items + hs);
  }

  /** Seen from a detector that does not know the channel yet: as many packets as its buffer
      holds, in any order, are all stored; they are all admitted if and only if the oldest of
      them comes first. */
  lemma ShuffledRunAdmittedIff(options: Options, hs: seq<Header>)
    requires OptionsOk(options) && hs != [] && Compatible(hs)
    requires forall h <- hs :: HeaderOk(h) && h.name == hs[0].name
    requires |hs| <= Capacity(options, hs[0])
    ensures var (channels, v) := Accept(options, map[], hs[0]);
      var b := channels[hs[0].name];
      && v == Allowed && BufferOk(b) && Offerable(b, hs[1..])
      && (AllAdmitted(b, hs[1..]) <==> forall h <- hs[1..] :: h.startTime > hs[0].startTime)
      && After(b, hs[1..]).items == SortBy(hs, START_OF)
  {
    var b := Buffer(Capacity(options, hs[0]), [hs[0]]);
    FirstAndRest(hs, []);
    assert b.items + hs[1..] == hs;
    assert forall h <- hs[1..] :: h in hs;
    OldestFirstIff(b, hs[1..]);
  }

  // ----- Disjointness over a run -----

  /** After every offer of the run the stored packets are disjoint. */
  ghost predicate AlwaysDisjoint(b: Buffer, hs: seq<Header>)
    requires BufferOk(b) && Offerable(b, hs)
  {
    PairwiseDisjoint(After(b, hs).items) && (hs != [] ==> AlwaysDisjoint(b, Prior(hs)))
  }

  /** No offer of the run gets past the tests around a packet that is retained. */
  ghost predicate NoneSlipsPast(b: Buffer, hs: seq<Header>)
    requires BufferOk(b) && Offerable(b, hs)
  {
    hs != [] ==> NoneSlipsPast(b, Prior(hs)) && !SlipsPast(After(b, Prior(hs)), Last(hs))
  }

  /** Stored packets stay disjoint throughout a run if and only if none slips past. */
  lemma {:induction false} AlwaysDisjointIff(b: Buffer, hs: seq<Header>)
    requires BufferOk(b) && Offerable(b, hs) && PairwiseDisjoint(b.items)
    ensures AlwaysDisjoint(b, hs) <==> NoneSlipsPast(b, hs)
  {
    if hs == [] {
    } else {
      AlwaysDisjointIff(b, Prior(hs));
      if AlwaysDisjoint(b, Prior(hs)) {
        OfferDisjointIff(After(b, Prior(hs)), Last(hs));
      }
    }
  }
}
