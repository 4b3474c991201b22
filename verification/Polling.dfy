/** The order in which one fetch polls the streams: contexts by address, the names in each
    active set in the order of std::string (src/subscriptionManager.cpp). */
module Polling {
  import opened Sequences
  import opened Utilities
  import opened Streams
  import opened Subscriptions

  // ----- The order of names -----

  /** Lexicographic comparison. */
  predicate Below(a: Name, b: Name)
  {
    b != "" && (a == "" || a[0] < b[0] || (a[0] == b[0] && Below(a[1..], b[1..])))
  }

  /** At the first character in which two names differ the smaller one decides ... */
  lemma {:induction false} BelowAtDifference(s: Name, x: char, y: char, t: Name, u: Name)
    requires x < y
    ensures Below(s + [x] + t, s + [y] + u)
  {
    if s == "" {
      assert "" + [x] + t == [x] + t && "" + [y] + u == [y] + u;
    } else {
      BelowAtDifference(s[1..], x, y, t, u);
      assert (s + [x] + t)[1..] == s[1..] + [x] + t;
      assert (s + [y] + u)[1..] == s[1..] + [y] + u;
    }
  }

  /** ... and a name comes before whatever extends it. */
  lemma {:induction false} BelowExtension(s: Name, t: Name)
    requires t != ""
    ensures Below(s, s + t)
  {
    if s == "" {
      assert s + t == t;
    } else {
      BelowExtension(s[1..], t);
      assert (s + t)[1..] == s[1..] + t;
    }
  }

  lemma {:induction false} BelowIrreflexive(a: Name)
    ensures !Below(a, a)
  {
    if a == "" {
    } else {
      BelowIrreflexive(a[1..]);
    }
  }

  lemma {:induction false} BelowOrdersStrictly(a: Name, b: Name)
    ensures a == b || Below(a, b) || Below(b, a)
    ensures !(Below(a, b) && Below(b, a)) && !Below(a, a)
  {
    if a != "" && b != "" && a[0] == b[0] {
      BelowOrdersStrictly(a[1..], b[1..]);
      assert a == [a[0]] + a[1..] && b == [b[0]] + b[1..];
    }
    if a == "" {
    } else {
      BelowIrreflexive(a);
    }
  }

  lemma {:induction false} BelowTrans(a: Name, b: Name, c: Name)
    requires Below(a, b) && Below(b, c)
    ensures Below(a, c)
  {
    if a != "" && a[0] == b[0] == c[0] {
      BelowTrans(a[1..], b[1..], c[1..]);
    }
  }

  predicate IsFirstName(n: Name, names: set<Name>)
  {
    n in names && forall m <- names :: m == n || Below(n, m)
  }

  predicate IsFirstContext(c: Context, contexts: set<Context>)
  {
    c in contexts && forall d <- contexts :: c <= d
  }

  lemma {:induction false} FirstNameExists(names: set<Name>)
    requires names != {}
    ensures exists n :: IsFirstName(n, names)
  {
    var n :| n in names;
    var rest := names - {n};
    assert names == rest + {n};
    if rest == {} {
      assert IsFirstName(n, names);
    } else {
      FirstNameExists(rest);
      var m :| IsFirstName(m, rest);
      BelowOrdersStrictly(n, m);
      if Below(m, n) {
        assert IsFirstName(m, names);
      } else {
        forall k | k in names && k != n ensures Below(n, k) {
          if k != m {
            BelowTrans(n, m, k);
          }
        }
        assert IsFirstName(n, names);
      }
    }
  }

  lemma FirstNameUnique(m: Name, n: Name, names: set<Name>)
    requires IsFirstName(m, names) && IsFirstName(n, names)
    ensures m == n
  {
    BelowOrdersStrictly(m, n);
  }

  lemma {:induction false} FirstContextExists(contexts: set<Context>)
    requires contexts != {}
    ensures exists c :: IsFirstContext(c, contexts)
  {
    var c :| c in contexts;
    var rest := contexts - {c};
    assert contexts == rest + {c};
    if rest == {} {
      assert IsFirstContext(c, contexts);
    } else {
      FirstContextExists(rest);
      var d :| IsFirstContext(d, rest);
      assert IsFirstContext(if d < c then d else c, contexts);
    }
  }

  lemma FirstContextUnique(c: Context, d: Context, contexts: set<Context>)
    requires IsFirstContext(c, contexts) && IsFirstContext(d, contexts)
    ensures c == d
  {
  }

  // ----- The visits of one fetch -----

  /** The names of a set in order. */
  ghost function NamesInOrder(names: set<Name>): seq<Name>
  {
    if names == {} then []
    else
      FirstNameExists(names);
      var n :| IsFirstName(n, names);
      [n] + NamesInOrder(names - {n})
  }

  /** The streams visited when the active sets of these contexts are walked in order. */
  ghost function Visits(active: map<Context, set<Name>>, contexts: set<Context>): seq<Name>
    requires contexts <= active.Keys
  {
    if contexts == {} then []
    else
      FirstContextExists(contexts);
      var c :| IsFirstContext(c, contexts);
      NamesInOrder(active[c]) + Visits(active, contexts - {c})
  }

  lemma NamesStep(names: set<Name>, n: Name)
    requires IsFirstName(n, names)
    ensures NamesInOrder(names) == [n] + NamesInOrder(names - {n})
  {
    FirstNameExists(names);
    var m :| IsFirstName(m, names) && NamesInOrder(names) == [m] + NamesInOrder(names - {m});
    FirstNameUnique(m, n, names);
  }

  lemma VisitsStep(active: map<Context, set<Name>>, contexts: set<Context>, c: Context)
    requires contexts <= active.Keys && IsFirstContext(c, contexts)
    ensures Visits(active, contexts) == NamesInOrder(active[c]) + Visits(active, contexts - {c})
  {
    var d :|
      && IsFirstContext(d, contexts)
      && Visits(active, contexts) == NamesInOrder(active[d]) + Visits(active, contexts - {d});
    FirstContextUnique(c, d, contexts);
  }

  /** The names come in ascending order and are the names of the set. */
  lemma {:induction false} NamesAscend(names: set<Name>)
    ensures forall n :: n in NamesInOrder(names) <==> n in names
    ensures forall i, j :: 0 <= i < j < |NamesInOrder(names)| ==> Below(NamesInOrder(names)[i], NamesInOrder(names)[j])
  {
    if names == {} {
    } else {
      FirstNameExists(names);
      var m :| IsFirstName(m, names);
      var rest := NamesInOrder(names - {m});
      NamesStep(names, m);
      NamesAscend(names - {m});
      forall j | 0 <= j < |rest| ensures Below(m, rest[j]) {
        assert rest[j] in rest;
      }
    }
  }

  lemma BelowComesFirst(names: set<Name>, a: Name, b: Name) returns (i: nat, j: nat)
    requires a in names && b in names && Below(a, b)
    ensures i < j < |NamesInOrder(names)| && NamesInOrder(names)[i] == a && NamesInOrder(names)[j] == b
  {
    NamesAscend(names);
    var order := NamesInOrder(names);
    i :| 0 <= i < |order| && order[i] == a;
    j :| 0 <= j < |order| && order[j] == b;
    BelowOrdersStrictly(a, b);
  }

  /** Of two streams of an active set the one with the smaller character where their names first
      differ is visited first. */
  lemma SmallerCharacterFirst(names: set<Name>, s: Name, x: char, y: char, t: Name, u: Name) returns (i: nat, j: nat)
    requires x < y && s + [x] + t in names && s + [y] + u in names
    ensures i < j < |NamesInOrder(names)|
    ensures NamesInOrder(names)[i] == s + [x] + t && NamesInOrder(names)[j] == s + [y] + u
  {
    BelowAtDifference(s, x, y, t, u);
    i, j := BelowComesFirst(names, s + [x] + t, s + [y] + u);
  }

  /** A stream is visited before one whose name extends its name. */
  lemma ShorterNameFirst(names: set<Name>, s: Name, t: Name) returns (i: nat, j: nat)
    requires t != "" && s in names && s + t in names
    ensures i < j < |NamesInOrder(names)| && NamesInOrder(names)[i] == s && NamesInOrder(names)[j] == s + t
  {
    BelowExtension(s, t);
    i, j := BelowComesFirst(names, s, s + t);
  }

  lemma {:induction false} VisitsContain(active: map<Context, set<Name>>, contexts: set<Context>, d: Context)
    returns (before: seq<Name>, after: seq<Name>)
    requires contexts <= active.Keys && d in contexts
    ensures Visits(active, contexts) == before + NamesInOrder(active[d]) + after
    decreases contexts
  {
    FirstContextExists(contexts);
    var c :| IsFirstContext(c, contexts);
    VisitsStep(active, contexts, c);
    if c == d {
      before, after := [], Visits(active, contexts - {c});
      assert [] + NamesInOrder(active[d]) == NamesInOrder(active[d]);
    } else {
      before, after := VisitsContain(active, contexts - {c}, d);
      Regroup(NamesInOrder(active[c]), before + NamesInOrder(active[d]), after);
      Regroup(NamesInOrder(active[c]), before, NamesInOrder(active[d]));
      before := NamesInOrder(active[c]) + before;
    }
  }

  /** All visits for a context come before those for a context with a larger address. */
  lemma {:induction false} SmallerContextFirst(
      active: map<Context, set<Name>>, contexts: set<Context>, c: Context, d: Context)
    returns (before: seq<Name>, between: seq<Name>, after: seq<Name>)
    requires contexts <= active.Keys && c in contexts && d in contexts && c < d
    ensures Visits(active, contexts)
         == before + NamesInOrder(active[c]) + (between + NamesInOrder(active[d]) + after)
    decreases contexts
  {
    FirstContextExists(contexts);
    var f :| IsFirstContext(f, contexts);
    var rest := contexts - {f};
    VisitsStep(active, contexts, f);
    if f == c {
      before := [];
      between, after := VisitsContain(active, rest, d);
      assert [] + NamesInOrder(active[c]) == NamesInOrder(active[c]);
    } else {
      before, between, after := SmallerContextFirst(active, rest, c, d);
      var tail := between + NamesInOrder(active[d]) + after;
      Regroup(NamesInOrder(active[f]), before + NamesInOrder(active[c]), tail);
      Regroup(NamesInOrder(active[f]), before, NamesInOrder(active[c]));
      before := NamesInOrder(active[f]) + before;
    }
  }

  /** How often a stream is visited. */
  function Count(visits: seq<Name>, n: Name): nat
  {
    if visits == [] then 0 else Count(Prior(visits), n) + if Last(visits) == n then 1 else 0
  }

  lemma {:induction false} CountConcat(a: seq<Name>, b: seq<Name>, n: Name)
    ensures Count(a + b, n) == Count(a, n) + Count(b, n)
    decreases |b|
  {
    if b == [] {
      assert a + b == a;
    } else {
      CountConcat(a, Prior(b), n);
      assert Prior(a + b) == a + Prior(b);
    }
  }

  lemma {:induction false} CountNames(names: set<Name>, n: Name)
    ensures Count(NamesInOrder(names), n) == if n in names then 1 else 0
  {
    if names == {} {
    } else {
      FirstNameExists(names);
      var m :| IsFirstName(m, names);
      NamesStep(names, m);
      CountConcat([m], NamesInOrder(names - {m}), n);
      assert Prior([m]) == [];
      CountNames(names - {m}, n);
    }
  }

  function PollersAmong(active: map<Context, set<Name>>, contexts: set<Context>, n: Name): set<Context>
  {
    set d | d in contexts && d in active && n in active[d]
  }

  lemma PollerCount(active: map<Context, set<Name>>, contexts: set<Context>, d: Context, n: Name)
    requires d in active && d in contexts
    ensures |PollersAmong(active, contexts, n)|
         == |PollersAmong(active, contexts - {d}, n)| + if n in active[d] then 1 else 0
  {
    assert PollersAmong(active, contexts, n)
        == PollersAmong(active, contexts - {d}, n) + if n in active[d] then {d} else {};
  }

  /** A stream is visited once for every context that is active on it. */
  lemma {:induction false} CountVisits(active: map<Context, set<Name>>, contexts: set<Context>, n: Name)
    requires contexts <= active.Keys
    ensures Count(Visits(active, contexts), n) == |PollersAmong(active, contexts, n)|
  {
    if contexts == {} {
    } else {
      FirstContextExists(contexts);
      var c :| IsFirstContext(c, contexts);
      var rest := contexts - {c};
      VisitsStep(active, contexts, c);
      CountConcat(NamesInOrder(active[c]), Visits(active, rest), n);
      CountNames(active[c], n);
      CountVisits(active, rest, n);
      PollerCount(active, contexts, c, n);
    }
  }

  // ----- What the visits do to the state and what they return -----

  function Min(a: nat, b: nat): nat
  {
    if a < b then a else b
  }

  /** One poll by `c` of stream `n`. */
  function PollOnce(s: Manager, c: Context, n: Name): Manager
  {
    if Queue(s, c, n) == [] then s else s.(streams := s.streams[n := Advance(s.streams[n], c, 1)])
  }

  /** The state after `c` has polled these streams one after the other. */
  function Polled(s: Manager, c: Context, visits: seq<Name>): Manager
  {
    if visits == [] then s else PollOnce(Polled(s, c, Prior(visits)), c, Last(visits))
  }

  /** The packets these polls return, in the order in which they are made. */
  function Gathered(s: Manager, c: Context, visits: seq<Name>): seq<Packet>
  {
    if visits == [] then []
    else
      var front, n := Gathered(s, c, Prior(visits)), Last(visits);
      var queue, k := Queue(s, c, n), Count(Prior(visits), n);
      if k < |queue| then front + [queue[k]] else front
  }

  lemma AdvanceMore(st: StreamState, c: Context, k: nat)
    requires k < |QueueOf(st, c)|
    ensures Advance(Advance(st, c, k), c, 1) == Advance(st, c, k + 1)
  {
    assert st.queues[c][k..][1..] == st.queues[c][k + 1..];
  }

  /** Each stream has advanced by as much as it was visited, if there was as much. */
  lemma {:induction false} PolledAt(s: Manager, c: Context, visits: seq<Name>, n: Name)
    ensures var t := Polled(s, c, visits);
      && t == s.(streams := t.streams) && t.streams.Keys == s.streams.Keys
      && (n in s.streams ==>
            t.streams[n] == Advance(s.streams[n], c, Min(Count(visits, n), |Queue(s, c, n)|)))
  {
    if visits == [] {
      assert n in s.streams ==> Advance(s.streams[n], c, 0) == s.streams[n];
    } else {
      PolledAt(s, c, Prior(visits), n);
      PolledAt(s, c, Prior(visits), Last(visits));
      if Last(visits) == n && Count(Prior(visits), n) < |Queue(s, c, n)| {
        AdvanceMore(s.streams[n], c, Count(Prior(visits), n));
      }
    }
  }

  lemma PolledQueue(s: Manager, c: Context, visits: seq<Name>, n: Name)
    ensures Queue(Polled(s, c, visits), c, n) == Queue(s, c, n)[Min(Count(visits, n), |Queue(s, c, n)|)..]
  {
    PolledAt(s, c, visits, n);
  }

  lemma AppendOne<T>(s: seq<T>, x: T)
    ensures Prior(s + [x]) == s && Last(s + [x]) == x
  {
  }

  lemma FrontOfRest<T>(s: seq<T>, k: nat)
    ensures var rest := s[Min(k, |s|)..];
      if k < |s| then rest != [] && rest[0] == s[k] else rest == []
  {
  }

  /** One more visit polls the state that the visits before have left ... */
  lemma PolledMore(s: Manager, c: Context, visits: seq<Name>, n: Name)
    ensures Polled(s, c, visits + [n]) == PollOnce(Polled(s, c, visits), c, n)
  {
    AppendOne(visits, n);
  }

  /** ... and returns the front of the queue it finds there. */
  lemma GatheredMore(s: Manager, c: Context, visits: seq<Name>, n: Name)
    ensures var queue := Queue(Polled(s, c, visits), c, n);
      Gathered(s, c, visits + [n]) == Gathered(s, c, visits) + if queue == [] then [] else [queue[0]]
  {
    AppendOne(visits, n);
    PolledQueue(s, c, visits, n);
    FrontOfRest(Queue(s, c, n), Count(visits, n));
  }

  /** What one more visit adds, as seen on one stream. */
  lemma GatheredOnMore(s: Manager, c: Context, visits: seq<Name>, n: Name)
    requires WellNamed(s) && visits != []
    ensures var queue, k := Queue(s, c, n), Count(Prior(visits), n);
      On(Gathered(s, c, visits), n)
      == On(Gathered(s, c, Prior(visits)), n) + if Last(visits) == n && k < |queue| then [queue[k]] else []
  {
    var front, m := Gathered(s, c, Prior(visits)), Last(visits);
    var queue, k := Queue(s, c, m), Count(Prior(visits), m);
    if k < |queue| {
      assert queue[k] in Queue(s, c, m);
      AppendOne(front, queue[k]);
    }
  }

  lemma TakeMore<T>(s: seq<T>, k: nat)
    ensures s[..Min(k + 1, |s|)] == s[..Min(k, |s|)] + if k < |s| then [s[k]] else []
  {
  }

  /** As seen on one stream, the polls return a prefix of the caller's queue. */
  lemma {:induction false} GatheredOn(s: Manager, c: Context, visits: seq<Name>, n: Name)
    requires WellNamed(s)
    ensures On(Gathered(s, c, visits), n) == Queue(s, c, n)[..Min(Count(visits, n), |Queue(s, c, n)|)]
  {
    if visits == [] {
      assert On([], n) == [];
    } else {
      GatheredOn(s, c, Prior(visits), n);
      GatheredOnMore(s, c, visits, n);
      TakeMore(Queue(s, c, n), Count(Prior(visits), n));
    }
  }

  /** All the visits of a fetch by `c`. */
  ghost function FetchVisits(s: Manager): seq<Name>
  {
    Visits(s.active, s.active.Keys)
  }

  /** Polling once per active context is exactly one fetch, in state and in result. */
  lemma PolledByAll(s: Manager, c: Context)
    ensures Polled(s, c, FetchVisits(s)) == GetPackets(s, c)
    ensures WellNamed(s) ==> IsBatch(s, c, Gathered(s, c, FetchVisits(s)))
  {
    var visits := FetchVisits(s);
    forall n ensures Min(Count(visits, n), |Queue(s, c, n)|) == Taken(s, c, n) {
      CountVisits(s.active, s.active.Keys, n);
      assert PollersAmong(s.active, s.active.Keys, n) == Pollers(s.active, n);
    }
    var t := Polled(s, c, visits);
    PolledAt(s, c, visits, "");
    forall n | n in s.streams ensures t.streams[n] == GetPackets(s, c).streams[n] {
      PolledAt(s, c, visits, n);
    }
    assert t.streams.Keys == GetPackets(s, c).streams.Keys;
    assert t.streams == GetPackets(s, c).streams;
    if WellNamed(s) {
      forall n ensures On(Gathered(s, c, visits), n) == Batch(s, c, n) {
        GatheredOn(s, c, visits, n);
      }
    }
  }
}
