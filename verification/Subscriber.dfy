/** The reconnect loop of the import subscriber (src/subscriber.cpp) and the schedule it
    follows (src/subscriberOptions.cpp). Waits are in milliseconds. */
module Subscribers {
  import opened Sequences
  import opened Wrappers
  import opened Sorting

  const WAIT := (x: int) => x

  class SubscriberOptions {
    var reconnectSchedule: seq<int>

    constructor ()
      ensures Valid() && reconnectSchedule == [0, 5000, 15000]
    {
      reconnectSchedule := [0, 5000, 15000];
    }

    ghost predicate Valid()
      reads this
    {
      Sorted(reconnectSchedule, WAIT) && forall x <- reconnectSchedule :: 0 <= x
    }

    /** Stores the schedule in ascending order, or refuses it if a wait is negative. */
    method SetReconnectSchedule(schedule: seq<int>) returns (r: Outcome)
      requires Valid()
      modifies this
      ensures Valid()
      ensures r.Pass? <==> forall x <- schedule :: 0 <= x
      ensures r.Pass? ==> multiset(reconnectSchedule) == multiset(schedule)
      ensures r.Fail? ==> reconnectSchedule == old(reconnectSchedule)
    {
      for i := 0 to |schedule|
        invariant forall j :: 0 <= j < i ==> 0 <= schedule[j]
      {
        if schedule[i] < 0 {
          assert schedule[i] in schedule;
          return Fail("At least one value in reconnect schedule is negative");
        }
      }
      reconnectSchedule := SortBy(schedule, WAIT);
      SortBySorts(schedule, WAIT);
      assert forall x :: x in reconnectSchedule <==> x in multiset(schedule);
      return Pass;
    }
  }

  // ----- The world the loop runs in -----

  datatype Status = Ok | Unavailable | Cancelled | OtherError

  /** How one connection ended, and whether it delivered a packet before that. */
  datatype Rpc = Rpc(status: Status, hadSuccessfulRead: bool)

  /** What the loop finds out: the value of each successive reading of the flag that `stop`
      clears, and the outcome of each successive connection attempt. */
  datatype World = World(keepRunning: nat -> bool, rpc: nat -> Rpc)

  /** Nothing sets the flag again while the loop runs. */
  ghost predicate StopIsFinal(w: World)
  {
    forall s, t :: 0 <= s <= t && w.keepRunning(t) ==> w.keepRunning(s)
  }

  /** How many of the first `m` attempts had a successful read. */
  function Successes(w: World, m: nat): nat
  {
    if m == 0 then 0 else Successes(w, m - 1) + if w.rpc(m - 1).hadSuccessfulRead then 1 else 0
  }

  /** The position in the schedule at which attempt `j` is made; the first waits for nothing. */
  function Position(w: World, j: nat): int
  {
    if j == 0 then -1
    else (if w.rpc(j - 1).hadSuccessfulRead then -1 else Position(w, j - 1)) + 1
  }

  /** Before every attempt but the first the loop waited as the schedule says. */
  ghost predicate Follows(schedule: seq<int>, w: World, waits: seq<int>)
  {
    waits == [] || (
      var m := |waits| - 1;
      && Follows(schedule, w, waits[..m])
      && 0 <= Position(w, m + 1) < |schedule|
      && waits[m] == schedule[Position(w, m + 1)])
  }

  lemma FollowsMore(schedule: seq<int>, w: World, waits: seq<int>)
    requires Follows(schedule, w, waits) && 0 <= Position(w, |waits| + 1) < |schedule|
    ensures Follows(schedule, w, waits + [schedule[Position(w, |waits| + 1)]])
  {
    assert (waits + [schedule[Position(w, |waits| + 1)]])[..|waits|] == waits;
  }

  lemma {:induction false} PositionBoundsAttempts(w: World, n: nat, m: nat)
    requires forall j :: 0 <= j < m ==> Position(w, j) < n
    ensures Position(w, m) <= n
    ensures m <= n * Successes(w, m) + Position(w, m) + 1
  {
    if m == 0 {
    } else {
      PositionBoundsAttempts(w, n, m - 1);
      assert Position(w, m - 1) < n;
    }
  }

  lemma AttemptsBounded(w: World, n: nat, m: nat)
    requires forall j :: 0 <= j < m ==> Position(w, j) < n
    ensures m <= n + 1 + n * Successes(w, m)
  {
    PositionBoundsAttempts(w, n, m);
  }

  // ----- What the loop does, step by step -----

  datatype Action = Read(value: bool) | Wait(milliseconds: int) | Attempt

  function Reads(trace: seq<Action>): nat
  {
    if trace == [] then 0 else Reads(Prior(trace)) + if Last(trace).Read? then 1 else 0
  }

  function Attempts(trace: seq<Action>): nat
  {
    if trace == [] then 0 else Attempts(Prior(trace)) + if Last(trace).Attempt? then 1 else 0
  }

  function Waits(trace: seq<Action>): seq<int>
  {
    if trace == [] then []
    else if Last(trace).Wait? then Waits(Prior(trace)) + [Last(trace).milliseconds]
    else Waits(Prior(trace))
  }

  /** Readings have the values the flag had, and directly before every wait and every attempt
      the flag was read and was set. */
  ghost predicate Orderly(w: World, trace: seq<Action>)
  {
    trace != [] ==>
      var before := Prior(trace);
      && Orderly(w, before)
      && (Last(trace).Read? ==> Last(trace).value == w.keepRunning(Reads(before)))
      && (!Last(trace).Read? ==> before != [] && Last(before) == Read(true))
  }

  /** The trace is orderly and agrees with what the loop reports. */
  ghost predicate Recorded(w: World, trace: seq<Action>, attempts: nat, waits: seq<int>, readings: nat)
  {
    Orderly(w, trace) && Attempts(trace) == attempts && Waits(trace) == waits && Reads(trace) == readings
  }

  lemma RecordMore(w: World, trace: seq<Action>, action: Action)
    requires Orderly(w, trace)
    requires action.Read? ==> action.value == w.keepRunning(Reads(trace))
    requires !action.Read? ==> trace != [] && Last(trace) == Read(true)
    ensures Recorded(w, trace + [action],
                     Attempts(trace) + if action.Attempt? then 1 else 0,
                     Waits(trace) + if action.Wait? then [action.milliseconds] else [],
                     Reads(trace) + if action.Read? then 1 else 0)
  {
    assert Prior(trace + [action]) == trace && Last(trace + [action]) == action;
  }

  function TrueReads(trace: seq<Action>): nat
  {
    if trace == [] then 0 else TrueReads(Prior(trace)) + if Last(trace) == Read(true) then 1 else 0
  }

  /** Every wait and every attempt has its own reading of the flag. */
  lemma {:induction false} OneReadingEach(w: World, trace: seq<Action>)
    requires Orderly(w, trace)
    ensures Attempts(trace) + |Waits(trace)| <= TrueReads(trace)
    ensures trace != [] && Last(trace) == Read(true) ==> Attempts(trace) + |Waits(trace)| < TrueReads(trace)
  {
    if trace == [] {
    } else {
      OneReadingEach(w, Prior(trace));
    }
  }

  lemma {:induction false} TrueReadsEnd(w: World, trace: seq<Action>, t: nat)
    requires StopIsFinal(w) && Orderly(w, trace) && !w.keepRunning(t)
    ensures TrueReads(trace) <= Reads(trace) && TrueReads(trace) <= t
  {
    if trace == [] {
    } else {
      TrueReadsEnd(w, Prior(trace), t);
    }
  }

  /** A subscriber stopped by reading `t` of the flag makes no more attempts and waits in all than
      there were readings before; stopped from the outset it makes none. */
  lemma StopIsPrompt(w: World, trace: seq<Action>, t: nat)
    requires StopIsFinal(w) && Orderly(w, trace) && !w.keepRunning(t)
    ensures Attempts(trace) + |Waits(trace)| <= t
  {
    OneReadingEach(w, trace);
    TrueReadsEnd(w, trace, t);
  }

  lemma AppendedMembers<T>(s: seq<T>, x: T)
    ensures Last(s + [x]) == x && forall y :: y in s + [x] <==> y in s || y == x
  {
  }

  lemma RecordWait(w: World, trace: seq<Action>, attempts: nat, waits: seq<int>, readings: nat, milliseconds: int)
    requires Recorded(w, trace, attempts, waits, readings) && trace != [] && Last(trace) == Read(true)
    ensures Recorded(w, trace + [Wait(milliseconds)], attempts, waits + [milliseconds], readings)
    ensures Read(false) in trace + [Wait(milliseconds)] <==> Read(false) in trace
  {
    RecordMore(w, trace, Wait(milliseconds));
    AppendedMembers(trace, Wait(milliseconds));
  }

  lemma RecordAttempt(w: World, trace: seq<Action>, attempts: nat, waits: seq<int>, readings: nat)
    requires Recorded(w, trace, attempts, waits, readings) && trace != [] && Last(trace) == Read(true)
    ensures Recorded(w, trace + [Attempt], attempts + 1, waits, readings)
    ensures Read(false) in trace + [Attempt] <==> Read(false) in trace
  {
    RecordMore(w, trace, Attempt);
    AppendedMembers(trace, Attempt);
  }

  // ----- The loop -----

  /** One reading of the flag. */
  method ReadFlag(w: World, before: nat, ghost trace: seq<Action>, ghost attempts: nat, ghost waits: seq<int>)
    returns (running: bool, readings: nat, ghost more: seq<Action>)
    requires Recorded(w, trace, attempts, waits, before)
    ensures running == w.keepRunning(before) && readings == before + 1
    ensures more == trace + [Read(running)] && Recorded(w, more, attempts, waits, readings)
    ensures Read(false) in more <==> Read(false) in trace || !running
  {
    running, readings := w.keepRunning(before), before + 1;
    more := trace + [Read(running)];
    RecordMore(w, trace, Read(running));
    AppendedMembers(trace, Read(running));
  }

  /** Another attempt follows an unavailable server and, unless the subscriber was stopped, a
      connection that ended normally or was cancelled; never any other error. */
  method ShouldRetry(w: World, status: Status, before: nat,
                     ghost trace: seq<Action>, ghost attempts: nat, ghost waits: seq<int>)
    returns (retry: bool, readings: nat, ghost more: seq<Action>)
    requires Recorded(w, trace, attempts, waits, before)
    ensures before <= readings <= before + 1
    ensures readings == before <==> status in {Unavailable, OtherError}
    ensures retry <==> status == Unavailable || (status in {Ok, Cancelled} && w.keepRunning(before))
    ensures Recorded(w, more, attempts, waits, readings)
    ensures more == if readings == before then trace else trace + [Read(w.keepRunning(before))]
    ensures Read(false) in more <==> Read(false) in trace || (readings > before && !retry)
  {
    readings, more := before, trace;
    match status {
      case Ok | Cancelled =>
        retry, readings, more := ReadFlag(w, before, trace, attempts, waits);
      case Unavailable =>
        retry := true;
      case OtherError =>
        retry := false;
    }
  }

  /** Every attempt so far was within the schedule and was not the last one, by its outcome, but
      possibly for the latest; every one but the first was preceded by the scheduled wait. */
  ghost predicate Pursued(schedule: seq<int>, w: World, attempts: nat, waits: seq<int>)
  {
    && |waits| <= attempts <= |waits| + 1
    && (forall j :: 0 <= j < attempts ==> Position(w, j) < |schedule|)
    && (forall j :: 0 <= j < attempts - 1 ==> w.rpc(j).status != OtherError)
    && Follows(schedule, w, waits)
  }

  lemma PursueWait(schedule: seq<int>, w: World, attempts: nat, waits: seq<int>)
    requires Pursued(schedule, w, attempts, waits) && attempts == |waits| + 1
    requires 0 <= Position(w, attempts) < |schedule|
    ensures Pursued(schedule, w, attempts, waits + [schedule[Position(w, attempts)]])
  {
    FollowsMore(schedule, w, waits);
  }

  lemma PursueAttempt(schedule: seq<int>, w: World, attempts: nat, waits: seq<int>)
    requires Pursued(schedule, w, attempts, waits) && attempts == |waits| && Position(w, attempts) < |schedule|
    requires attempts > 0 ==> w.rpc(attempts - 1).status != OtherError
    ensures Pursued(schedule, w, attempts + 1, waits)
  {
  }

  /** How the loop is left: stopped, with the schedule exhausted or after a fatal error. At most
      the last thing it did was to find the flag cleared. */
  ghost predicate Disconnected(schedule: seq<int>, w: World, attempts: nat, waits: seq<int>,
                               readings: nat, trace: seq<Action>)
  {
    && Pursued(schedule, w, attempts, waits)
    && Recorded(w, trace, attempts, waits, readings)
    && trace != [] && Read(false) !in Prior(trace)
    && (|| Last(trace) == Read(false)
        || (attempts > 0 && (Position(w, attempts) == |schedule| || w.rpc(attempts - 1).status == OtherError)))
  }

  /** The loop. */
  method Connect(schedule: seq<int>, w: World, ghost successes: nat)
    returns (attempts: nat, waits: seq<int>, readings: nat, ghost trace: seq<Action>)
    requires forall m :: Successes(w, m) <= successes
    ensures Disconnected(schedule, w, attempts, waits, readings, trace)
  {
    attempts, waits, readings, trace := 0, [], 0, [];
    var k, goOn := -1, true;
    while k < |schedule|
      invariant k == Position(w, attempts) <= |schedule| && -1 <= k && (k == -1 <==> attempts == 0)
      invariant Pursued(schedule, w, attempts, waits) && (attempts == |waits| + 1 || attempts == |waits| == 0)
      invariant attempts > 0 ==> w.rpc(attempts - 1).status != OtherError
      invariant Recorded(w, trace, attempts, waits, readings) && Read(false) !in trace
      invariant attempts > 0 ==> trace != []
      decreases successes - Successes(w, attempts), |schedule| - k
    {
      goOn, readings, trace := ReadFlag(w, readings, trace, attempts, waits);
      if !goOn {
        return;
      }
      if k >= 0 {
        PursueWait(schedule, w, attempts, waits);
        RecordWait(w, trace, attempts, waits, readings, schedule[k]);
        trace, waits := trace + [Wait(schedule[k])], waits + [schedule[k]];
        goOn, readings, trace := ReadFlag(w, readings, trace, attempts, waits);
        if !goOn {
          return;
        }
      }
      PursueAttempt(schedule, w, attempts, waits);
      RecordAttempt(w, trace, attempts, waits, readings);
      var rpc := w.rpc(attempts);
      trace, attempts := trace + [Attempt], attempts + 1;
      if rpc.hadSuccessfulRead {
        k := -1;
      }
      goOn, readings, trace := ShouldRetry(w, rpc.status, readings, trace, attempts, waits);
      if !goOn {
        return;
      }
      k := k + 1;
    }
  }

  /** Connects, and reconnects as long as the schedule since the last success lasts. `readings`
      counts the readings of the flag, `waits` lists the waits and `trace` everything that is
      done. `successes` bounds the attempts that ever succeed; the loop need not end otherwise. */
  method AcquirePackets(schedule: seq<int>, w: World, ghost successes: nat)
    returns (r: Outcome, attempts: nat, waits: seq<int>, readings: nat, ghost trace: seq<Action>)
    requires StopIsFinal(w)
    requires forall m :: Successes(w, m) <= successes
    ensures attempts <= |schedule| + 1 + |schedule| * Successes(w, attempts)
    ensures forall j :: 0 <= j < attempts ==> Position(w, j) < |schedule|
    ensures |waits| <= attempts <= |waits| + 1
    ensures Follows(schedule, w, waits)
    ensures readings > 0 && (r.Fail? <==> w.keepRunning(readings - 1))
    ensures r.Fail? ==> attempts > 0
    ensures r.Fail? ==> (Position(w, attempts) == |schedule| || w.rpc(attempts - 1).status == OtherError)
    ensures forall j :: 0 <= j < attempts - 1 ==> w.rpc(j).status != OtherError
    ensures Recorded(w, trace, attempts, waits, readings)
    ensures trace != [] && Last(trace).Read?
    ensures forall i :: 0 <= i < |trace| - 2 ==> trace[i] != Read(false)
    ensures !w.keepRunning(0) ==> attempts == 0 && waits == []
  {
    attempts, waits, readings, trace := Connect(schedule, w, successes);
    AttemptsBounded(w, |schedule|, attempts);
    var running;
    running, readings, trace := ReadFlag(w, readings, trace, attempts, waits);
    r := if running then Fail("Premature end of subscriber thread") else Pass;
    if !w.keepRunning(0) {
      StopIsPrompt(w, trace, 0);
    }
  }

  // ----- How often and how patiently it reconnects -----

  lemma {:induction false} PositionAfter(w: World, i: nat, j: nat)
    requires i <= j && forall m :: i <= m < j ==> !w.rpc(m).hadSuccessfulRead
    ensures Position(w, j) == Position(w, i) + (j - i)
  {
    if i < j {
      PositionAfter(w, i, j - 1);
    }
  }

  lemma {:induction false} FollowsAt(schedule: seq<int>, w: World, waits: seq<int>, i: nat)
    requires Follows(schedule, w, waits) && i < |waits|
    ensures 0 <= Position(w, i + 1) < |schedule| && waits[i] == schedule[Position(w, i + 1)]
    decreases |waits|
  {
    if i < |waits| - 1 {
      FollowsAt(schedule, w, waits[..|waits| - 1], i);
    }
  }

  /** The waits of a run of the loop over a sorted schedule: from one success to the next they
      do not get shorter, and the first after a success is the shortest there is. Wait `i`
      comes between attempts `i` and `i + 1`. */
  lemma WaitsGrow(schedule: seq<int>, w: World, waits: seq<int>, i: nat, j: nat)
    requires Sorted(schedule, WAIT) && Follows(schedule, w, waits)
    requires i <= j < |waits|
    ensures (forall m :: i < m <= j ==> !w.rpc(m).hadSuccessfulRead) ==> waits[i] <= waits[j]
    ensures w.rpc(i).hadSuccessfulRead ==> waits[i] == schedule[0] && waits[i] <= waits[j]
  {
    FollowsAt(schedule, w, waits, i);
    FollowsAt(schedule, w, waits, j);
    if forall m :: i < m <= j ==> !w.rpc(m).hadSuccessfulRead {
      PositionAfter(w, i + 1, j + 1);
    }
  }

  /** Attempts n, 2n, ..., s * n succeed. */
  predicate EveryNth(n: nat, s: nat, j: nat)
    requires 0 < n
    decreases s
  {
    s > 0 && (j == n || (j > n && EveryNth(n, s - 1, j - n)))
  }

  /** A server that delivers something only just before the schedule is exhausted, `s` times. */
  function Teasing(n: nat, s: nat): World
    requires 0 < n
  {
    World((t: nat) => true, (j: nat) => Rpc(Unavailable, EveryNth(n, s, j)))
  }

  lemma {:induction false} EveryNthAt(n: nat, s: nat, i: nat, d: nat)
    requires i <= s && 1 <= d <= n
    ensures EveryNth(n, s, n * i + d) <==> d == n && i < s
  {
    if i == 0 {
    } else {
      assert n * i + d - n == n * (i - 1) + d;
      assert n * i >= n;
      EveryNthAt(n, s - 1, i - 1, d);
    }
  }

  lemma {:induction false} TeasingAt(n: nat, s: nat, i: nat, d: nat)
    requires i <= s && 1 <= d <= n
    ensures Position(Teasing(n, s), n * i + d) == d - 1
    ensures Successes(Teasing(n, s), n * i + d) == i
    decreases i, d
  {
    if d > 1 {
      TeasingAt(n, s, i, d - 1);
      EveryNthAt(n, s, i, d - 1);
      assert n * i + d - 1 == n * i + (d - 1);
    } else if i > 0 {
      TeasingAt(n, s, i - 1, n);
      EveryNthAt(n, s, i - 1, n);
      assert n * i + d - 1 == n * (i - 1) + n;
    }
  }

  /** Every attempt of the bound belongs to one of the laps. */
  lemma Lap(n: nat, s: nat, j: nat) returns (i: nat, d: nat)
    requires 0 < n && 0 < j <= n * s + n
    ensures i <= s && 1 <= d <= n && j == n * i + d
    decreases s
  {
    if j <= n {
      i, d := 0, j;
    } else {
      i, d := Lap(n, s - 1, j - n);
      i := i + 1;
    }
  }

  /** The bound on the number of attempts is attained: for every schedule length and every
      number of successes there is a server with which the loop goes on exactly that long. */
  lemma BoundIsAttained(n: nat, s: nat)
    requires 0 < n
    ensures var w, bound := Teasing(n, s), n + 1 + n * s;
      && StopIsFinal(w)
      && Successes(w, bound) == s
      && Position(w, bound) == n
      && (forall j :: 0 <= j < bound ==> Position(w, j) < n)
  {
    var w, bound := Teasing(n, s), n + 1 + n * s;
    TeasingAt(n, s, s, n);
    EveryNthAt(n, s, s, n);
    assert bound - 1 == n * s + n;
    forall j | 0 < j < bound ensures Position(w, j) < n {
      var i, d := Lap(n, s, j);
      TeasingAt(n, s, i, d);
    }
  }

  lemma {:induction false} EveryNthIsEarly(n: nat, s: nat, j: nat)
    requires 0 < n && EveryNth(n, s, j)
    ensures j <= n * s
    decreases s
  {
    if j > n {
      EveryNthIsEarly(n, s - 1, j - n);
    } else {
      assert n * s >= n * 1;
    }
  }

  /** The server never delivers more often than that, however long it is watched. */
  lemma {:induction false} TeasingSuccesses(n: nat, s: nat, m: nat)
    requires 0 < n
    ensures Successes(Teasing(n, s), m) <= s
  {
    if m == 0 {
    } else if m <= n * s + n {
      var i, d := Lap(n, s, m);
      TeasingAt(n, s, i, d);
    } else {
      TeasingSuccesses(n, s, m - 1);
      if EveryNth(n, s, m - 1) {
        EveryNthIsEarly(n, s, m - 1);
        assert false;
      }
    }
  }

  /** Run against that server the loop makes exactly as many attempts as the bound allows, then
      gives up. */
  method ExhaustTeasingServer(schedule: seq<int>, s: nat) returns (r: Outcome, attempts: nat)
    requires schedule != []
    ensures r.Fail? && attempts == |schedule| + 1 + |schedule| * s
  {
    var w := Teasing(|schedule|, s);
    var waits, readings;
    ghost var trace;
    forall m ensures Successes(w, m) <= s {
      TeasingSuccesses(|schedule|, s, m);
    }
    BoundIsAttained(|schedule|, s);
    r, attempts, waits, readings, trace := AcquirePackets(schedule, w, s);
  }
}
