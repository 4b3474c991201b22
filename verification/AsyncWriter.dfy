/** The server side of one RPC: a reactor with at most one outstanding write
    (src/modules/asyncWriter.cppm). The two RPC classes share this writer. */
module Writers {
  import opened Wrappers
  import opened Sequences
  import opened Utilities

  const MAXIMUM_QUEUE_SIZE: nat := 2048

  /** How an RPC was finished. */
  datatype Status = Ok | Cancelled | Failed

  /** `writeInProgress` and `subscribed` are the reactor's own flags. `looping` says where
      control is: inside the write loop, from its call to its return. `outstanding` is the
      packet handed to gRPC and not yet completed, `written` those whose write completed,
      `unsubscribes` counts the calls that take the context off the manager. */
  datatype Writer = Writer(
    queue: seq<Packet>,
    writeInProgress: bool,
    subscribed: bool,
    looping: bool,
    outstanding: Option<Packet>,
    finishes: seq<Status>,
    written: seq<Packet>,
    unsubscribes: nat)

  /** An accepted RPC: the manager knows the context and the write loop has been called. */
  const STARTED := Writer([], false, true, true, None, [], [], 0)

  /** What one turn of the write loop reads: whether the server and the client are still
      there, and the packets the manager returns if it is asked. */
  datatype Poll = Poll(keepRunning: bool, cancelled: bool, batch: seq<Packet>)

  /** Neither the server nor the client has quit. */
  predicate Alive(poll: Poll)
  {
    poll.keepRunning && !poll.cancelled
  }

  /** The turn asks the manager for packets. */
  predicate Fetches(w: Writer, poll: Poll)
  {
    poll.keepRunning && !poll.cancelled && w.queue == []
  }

  /** Leave the manager if still subscribed: what cancellation, completion and the end of the
      loop all do. */
  function Release(w: Writer): Writer
  {
    if w.subscribed then w.(subscribed := false, unsubscribes := w.unsubscribes + 1) else w
  }

  /** The loop ends: release, finish, return. */
  function Terminate(w: Writer, cancelled: bool): Writer
  {
    Release(w).(finishes := w.finishes + [if cancelled then Cancelled else Ok], looping := false)
  }

  /** One turn of the write loop. */
  function PollStep(w: Writer, poll: Poll): Writer
  {
    if !poll.keepRunning || poll.cancelled then Terminate(w, poll.cancelled)
    else if w.queue != [] && !w.writeInProgress then
      w.(writeInProgress := true, outstanding := Some(w.queue[0]), looping := false)
    else if w.queue == [] then w.(queue := LastN(poll.batch, MAXIMUM_QUEUE_SIZE + 1))
    else w
  }

  /** Turns are taken until the loop returns. */
  function PollSteps(w: Writer, polls: seq<Poll>): Writer
    decreases |polls|
  {
    if polls == [] || !w.looping then w else PollSteps(PollStep(w, polls[0]), polls[1..])
  }

  /** gRPC reports the outstanding write. If the packet went out it is purged and the loop is
      called again; otherwise the RPC is finished. */
  function WriteDone(w: Writer, ok: bool, cancelled: bool): Writer
    requires ok ==> w.queue != []
  {
    if ok then
      w.(outstanding := None, writeInProgress := false, looping := true,
         queue := w.queue[1..], written := w.written + [w.queue[0]])
    else
      w.(outstanding := None, finishes := w.finishes + [if cancelled then Cancelled else Failed])
  }

  /** While a write is outstanding the queue's front is that packet. The loop runs exactly
      when no write is outstanding and the RPC is not finished, so when it does not run exactly
      one of the two holds. The queue is bounded, and the manager was called exactly once if
      the RPC is no longer subscribed. */
  predicate WriterOk(w: Writer)
  {
    && |w.queue| <= MAXIMUM_QUEUE_SIZE + 1
    && |w.finishes| <= 1
    && (w.outstanding.Some? ==>
          w.writeInProgress && w.finishes == [] && w.queue != [] && w.queue[0] == w.outstanding.value)
    && (w.looping <==> w.outstanding.None? && w.finishes == [])
    && (w.looping ==> !w.writeInProgress)
    && w.unsubscribes == if w.subscribed then 0 else 1
  }

  // ----- The reactor as an object -----

  class Reactor {
    var packetsQueue: seq<Packet>
    var writeInProgress: bool
    var subscribed: bool
    var outstanding: Option<Packet>      // the packet gRPC is writing
    var finishes: seq<Status>            // the calls of Finish
    var written: seq<Packet>             // the writes gRPC has completed
    var unsubscribes: nat                // the calls of unsubscribeFromAll
    ghost var looping: bool              // control is inside the write loop

    ghost predicate Valid()
      reads this
    {
      WriterOk(View())
    }

    ghost function View(): Writer
      reads this
    {
      Writer(packetsQueue, writeInProgress, subscribed, looping, outstanding, finishes, written, unsubscribes)
    }

    constructor ()
      ensures Valid() && View() == STARTED
    {
      packetsQueue, writeInProgress, subscribed, outstanding := [], false, true, None;
      finishes, written, unsubscribes, looping := [], [], 0, true;
    }

    /** Runs the write loop on the given turns. If it returns before they are used up, either a
        write is outstanding or the RPC is finished, and not both. */
    method NextWrite(polls: seq<Poll>) returns (turns: nat)
      requires Valid() && looping
      modifies this
      ensures Valid() && View() == PollSteps(old(View()), polls)
      ensures turns <= |polls| && (looping ==> turns == |polls|)
      ensures !looping ==> (outstanding.Some? <==> finishes == [])
      ensures looping ==> outstanding.None? && finishes == []
      ensures !looping ==> turns > 0 && (outstanding.Some? <==> Alive(polls[turns - 1]))
      ensures !looping && !Alive(polls[turns - 1]) ==>
          finishes == [if polls[turns - 1].cancelled then Cancelled else Ok] && !subscribed
      ensures forall k :: 0 <= k < turns - 1 ==> Alive(polls[k])
    {
      turns := 0;
      while turns < |polls|
        invariant turns <= |polls| && Valid() && looping
        invariant forall k :: 0 <= k < turns ==> Alive(polls[k])
        invariant PollSteps(old(View()), polls) == PollSteps(View(), polls[turns..])
      {
        var poll := polls[turns];
        turns := turns + 1;
        assert polls[turns - 1..][1..] == polls[turns..];
        if !poll.keepRunning || poll.cancelled {
          Leave();
          finishes := finishes + [if poll.cancelled then Cancelled else Ok];
          looping := false;
          return;
        }
        if packetsQueue != [] && !writeInProgress {
          writeInProgress := true;
          outstanding := Some(packetsQueue[0]);
          looping := false;
          return;
        }
        if packetsQueue == [] {
          Refill(poll.batch);
        }
      }
    }

    /** Copies a batch into the empty queue, popping the front once the queue is too long. */
    method Refill(batch: seq<Packet>)
      requires packetsQueue == []
      modifies this`packetsQueue
      ensures packetsQueue == LastN(batch, MAXIMUM_QUEUE_SIZE + 1) == LastN(batch, 2049)
    {
      for i := 0 to |batch|
        invariant packetsQueue == LastN(batch[..i], MAXIMUM_QUEUE_SIZE + 1)
      {
        assert batch[..i + 1] == batch[..i] + [batch[i]];
        if |packetsQueue| > MAXIMUM_QUEUE_SIZE {
          packetsQueue := packetsQueue[1..];
        }
        packetsQueue := packetsQueue + [batch[i]];
      }
      assert batch[..|batch|] == batch;
    }

    method Leave()
      modifies this`subscribed, this`unsubscribes
      ensures View() == Release(old(View()))
      ensures !subscribed && unsubscribes == old(unsubscribes) + if old(subscribed) then 1 else 0
    {
      if subscribed {
        unsubscribes := unsubscribes + 1;
        subscribed := false;
      }
    }

    /** Purges the packet that went out and calls the loop again, or finishes. */
    method OnWriteDone(ok: bool, cancelled: bool, polls: seq<Poll>) returns (turns: nat)
      requires Valid() && outstanding.Some?
      modifies this
      ensures Valid()
      ensures View() == if ok then PollSteps(WriteDone(old(View()), ok, cancelled), polls)
                        else WriteDone(old(View()), ok, cancelled)
      ensures turns <= |polls| && (looping ==> turns == |polls|)
      ensures !looping ==> (outstanding.Some? <==> finishes == [])
    {
      turns := 0;
      outstanding := None;
      if !ok {
        finishes := finishes + [if cancelled then Cancelled else Failed];
        return;
      }
      written := written + [packetsQueue[0]];
      writeInProgress := false;
      packetsQueue := packetsQueue[1..];
      looping := true;
      turns := NextWrite(polls);
    }

    /** OnCancel, and OnDone before the reactor deletes itself. */
    method OnCancelOrDone()
      requires Valid()
      modifies this`subscribed, this`unsubscribes
      ensures Valid() && View() == Release(old(View()))
      ensures unsubscribes == 1
    {
      Leave();
    }
  }

  // ----- Runs of one accepted RPC -----

  datatype Event =
    | Turn(poll: Poll)
    | Wrote(ok: bool, cancelled: bool)
    | Cancel
    | Done

  /** When gRPC can deliver an event: turns while the loop runs, one completion for each
      outstanding write, a cancellation at any time, done only after finishing. */
  predicate Enabled(w: Writer, e: Event)
  {
    match e
    case Turn(_) => w.looping
    case Wrote(_, _) => w.outstanding.Some?
    case Cancel => true
    case Done => w.finishes != []
  }

  function Next(w: Writer, e: Event): Writer
    requires WriterOk(w) && Enabled(w, e)
  {
    match e
    case Turn(poll) => PollStep(w, poll)
    case Wrote(ok, cancelled) => WriteDone(w, ok, cancelled)
    case Cancel => Release(w)
    case Done => Release(w)
  }

  lemma NextOk(w: Writer, e: Event)
    requires WriterOk(w) && Enabled(w, e)
    ensures WriterOk(Next(w, e))
  {
  }

  /** Except by fetching, an event only moves the front from queued to written. */
  lemma NextHolds(w: Writer, e: Event)
    requires WriterOk(w) && Enabled(w, e) && !(e.Turn? && Fetches(w, e.poll))
    ensures Next(w, e).written + Next(w, e).queue == w.written + w.queue
  {
    if e.Wrote? && e.ok {
      assert w.written + w.queue == w.written + [w.queue[0]] + w.queue[1..];
    }
  }

  /** Fetching adds the newest of the batch. */
  lemma FetchHolds(w: Writer, poll: Poll)
    requires Fetches(w, poll)
    ensures var v := PollStep(w, poll);
      v.written + v.queue == w.written + w.queue + LastN(poll.batch, MAXIMUM_QUEUE_SIZE + 1)
  {
    assert w.written + [] == w.written;
  }

  ghost predicate Legal(events: seq<Event>)
    decreases |events|, 0
  {
    events != [] ==> Legal(Prior(events)) && Enabled(RunWriter(Prior(events)), Last(events))
  }

  /** The writer after a legal run of an accepted RPC. */
  ghost function RunWriter(events: seq<Event>): (w: Writer)
    requires Legal(events)
    ensures WriterOk(w)
    decreases |events|, 1
  {
    if events == [] then STARTED
    else
      var before := RunWriter(Prior(events));
      NextOk(before, Last(events));
      Next(before, Last(events))
  }

  // ----- Properties of every run -----

  /** The packets handed over by the manager, in order. */
  ghost function Fetched(events: seq<Event>): seq<Packet>
    requires Legal(events)
  {
    if events == [] then []
    else
      var rest, e := Prior(events), Last(events);
      if e.Turn? && Fetches(RunWriter(rest), e.poll) then Fetched(rest) + e.poll.batch else Fetched(rest)
  }

  /** The same without what the overflow pops discard: the newest of each oversized batch. */
  ghost function Kept(events: seq<Event>): seq<Packet>
    requires Legal(events)
  {
    if events == [] then []
    else
      var rest, e := Prior(events), Last(events);
      if e.Turn? && Fetches(RunWriter(rest), e.poll) then Kept(rest) + LastN(e.poll.batch, MAXIMUM_QUEUE_SIZE + 1)
      else Kept(rest)
  }

  /** While a write is outstanding no turn of the loop could touch its packet, even one taken
      out of turn: the guards of the refill and of the write are false. */
  lemma OutstandingUntouched(w: Writer, poll: Poll)
    requires WriterOk(w) && w.outstanding.Some?
    ensures poll.keepRunning && !poll.cancelled ==> PollStep(w, poll) == w
    ensures PollStep(w, poll).queue == w.queue && PollStep(w, poll).outstanding == w.outstanding
  {
  }

  /** In every run at most one write is outstanding, its packet is the front of the bounded
      queue, and the RPC is finished at most once; the loop has returned exactly if one of the
      two is the case, and never both are. */
  lemma {:induction false} WriterSafety(events: seq<Event>)
    requires Legal(events)
    ensures var w := RunWriter(events);
      && |w.queue| <= 2049
      && |w.finishes| <= 1
      && (w.outstanding.Some? ==> w.queue != [] && w.queue[0] == w.outstanding.value)
      && (!w.looping ==> (w.outstanding.Some? <==> w.finishes == []))
      && (w.looping ==> w.outstanding.None? && w.finishes == [])
  {
  }

  lemma RunMore(events: seq<Event>, more: seq<Event>)
    requires more != [] && Legal(events + more)
    ensures Prior(events + more) == events + Prior(more) && Last(events + more) == Last(more)
    ensures Legal(events + Prior(more)) && Enabled(RunWriter(events + Prior(more)), Last(more))
    ensures RunWriter(events + more) == Next(RunWriter(events + Prior(more)), Last(more))
  {
    assert Prior(events + more) == events + Prior(more);
  }

  /** Whatever happens between the start of a write and the report of its completion, the
      packet handed to gRPC stays the front of an unchanged queue. */
  lemma {:induction false} OutstandingStays(events: seq<Event>, more: seq<Event>)
    requires Legal(events + more) && forall e <- more :: !e.Wrote?
    ensures Legal(events)
    ensures var w, v := RunWriter(events), RunWriter(events + more);
      w.outstanding.Some? ==> v.outstanding == w.outstanding && v.queue == w.queue && v.queue[0] == v.outstanding.value
    decreases |more|
  {
    if more == [] {
      assert events + more == events;
    } else {
      RunMore(events, more);
      OutstandingStays(events, Prior(more));
    }
  }

  /** A finished RPC stays finished as it is and writes nothing more. */
  lemma {:induction false} FinishedStays(events: seq<Event>, more: seq<Event>)
    requires Legal(events + more)
    ensures Legal(events)
    ensures var w, v := RunWriter(events), RunWriter(events + more);
      w.finishes != [] ==> v.finishes == w.finishes && v.written == w.written && v.outstanding.None? && !v.looping
    decreases |more|
  {
    if more == [] {
      assert events + more == events;
    } else {
      RunMore(events, more);
      FinishedStays(events, Prior(more));
    }
  }

  /** The events that take the context off the manager if it still is there. */
  predicate Leaves(e: Event)
  {
    e.Cancel? || e.Done? || (e.Turn? && (!e.poll.keepRunning || e.poll.cancelled))
  }

  /** However many of these events there are and in whatever order, unsubscribeFromAll is called
      by the first of them and by no other. */
  lemma {:induction false} UnsubscribedOnce(events: seq<Event>)
    requires Legal(events)
    ensures RunWriter(events).subscribed <==> forall e <- events :: !Leaves(e)
    ensures RunWriter(events).unsubscribes == 1 <==> exists e <- events :: Leaves(e)
    ensures RunWriter(events).unsubscribes == 0 <==> forall e <- events :: !Leaves(e)
  {
    if events == [] {
    } else {
      var rest, e := Prior(events), Last(events);
      UnsubscribedOnce(rest);
      assert Next(RunWriter(rest), e).subscribed <==> RunWriter(rest).subscribed && !Leaves(e);
      assert events == rest + [e] && e in events;
      assert forall d <- rest :: d in events;
    }
  }

  /** The loop is still waiting after these turns: nobody quit, nothing was queued and no turn
      but possibly the last brought packets. */
  predicate KeepsWaiting(w: Writer, polls: seq<Poll>)
  {
    polls == [] || (
      && w.queue == []
      && (forall p <- polls :: Alive(p))
      && (forall p <- Prior(polls) :: p.batch == []))
  }

  /** The write loop returns as soon as somebody quits or there is something to write, and then
      with a write outstanding or with the RPC finished, never with both or neither. */
  lemma {:induction false} NextWriteOutcome(w: Writer, polls: seq<Poll>)
    requires WriterOk(w) && w.looping
    ensures var r := PollSteps(w, polls);
      && WriterOk(r)
      && (r.looping <==> KeepsWaiting(w, polls))
      && (!r.looping ==> (r.outstanding.Some? <==> r.finishes == []))
    decreases |polls|
  {
    if polls == [] {
    } else {
      var v, rest := PollStep(w, polls[0]), polls[1..];
      assert polls == [polls[0]] + rest;
      assert polls[0] in polls;
      if v.looping {
        NextWriteOutcome(v, rest);
        assert v.queue == LastN(polls[0].batch, MAXIMUM_QUEUE_SIZE + 1);
        if rest != [] {
          assert Prior(polls) == [polls[0]] + Prior(rest);
          assert polls[0] in Prior(polls);
        }
      }
    }
  }

  lemma MoreWaiting(w: Writer, polls: seq<Poll>, k: nat)
    requires WriterOk(w) && w.looping && k < |polls| && PollStep(w, polls[0]).looping
    ensures KeepsWaiting(w, polls[..k + 1]) <==> KeepsWaiting(PollStep(w, polls[0]), polls[1..][..k])
  {
    assert polls[..k + 1] == [polls[0]] + polls[1..][..k];
    assert Prior(polls[..k + 1]) == if k == 0 then [] else [polls[0]] + Prior(polls[1..][..k]);
  }

  /** Which turn the loop returns on and how: a turn on which somebody has quit finishes the RPC,
      with nothing more written; any other starts a write. */
  lemma {:induction false} NextWriteReturns(w: Writer, polls: seq<Poll>) returns (k: nat)
    requires WriterOk(w) && w.looping && !PollSteps(w, polls).looping
    ensures k < |polls| && KeepsWaiting(w, polls[..k]) && !KeepsWaiting(w, polls[..k + 1])
    ensures var r := PollSteps(w, polls);
      if Alive(polls[k]) then r.outstanding.Some? && r.finishes == []
      else r.outstanding.None? && r.finishes == [if polls[k].cancelled then Cancelled else Ok] && r.written == w.written
    decreases |polls|
  {
    var v, rest := PollStep(w, polls[0]), polls[1..];
    if !v.looping {
      k := 0;
      assert polls[..1] == [polls[0]] && polls[0] in polls[..1];
    } else {
      k := NextWriteReturns(v, rest);
      MoreWaiting(w, polls, k);
      MoreWaiting(w, polls, k + 1);
      k := k + 1;
    }
  }

  /** The events that end an RPC: a turn on which somebody has quit, and a failed write. */
  predicate Ends(e: Event)
  {
    (e.Turn? && !Alive(e.poll)) || (e.Wrote? && !e.ok)
  }

  /** An RPC is finished exactly if one of these has happened, with the status that goes with it,
      and then no write is outstanding. */
  lemma {:induction false} FinishedIff(events: seq<Event>)
    requires Legal(events)
    ensures RunWriter(events).finishes != [] <==> exists e <- events :: Ends(e)
    ensures RunWriter(events).finishes != [] ==> RunWriter(events).outstanding.None? && !RunWriter(events).looping
    ensures forall e <- events | Ends(e) ::
        RunWriter(events).finishes ==
        match e
        case Turn(poll) => if poll.cancelled then [Cancelled] else [Ok]
        case Wrote(_, cancelled) => if cancelled then [Cancelled] else [Failed]
        case _ => []
  {
    if events == [] {
    } else {
      var rest, e := Prior(events), Last(events);
      FinishedIff(rest);
      assert events == rest + [e] && e in events;
      assert forall d <- rest :: d in events;
      assert Next(RunWriter(rest), e).finishes != [] <==> RunWriter(rest).finishes != [] || Ends(e);
    }
  }

  /** Why a finished RPC was finished: the client cancelled, the server is stopping, or a
      write failed. Nothing that happens later changes the status. */
  lemma {:induction false} FinishReason(events: seq<Event>) returns (i: nat)
    requires Legal(events) && RunWriter(events).finishes != []
    ensures i < |events|
    ensures RunWriter(events).finishes ==
      match events[i]
      case Turn(poll) =>
        if poll.cancelled then [Cancelled] else if !poll.keepRunning then [Ok] else []
      case Wrote(ok, cancelled) =>
        if ok then [] else if cancelled then [Cancelled] else [Failed]
      case Cancel => []
      case Done => []
  {
    var rest := Prior(events);
    if RunWriter(rest).finishes == [] {
      i := |events| - 1;
    } else {
      i := FinishReason(rest);
    }
  }

  /** What was written followed by what is queued is exactly what was fetched and kept. */
  lemma {:induction false} WrittenAccounts(events: seq<Event>)
    requires Legal(events)
    ensures RunWriter(events).written + RunWriter(events).queue == Kept(events)
    ensures Subsequence(Kept(events), Fetched(events))
  {
    if events == [] {
    } else {
      var rest, e := Prior(events), Last(events);
      var w := RunWriter(rest);
      WrittenAccounts(rest);
      if e.Turn? && Fetches(w, e.poll) {
        FetchHolds(w, e.poll);
        LastNIsSubsequence(e.poll.batch, MAXIMUM_QUEUE_SIZE + 1);
        SubsequenceConcat(Kept(rest), Fetched(rest), LastN(e.poll.batch, MAXIMUM_QUEUE_SIZE + 1), e.poll.batch);
      } else {
        NextHolds(w, e);
      }
    }
  }

  /** No batch of the run was larger than the queue can hold: 2048 packets and one more. */
  ghost predicate NoOverflow(events: seq<Event>)
    requires Legal(events)
  {
    events != [] ==>
      var rest, e := Prior(events), Last(events);
      NoOverflow(rest) && (e.Turn? && Fetches(RunWriter(rest), e.poll) ==> |e.poll.batch| <= 2049)
  }

  lemma {:induction false} KeptLength(events: seq<Event>)
    requires Legal(events)
    ensures |Kept(events)| <= |Fetched(events)|
    ensures NoOverflow(events) ==> Kept(events) == Fetched(events)
    ensures !NoOverflow(events) ==> |Kept(events)| < |Fetched(events)|
  {
    if events == [] {
    } else {
      KeptLength(Prior(events));
    }
  }

  /** The writer loses nothing it fetched exactly when no batch overflows its queue. */
  lemma {:induction false} LosslessIff(events: seq<Event>)
    requires Legal(events)
    ensures NoOverflow(events) <==> RunWriter(events).written + RunWriter(events).queue == Fetched(events)
  {
    WrittenAccounts(events);
    KeptLength(events);
  }
}
