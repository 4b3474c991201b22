# A verified model of the seismic packet service

The service receives seismic packets from an import feed, keeps one stream per channel, and fans
the packets out to any number of RPC subscribers. This project models the parts of it that keep
state, in the form in which they keep it, and proves what they promise over every run:

- `Stream.dfy`, `SubscriptionManager.dfy`: the stream and the subscription manager as classes whose
  methods update the same fields and maps as the service, loop by loop. Each operation is proved
  equal to a state function of `Subscriptions.dfy`.
- `Polling.dfy`: the order in which one fetch walks contexts and names, and what it returns.
- `Refinement.dfy`: the manager's six indices refine a specification of two lines, read off the log
  of operations alone: a context receives a stream if and only if the stream exists and, since its
  last removal, the context asked for it or for everything.
- `Delivery.dfy`: what becomes of every packet a subscriber is entitled to.
- `DuplicatePacketDetector.dfy`, `DetectorHistory.dfy`, `OutOfOrder.dfy`, `PacketHistory.dfy`: the
  duplicate and timing-slip detector, and what holds of its circular buffers over whole runs, in
  order and in any order, and of its channels over runs of packets.
- `AsyncWriter.dfy`: the writer shared by the two RPC classes, as a reactor object and as a state
  machine over gRPC's callbacks.
- `ImportQueue.dfy`: the import queue, once as a class for one thread at a time and once as a step
  machine in which producer and consumer interleave between any two accesses.
- `Service.dfy`, `EndToEnd.dfy`: all of it put together, with any number of RPCs and every
  interleaving of steps: the life cycle of an RPC, order from the import callback to the wire, and
  completeness for a subscriber that keeps up.
- `Subscriber.dfy`: the reconnect loop, with a termination measure and a bound that is attained.
- `Utilities.dfy`, `Sorting.dfy`, `Sequences.dfy`, `Wrappers.dfy`: the routing key, the time
  arithmetic, sorting, order-preserving subsequences.

Times are integer microseconds, sampling rates are reals, contexts are natural numbers standing for
the address of an RPC's server context, and a packet carries an optional field wherever the
service asks whether it was set. An exception is an `Outcome`, an `Option` or a verdict.

Places where the code and what is said about it differ, and what the model does:

- A comment says that `getPackets` walks the caller's own subscriptions
  (src/subscriptionManager.cpp:302). The code walks the active set of every context. The model
  does too, and the number of packets a fetch takes depends on it (`FetchExact`).
- `unsubscribeAll` empties the requests and the streams but not the active map, although its comment
  speaks of purging the active subscriptions (src/subscriptionManager.cpp:498). `PurgeLeavesActive`
  states what is left and exactly when nothing is, in terms of the calls made; `PurgeLeavesSomebody`
  gives a run of two calls after which somebody is.
- A packet older than everything stored is pushed to the front of the detector's buffer and refused
  in the same call (src/duplicatePacketDetector.cpp:276-294), while testing/sanitizer.cpp:308-312
  wants shuffled packets all allowed. `ReversedPairRefused` is the smallest input that is not,
  `ShuffledRunAdmittedIff` the exact condition for a shuffled run that fits (the oldest packet comes
  first) and `AnyOrderAdmittedIff` for a run of any length.
- The slip test looks only at the two ends of the new packet
  (src/duplicatePacketDetector.cpp:297-302). `SlipTestExact` states what it misses,
  `ContainingPacketAdmitted` gives an input, `OfferDisjointIff` the exact condition for one call
  and `AlwaysDisjointIff` for a run. Once such a
  packet is stored the newest start no longer has the latest end, and a packet inside the long one
  is admitted too: `OverlapAdmitted` gives an input, `OverlapAdmittedIff` the exact condition.
- The end of a packet is stored with a sample period rounded to whole microseconds
  (src/modules/utilities.cppm:59-61). For a long enough packet that end lies beyond the start of
  its successor, which is then taken for a slip: `LongPacketRefused` gives an input,
  `SpacedRunAdmittedIff` the exact condition for a whole run, and `GoodDataAdmitted` covers every
  run of packets with fewer samples than about twice the period in microseconds.
- The name of a stream joins its fields with dots, so it determines the identifier only if the
  fields have none; `NameUnambiguousIff` states when a name belongs to one identifier only.

## Model

| member | source | states |
|---|---|---|
| Utilities.ToNameInjective | src/modules/utilities.cppm:16-34 | routing by name is routing by identifier for fields without dots, an empty and a non-empty location code included |
| Utilities.NameUnambiguousIff | src/modules/utilities.cppm:16-27 | a name belongs to one identifier only exactly when there is no location code and no field has a dot |
| Utilities.Namesake | src/modules/utilities.cppm:16-27 | constructs another identifier with the same name in every other case |
| Utilities.RoundIsNearest | src/modules/utilities.cppm:59 | rounding is to the nearest integer, halves away from zero |
| Utilities.NamesOfStreams | src/modules/utilities.cppm:16-34 | names written out, with and without a location code and without an identifier |
| Streams.PushKeepsNewest | src/stream.cpp:63-68 | pop-if-full then push keeps the newest packets up to the bound |
| Streams.Stream.constructor | src/stream.cpp:25-45 | a new stream takes its identifier and latest packet from the packet that creates it and has no subscribers |
| Streams.Stream.SetNextPacket | src/stream.cpp:48-70 | a packet of another stream is refused and changes nothing; otherwise it becomes the latest and goes onto every bounded queue |
| Streams.Stream.PushToSubscribers | src/stream.cpp:61-69 | the loop pushes the latest packet onto each queue exactly once |
| Streams.Stream.GetNextPacket | src/stream.cpp:73-89 | removes and returns the front of the caller's queue, if there is one |
| Streams.Stream.Subscribe | src/stream.cpp:92-140 | adds a context once, with the latest packet only if asked to, and says whether it was added |
| Streams.Stream.Unsubscribe | src/stream.cpp:145-201 | removes a context and says whether it was there |
| Streams.Stream.UnsubscribeAll | src/stream.cpp:204-210 | removes every subscriber and keeps the latest packet |
| Streams.Stream.GetSubscribers | src/stream.cpp:226-241 | returns the subscribed contexts |
| SubscriptionManagers.SubscriptionManager.constructor | src/subscriptionManager.cpp:556-561 | a new manager is in the initial state |
| SubscriptionManagers.SubscriptionManager.AddToActiveSubscriptionsMap | src/subscriptionManager.cpp:516-528 | the name joins the context's active set, which is created if missing |
| SubscriptionManagers.SubscriptionManager.CheckPacket | src/subscriptionManager.cpp:571-595 | each of five defects by itself refuses a packet; identifier, sample count, data, a positive rate and any of the five known data types pass |
| SubscriptionManagers.SubscriptionManager.EnqueuePacket | src/subscriptionManager.cpp:34-150 | a packet with one of the five defects is refused and changes nothing; any other is accepted and its stream exists afterwards; it is published on a known stream, otherwise creates it and is handed to all who waited |
| SubscriptionManagers.SubscriptionManager.PublishPacket | src/subscriptionManager.cpp:38-51 | the stream's identity check cannot fail for a packet routed by name |
| SubscriptionManagers.SubscriptionManager.CreateStream | src/subscriptionManager.cpp:52-149 | creating a stream amounts to subscribing everyone who waited, with the packet, and settling their requests |
| SubscriptionManagers.SubscriptionManager.NotifyWaiting | src/subscriptionManager.cpp:74-144 | the three loops together subscribe each waiting context once, even one waiting for both reasons |
| SubscriptionManagers.SubscriptionManager.SubscribeThoseWaitingForAll | src/subscriptionManager.cpp:78-96 | the first loop |
| SubscriptionManagers.SubscriptionManager.SubscribeThoseWaitingFor | src/subscriptionManager.cpp:99-121 | the second loop, in which the first one's contexts are found already subscribed |
| SubscriptionManagers.SubscriptionManager.ServeRequest | src/subscriptionManager.cpp:101-120 | one turn of the second loop |
| SubscriptionManagers.SubscriptionManager.SubscribeWaiter | src/subscriptionManager.cpp:82-89 | one waiting context joins with the latest packet and becomes active |
| SubscriptionManagers.SubscriptionManager.PurgeFilledRequests | src/subscriptionManager.cpp:124-143 | drops exactly the contexts with nothing pending |
| SubscriptionManagers.SubscriptionManager.Deduplicate | src/subscriptionManager.cpp:624-634 | the selections kept have the same names, each once |
| SubscriptionManagers.SubscriptionManager.Subscribe | src/subscriptionManager.cpp:614-640 | fails exactly on an empty selection; otherwise the context is on every selected stream that exists and waits for every other |
| SubscriptionManagers.SubscriptionManager.SubscribeSelections | src/subscriptionManager.cpp:153-234 | the loop over selections, and the reset of the cached count |
| SubscriptionManagers.SubscriptionManager.SubscribeName | src/subscriptionManager.cpp:161-227 | one selection: join or become pending |
| SubscriptionManagers.SubscriptionManager.JoinStream | src/subscriptionManager.cpp:165-187 | a late joiner starts with an empty queue; a repeated join changes nothing |
| SubscriptionManagers.SubscriptionManager.SubscribeToAll | src/subscriptionManager.cpp:237-295 | joins every stream there is and waits for all others; a repeated request changes nothing |
| SubscriptionManagers.SubscriptionManager.JoinAllStreams | src/subscriptionManager.cpp:247-287 | the loop over streams |
| SubscriptionManagers.SubscriptionManager.UnsubscribeFromAll | src/subscriptionManager.cpp:340-439 | removes a context's requests and subscriptions and resets the cached count |
| SubscriptionManagers.SubscriptionManager.LeaveAllStreams | src/subscriptionManager.cpp:340-425 | the loop over streams leaves each of them and ends the context's activity |
| SubscriptionManagers.SubscriptionManager.LeaveStream | src/subscriptionManager.cpp:340-425 | one turn: both responses of the stream end the activity |
| SubscriptionManagers.SubscriptionManager.UnsubscribeAll | src/subscriptionManager.cpp:490-514 | empties requests and streams, keeps the active map and recounts |
| SubscriptionManagers.SubscriptionManager.ClearStreams | src/subscriptionManager.cpp:499-502 | the loop over streams |
| SubscriptionManagers.SubscriptionManager.GetPackets | src/subscriptionManager.cpp:297-337 | the nested loops return one packet of the caller's own queue for each visit, contexts and names in the order of the sorted maps; of each stream that is one packet per context active on it, in order |
| SubscriptionManagers.SubscriptionManager.PollNames | src/subscriptionManager.cpp:305-334 | the inner loop polls each named stream once, in ascending order |
| SubscriptionManagers.SubscriptionManager.PollStream | src/subscriptionManager.cpp:307-333 | one poll |
| Polling.NamesAscend | src/subscriptionManager.cpp:305 | the names of an active set are visited in the order of std::string, each of them |
| Polling.SmallerCharacterFirst | src/subscriptionManager.cpp:305 | where the names of two streams first differ the one with the smaller character is visited first |
| Polling.ShorterNameFirst | src/subscriptionManager.cpp:305 | a stream is visited before one whose name extends its name |
| Polling.SmallerContextFirst | src/subscriptionManager.cpp:303 | all visits for a context come before those for a context with a larger address |
| Polling.CountVisits | src/subscriptionManager.cpp:303-306 | a stream is visited exactly once per context that is active on it |
| Polling.GatheredOn | src/subscriptionManager.cpp:307-318 | whatever the order of the visits, what they return of one stream is a prefix of its queue, in order |
| Polling.PolledByAll | src/subscriptionManager.cpp:303-335 | polling once per active context is exactly one fetch, in state and in result |
| SubscriptionManagers.SubscriptionManager.GetNumberOfSubscribers | src/subscriptionManager.cpp:442-465 | returns the cached count, or counts the three kinds of subscribers without repetition and caches that |
| Refinement.RunAgrees | src/subscriptionManager.cpp:34-528 | the joint invariant over all six indices holds in every reachable state |
| Refinement.StepAgreesAt | src/subscriptionManager.cpp:34-528 | every operation keeps the coupling between the state and the log |
| Refinement.StepCoherent | src/subscriptionManager.cpp:34-528 | every operation keeps empty entries out and the cached count right |
| Refinement.SubscriptionRefinement | src/subscriptionManager.cpp:34-528 | subscribed, pending, waiting for all and active are each equivalent to a statement about the log |
| Refinement.ActiveIff | src/subscriptionManager.cpp:490-528 | after any run a context is active on a stream if and only if it has received it at some time since its own last removal |
| Refinement.CountCoherence | src/subscriptionManager.cpp:442-465 | the number reported is the true number of distinct subscribers after every run, cached or not |
| Refinement.AddStreamKeepsMembers | src/subscriptionManager.cpp:76-143 | moving contexts between maps while a stream is created changes nobody's membership, so the cache stays valid |
| Refinement.MembersAreAskers | src/subscriptionManager.cpp:442-465 | whoever asked is counted, and without a purge nobody else |
| Refinement.PurgeLeavesActive | src/subscriptionManager.cpp:490-514 | what a purge leaves behind; the count it ends with is zero exactly when no context has received anything since its own last removal, before the first purge exactly when nobody is subscribed |
| Refinement.PurgeLeavesSomebody | src/subscriptionManager.cpp:490-514 | one request for everything and one packet, and the purge leaves somebody |
| Refinement.RemovalComplete | src/subscriptionManager.cpp:340-439 | after any run, purges included, removing a context leaves it nowhere and everyone else untouched |
| Refinement.NobodyActiveWithoutStreams | src/subscriptionManager.cpp:340-425 | contexts are active only when a stream exists, which removal relies on |
| Delivery.QueueStep | src/stream.cpp:48-140 | what every operation does to one context's queue of one stream |
| Delivery.RunWellNamed | src/subscriptionManager.cpp:34-51 | every queue holds packets of its own stream only |
| Delivery.MostRecentIsLatest | src/stream.cpp:58-60 | a stream's latest packet is the last admissible one enqueued for it |
| Delivery.DeliveryLedger | src/stream.cpp:48-140 | the queue is a bounded contiguous suffix of the entitled packets; each older one was delivered or dropped; what was delivered is, in order, exactly those not dropped |
| Delivery.DeliveryInOrder | src/stream.cpp:48-140 | delivered then queued is an order-preserving subsequence of the entitled packets |
| Delivery.LosslessIff | src/stream.cpp:61-69 | nothing is lost exactly when the reader never falls behind by more than the queue size |
| Delivery.NoDropIff | src/stream.cpp:63-66 | a packet is dropped exactly when the reader fell behind |
| Delivery.FetchExact | src/subscriptionManager.cpp:297-337 | in every reachable state a fetch returns the first min(queue length, active contexts) packets, makes progress, and touches nobody else's queue |
| Delivery.FetchFromState | src/subscriptionManager.cpp:297-337 | the same from any state in which subscribers are active |
| Delivery.FetchMoves | src/subscriptionManager.cpp:297-337 | a fetch moves packets from queue to reader and shortens a non-empty queue |
| Delivery.FetchesDrain | src/subscriptionManager.cpp:297-337 | with no new packets, as many fetches as the queue bound drain everything without loss |
| DuplicateDetector.MakeHeaderOk | src/duplicatePacketDetector.cpp:28-50 | a header exists exactly for a positive rate and a positive 32-bit sample count, and does not end before it starts |
| DuplicateDetector.HeaderNames | src/duplicatePacketDetector.cpp:31-45 | a header carries the name, start and sample count of its packet |
| DuplicateDetector.HeaderMeasures | src/duplicatePacketDetector.cpp:40-43 | its rate is off by at most a half, its end by at most half a microsecond per sample period |
| DuplicateDetector.SameIff | src/duplicatePacketDetector.cpp:59-85 | two headers are the same packet in each rate class exactly if they are less than 15, 4.5, 2.5 or 1.5 ms apart, in either direction |
| DuplicateDetector.IncomparableIff | src/duplicatePacketDetector.cpp:62-90 | a comparison throws exactly for different rates, or from 1005 Hz on for equal counts |
| DuplicateDetector.FindHeader | src/duplicatePacketDetector.cpp:253-264 | the search stops at the first header that is the same or cannot be compared |
| DuplicateDetector.DetectSlip | src/duplicatePacketDetector.cpp:297-312 | reports exactly whether an end of the new packet falls inside a stored one |
| DuplicateDetector.PushThenSortIsInsert | src/duplicatePacketDetector.cpp:318-324 | push_back followed by insertion sort is ordered insertion after evicting the oldest start |
| DuplicateDetector.AnySortIsInsert | src/duplicatePacketDetector.cpp:318-324 | so is push_back followed by any sort, stable or not: there is only one sorted permutation |
| DuplicateDetector.OfferKeepsOk | src/duplicatePacketDetector.cpp:252-325 | starts strictly increase, size is between one and capacity, one name, one rounded rate; a call that throws changes nothing |
| DuplicateDetector.AcceptKeepsOk | src/duplicatePacketDetector.cpp:210-326 | the same for all channels, including one just opened |
| DuplicateDetector.DuplicatePacketDetector.constructor | src/duplicatePacketDetector.cpp:205 | a new detector has no channels |
| DuplicateDetector.DuplicatePacketDetector.Allow | src/duplicatePacketDetector.cpp:210-326 | each call does to its channel's buffer what the ordered-insertion specification says |
| DuplicateDetector.DuplicatePacketDetector.AllowPacket | src/duplicatePacketDetector.cpp:421-438 | a packet without a header is refused and changes nothing; the first of its channel is allowed |
| DuplicateDetector.Capacity | src/duplicatePacketDetector.cpp:220-226 | the capacity of a new buffer is positive |
| DuplicateDetector.DurationTimesRate | src/duplicatePacketDetector.cpp:102-105 | the duration of a packet is the time from its first to its last sample at the rounded rate |
| DuplicateDetector.FiveMinutesOfThreeSeconds | src/duplicatePacketDetector.cpp:99-108 | five minutes of three-second packets make a capacity of 151 |
| DetectorHistory.Survives | src/duplicatePacketDetector.cpp:210-326 | a header at index i of a buffer of size s and capacity c survives (c - s) + i insertions, over every run |
| DetectorHistory.DuplicateWindow | src/duplicatePacketDetector.cpp:210-326 | while it survives, every similar packet is refused, whatever is offered in between |
| DetectorHistory.NewestWindow | src/duplicatePacketDetector.cpp:266-274 | a header admitted as newest is remembered through capacity - 1 further insertions |
| DetectorHistory.RememberedIsRefused | src/duplicatePacketDetector.cpp:253-264 | a packet similar to a stored one is refused without a change |
| DetectorHistory.OfferThrowsIff | src/duplicatePacketDetector.cpp:59-90 | a call throws exactly when the rounded rate changed or no tolerance covers it and a sample count coincides |
| DetectorHistory.NewestAdmittedIff | src/duplicatePacketDetector.cpp:266-274 | beyond the tolerance of the newest start, a packet is admitted if and only if it starts after the newest ends |
| DetectorHistory.InOrderAdmitted | src/duplicatePacketDetector.cpp:252-274 | an in-order run of any length is admitted in full and the buffer holds exactly the newest that fit |
| DetectorHistory.TwoPeriodsReachTolerance | src/duplicatePacketDetector.cpp:70-85 | in each of the four rate classes two sample periods, rounded or exact, reach the tolerance |
| DetectorHistory.RecordedSucceeds | src/modules/utilities.cppm:46-62 | of two packets recorded one after the other, the second starts after the first ends as stored and is not taken for it, as long as rounding the sample period does not add up to a whole period |
| DetectorHistory.RunAdmittedIff | src/duplicatePacketDetector.cpp:252-274 | a run of headers spaced by at least a tolerance is admitted in full if and only if each starts after the one before it has ended |
| DetectorHistory.ContinuationAdmittedIff | src/duplicatePacketDetector.cpp:266-274 | the packet following the newest one is admitted if and only if it starts after that one's stored end |
| DetectorHistory.LongPacketRefused | src/modules/utilities.cppm:59-61 | a packet of 3000 samples whose period is rounded up makes its successor be refused |
| DetectorHistory.GoodDataAdmitted | src/duplicatePacketDetector.cpp:210-274 | good data is never refused: every recorded run, however long and with or without gaps, is admitted in full |
| DetectorHistory.ContinuingRunSpaced | src/duplicatePacketDetector.cpp:70-85 | the packets of a recorded run are spaced by at least a tolerance, however long each of them is |
| DetectorHistory.SpacedRunAdmittedIff | src/duplicatePacketDetector.cpp:210-274 | such a run is admitted in full if and only if every packet starts past the stored end of the one before it |
| DetectorHistory.SlipTestExact | src/duplicatePacketDetector.cpp:297-312 | the slip test misses an overlap exactly when the new packet strictly contains the stored one |
| DetectorHistory.OfferDisjointIff | src/duplicatePacketDetector.cpp:252-325 | one call destroys the disjointness of the stored packets if and only if the packet is not found to be a duplicate, no end of it falls inside a stored one, and it strictly contains one that is retained |
| DetectorHistory.RunDisjoint | src/duplicatePacketDetector.cpp:265-325 | without containment among the packets offered, every reachable buffer is pairwise disjoint |
| OutOfOrder.AlwaysDisjointIff | src/duplicatePacketDetector.cpp:252-325 | the stored packets stay disjoint throughout a run if and only if no packet of it slips past both tests around a retained one |
| DetectorHistory.OverlapAdmittedIff | src/duplicatePacketDetector.cpp:252-312 | a packet overlapping a stored one that it does not contain is admitted if and only if it is no duplicate and starts after the newest has ended, which cannot be while the stored packets are disjoint |
| DetectorHistory.OverlapAdmitted | src/duplicatePacketDetector.cpp:266-274 | with a long packet stored around a short one, a packet behind the short one and inside the long one is admitted |
| DetectorHistory.OutOfOrderAdmittedIff | src/duplicatePacketDetector.cpp:276-325 | one packet that fits a gap is admitted if and only if it is not older than everything stored, and stored also if there is room in front |
| OutOfOrder.AnyOrderKeepsNewest | src/duplicatePacketDetector.cpp:252-325 | in whatever order disjoint packets are offered, the buffer then holds the newest of them that fit, sorted |
| OutOfOrder.OrderDoesNotMatter | src/duplicatePacketDetector.cpp:252-325 | two orders of the same packets lead to the same buffer |
| OutOfOrder.AnyOrderAdmittedIff | src/duplicatePacketDetector.cpp:252-325 | a run in any order and of any length is admitted in full if and only if no packet comes after as many newer ones as the buffer holds, or after newer ones only |
| OutOfOrder.ShuffledRunAdmittedIff | src/duplicatePacketDetector.cpp:210-325 | of as many packets as the buffer of a new channel holds all are stored, in any order, and all are admitted if and only if the oldest comes first |
| DetectorHistory.ReversedPairRefused | src/duplicatePacketDetector.cpp:276-294 | two packets in reverse order: the earlier one is stored and refused |
| DetectorHistory.ContainingPacketAdmitted | src/duplicatePacketDetector.cpp:297-325 | a long packet around a stored short one is admitted |
| DetectorHistory.CapacityCoversMemory | src/duplicatePacketDetector.cpp:99-108 | capacity is at least 11, covers the memory 1.5 times in rounded and 0.75 times in exact durations, and is not larger than needed |
| DetectorHistory.MemoryWindow | src/duplicatePacketDetector.cpp:99-108 | an in-order channel that has moved on by no more than three quarters of the requested time, in packets at least as long as its first, still remembers what was newest then |
| DetectorHistory.ChannelsIndependent | src/duplicatePacketDetector.cpp:216-243 | however channels are interleaved, each buffer is what its own headers lead to |
| PacketHistory.KnownChannels | src/duplicatePacketDetector.cpp:216-239 | after any run of packets a channel is known exactly if a packet of its name had a header |
| PacketHistory.PacketChannelsIndependent | src/duplicatePacketDetector.cpp:216-243 | the buffer of a name is what the packets of that name alone lead to |
| PacketHistory.FirstOfChannelAllowed | src/duplicatePacketDetector.cpp:216-239 | the first packet with a header of each name is allowed, whatever came on others |
| Sorting.SortBySorts | src/subscriberOptions.cpp:81-83 | sorting yields a sorted permutation |
| Sorting.SortUnique | src/duplicatePacketDetector.cpp:319-324 | when keys differ there is one sorted permutation |
| Writers.Reactor.constructor | src/modules/asyncWriter.cppm:166-189 | an accepted RPC starts subscribed and with nothing queued |
| Writers.Reactor.NextWrite | src/modules/asyncWriter.cppm:255-345 | the loop takes turns until it returns: on a turn on which somebody has quit unsubscribed and finished with the matching status, on any other with a write outstanding |
| Writers.Reactor.Refill | src/modules/asyncWriter.cppm:280-296 | the overflow pops keep the newest 2049 packets of a batch |
| Writers.Reactor.Leave | src/modules/asyncWriter.cppm:319-323 | unsubscribes exactly if still subscribed |
| Writers.Reactor.OnWriteDone | src/modules/asyncWriter.cppm:191-210 | a completed write purges the packet written and calls the loop again; a failed one finishes the RPC; either way exactly one of outstanding and finished holds on return |
| Writers.Reactor.OnCancelOrDone | src/modules/asyncWriter.cppm:215-246 | cancellation and completion unsubscribe exactly if still subscribed |
| Writers.NextOk | src/modules/asyncWriter.cppm:191-345 | every callback and every turn of the loop keeps the writer's invariant |
| Writers.WriterSafety | src/modules/asyncWriter.cppm:191-345 | in every run at most one write is outstanding and its packet is the front of a queue of at most 2049; an RPC finishes at most once; the loop has returned exactly when one of outstanding and finished holds |
| Writers.OutstandingUntouched | src/modules/asyncWriter.cppm:264-301 | while a write is outstanding no turn of the loop would refill, pop or write: its guards are false |
| Writers.OutstandingStays | src/modules/asyncWriter.cppm:191-345 | from the start of a write to its report, whatever happens, its packet stays the front of an unchanged queue |
| Writers.FinishedStays | src/modules/asyncWriter.cppm:191-345 | a finished RPC stays finished as it is and writes nothing more |
| Writers.UnsubscribedOnce | src/modules/asyncWriter.cppm:215-246 | of all cancellations, ends of the loop and completions the first calls unsubscribeFromAll, and no other |
| Writers.NextWriteOutcome | src/modules/asyncWriter.cppm:255-345 | the loop returns as soon as somebody quits or there is something to write, and then with exactly one of outstanding and finished |
| Writers.NextWriteReturns | src/modules/asyncWriter.cppm:258-338 | the loop returns on the first turn on which somebody has quit or something is to be written; in the first case the RPC is finished and nothing more is written |
| Writers.FinishedIff | src/modules/asyncWriter.cppm:191-345 | in every run an RPC is finished exactly if a turn found that somebody had quit or a write failed, with the status that goes with it and no write outstanding |
| Writers.FinishReason | src/modules/asyncWriter.cppm:191-200 | the status an RPC ends with tells which event of the run ended it |
| Writers.WrittenAccounts | src/modules/asyncWriter.cppm:264-297 | written then queued is exactly what was fetched and not popped by the overflow, in order |
| Writers.LosslessIff | src/modules/asyncWriter.cppm:288-295 | written then queued equals everything fetched exactly when no batch overflows the queue |
| Writers.KeptLength | src/modules/asyncWriter.cppm:288-295 | the overflow pops shorten what is kept exactly when a batch overflows |
| ImportQueues.ImportQueue.constructor | src/main.cpp:62-63 | the queue starts empty with its configured capacity |
| ImportQueues.ImportQueue.AddPacket | src/main.cpp:145-172 | undisturbed, the callback keeps the newest packets up to the capacity and its push succeeds |
| ImportQueues.ImportQueue.TryPop | src/main.cpp:154 | takes the front, if there is one |
| ImportQueues.ImportQueue.TryPush | src/main.cpp:162 | appends exactly if there is room |
| ImportQueues.StepOk | src/main.cpp:145-205 | every step of either thread keeps the protocol's invariant |
| ImportQueues.ImportProtocol | src/main.cpp:145-205 | under every interleaving the queue keeps its bound, every push succeeds, at most one packet is discarded per call, only the oldest leave, and the consumer sees arrival order |
| ImportQueues.CallEnds | src/main.cpp:145-172 | the loop that makes room ends under every interleaving: after a packet is received the producer takes at most four steps |
| ImportQueues.ImportLosslessIff | src/main.cpp:151-161 | over any run nothing is lost exactly when every pop by the producer found the queue already emptied |
| ImportQueues.KeepingUpLosesNothing | src/main.cpp:151-161 | a consumer at most the capacity behind whenever the size is read loses nothing |
| ImportQueues.UndisturbedKeepsNewest | src/main.cpp:145-172 | the step machine does what the method does when the consumer stays out of the way |
| Services.RpcLifecycle | src/modules/asyncWriter.cppm:215-246 | each subscribe is matched by exactly one unsubscribe, made by the RPC itself, under any order of cancel, loop end and done; then the context is in no map and on no stream |
| Services.RpcCallsOnce | src/modules/asyncWriter.cppm:215-246 | in each step an RPC makes the call that the manager's log records and no other; a deleted reactor has made exactly one |
| Services.LiveStep | src/modules/asyncWriter.cppm:166-189 | subscribing opens an RPC where there was none; only a subscribed RPC unsubscribes, and then no longer is |
| Services.CountIsLiveRpcs | src/subscriptionManager.cpp:442-465 | until a purge, the manager's count is the number of RPCs that are subscribed |
| Services.MembersStep | src/subscriptionManager.cpp:153-439 | only subscribing makes a context known to the manager |
| EndToEnd.EndToEndOrder | src/modules/asyncWriter.cppm:255-313 | of each stream, what an RPC writes is an order-preserving subsequence of what the import callback received, for every interleaving of all parts |
| EndToEnd.NextLine | src/main.cpp:182-205 | no step of any part puts a packet out of order, repeats it or makes one up |
| EndToEnd.CompleteIffKeepsUp | src/subscriptionManager.cpp:297-337 | a subscribed RPC without overflow holds or awaits every packet it is entitled to exactly when it keeps up |
| EndToEnd.EnqueuedIsConsumed | src/main.cpp:182-205 | the manager is handed exactly what the import queue's consumer has taken, in order |
| EndToEnd.EntitledIsSuffix | src/subscriptionManager.cpp:74-121 | a context is entitled to everything admissible on a stream from some packet on |
| EndToEnd.EndToEndComplete | src/modules/asyncWriter.cppm:255-313 | if the import queue never discards, no fetch overflows and the RPC keeps up, then what it has written, holds and will get is, for each stream, a contiguous end of all the import callback received |
| Subscribers.SubscriberOptions.constructor | src/subscriberOptions.cpp:13-18 | the default schedule is ascending and not negative |
| Subscribers.SubscriberOptions.SetReconnectSchedule | src/subscriberOptions.cpp:70-84 | refuses exactly the schedules with a negative wait; stores the others sorted |
| Subscribers.ShouldRetry | src/subscriber.cpp:294-333 | which ends of a connection lead to another attempt |
| Subscribers.AcquirePackets | src/subscriber.cpp:252-341 | terminates; makes at most (n + 1) + S n attempts; waits as scheduled; reads the flag directly before every wait and every attempt and goes on only if it is set; after the first reading that finds it cleared only the final one follows; throws exactly if not stopped, and then only because the schedule is exhausted or the error is fatal |
| Subscribers.Connect | src/subscriber.cpp:259-333 | the loop itself, and the three ways of leaving it |
| Subscribers.StopIsPrompt | src/subscriber.cpp:261-275 | stopped before a reading of the flag it makes no more attempts and waits in all than there were readings before that one; stopped from the outset none |
| Subscribers.AttemptsBounded | src/subscriber.cpp:259-334 | the bound follows from never passing the end of the schedule between successes |
| Subscribers.WaitsGrow | src/subscriber.cpp:260-276 | the waits of the loop do not get shorter between two successes, and the first after a success is the shortest of the schedule |
| Subscribers.BoundIsAttained | src/subscriber.cpp:259-334 | for every n and S there is a server with which the schedule is exhausted after exactly that many attempts, S of them successful |
| Subscribers.TeasingSuccesses | src/subscriber.cpp:291-293 | that server never delivers more often, so the loop's bound on the successes holds |
| Subscribers.ExhaustTeasingServer | src/subscriber.cpp:252-341 | run against it, the loop makes exactly (n + 1) + S n attempts and gives up |

## Left out

- EstimateCapacity: a rounded duration of zero divides by zero in C++; the integer that the conversion of infinity yields is a parameter, and `CapacityCoversMemory` asks for at least one second.
- EndTime: the overflow of 64-bit microseconds is not modelled, nor that of the 32-bit rounded rate.
- AcquirePackets: readings of the flag that `stop` clears and outcomes of connections come from an oracle, and a bound on the successes must exist, since the loop runs for as long as attempts succeed.
- NextWrite: an endless loop is driven by a finite list of turns; what the manager returns in a turn is part of the turn, and `Services.Enabled` ties it to the manager.
- Rejected RPCs: the constructors finish a rejected RPC and fall through to subscribing it, and the maximum number of subscribers is not enforced (src/modules/asyncWriter.cppm:90-140); the writer's properties are about accepted RPCs.
- Two RPCs at one address: an RPC is opened at an address no living RPC has.
- The null-context branch at the end of the write loop, which the callbacks cannot reach.
- The two size-mismatch exceptions of `Stream::unsubscribe`, which one atomic erase cannot raise.
- Concurrency inside an operation: each public operation of the manager, the stream and the writer is one atomic step, as their locks intend, though `getNextPacket` and `subscribe` of the stream take none. Only the import queue is modelled below that.
- gRPC channels, credentials, tokens, the client-side reactor, server start and stop.
- Logging, metrics, summaries, command line, ini files, signal handling and the option classes; their positivity checks appear as types and preconditions.
- The expired and future packet detectors: one comparison with the clock each.
- The packet converter: field by field copying.
- IEEE rounding: rates and durations are reals.
