# A model of the WebSub hub library and its two example hubs

The library is an HTTP handler that admits subscription requests, verifies the intent of the
subscriber in background workers, and hands verified subscriptions to an application. Two
applications come with it: a hub that keeps everything in memory, and a hub over Kafka, in which
one event log drives a *consolidator* (a flat map of subscriptions, published as snapshots) and any
number of *hub* processes (nested maps of subscriptions with live delivery workers).

## What is modelled, and the main results

**The event log and its two projections** (`State`, `Convergence`, `History`, `Snapshots`,
`Consolidation`, `Nested`, `HubProjection`, `Publishing`, `Refinement`). Snapshots carry no log
offset, so every restart replays events its snapshot already contains. `Convergence` shows why the
result is right all the same: any sequence of state events, applied to any projection, does nothing
more when it is applied again. From this follow recovery after any number of interrupted replays,
the exact condition on the retained log and on the captured end under which a snapshot plus replay
reaches the right state for every log, and the counterexample that explains the interest: a snapshot
published in the middle of a replay can be the state of no prefix of the log. `History` reads the
same state off the positions of the events, without running them. The classes `Consolidator` and
`Hub` change their maps in place, as the source does, and each method is tied to a step function of
the projection; `Refinement` puts the two side by side. `Publishing` has the events a hub publishes,
and why every consumer accepts them.

**The running system** (`Bootstrap`, `StuckReplay`, `Revisions`, `EventCursor`). `Bootstrap` is a
step system with appends, retention, consolidator crashes and restarts, snapshot fetch, log-end
capture, replay and tailing in any interleaving; `StuckReplay` says which starts it gets through,
and that a live consumer catches up with the log. `Revisions` has the load of the newest snapshot,
over any interleaving of partitions, and `EventCursor` the poll loop both Kafka adapters share.

**Delivery** (`Workers`, `WorkerProgress`, `Groups`, `ContentDelivery`, `AtLeastOnce`). `Workers`
interleaves the startup scan with the event thread, in steps no larger than one hold of the hub's
lock. `ContentDelivery` has the retry loop, the batch loop and the deliver-then-commit loop;
`AtLeastOnce` follows the latter through crashes, stale marking, recovery and trimming.

**The handler** (`VerificationQueue`, `VerifiedCallbacks`, `Verification`, `Lease`, `Int64`).
`VerificationQueue` is the queue protocol with one step per channel operation, WaitGroup operation
or callback: `Add` before the send, the receive before `Done`, the 202 before the gate.
`VerifiedCallbacks` has the converse of the safety theorems: a proved job is called, a job can be
served, and Close returns. `Verification` is what one worker does with one job, and `Lease` follows
the lease from the configuration and the form value to the application.

**URL normalization** (`UrlNormalization`, `UrlCanonical`) and **the in-memory hub** (`MemoryHub`,
`Generations`).

## Properties that hold only under a condition

For each of these the code is kept as it is, and the condition is proved to be exact.

- A snapshot after k events, the log retained from j on, and the end captured at e reach the state
  after e events, for every log, exactly when j <= k <= e (`Convergence.ReplayReachesExactly`).
- The consolidator's key is injective exactly on topics without a NUL byte
  (`Consolidation.KeyInjectiveExactly`); `url.Parse` rejects control bytes before they get there.
- A published snapshot is the one a later load returns exactly when the revision before it was not
  2^64-1. The exhaustion check of `consumeEvent` sits in its error branch and does not guard the
  increment (`Revisions.NextIsNewestExactly`, with the wrapped revision in
  `Revisions.WrappedIsNotLoaded`).
- A load ends at the first empty poll, whatever partitions are still unread. It returns the snapshot
  published last exactly when a poll before that brought it (`Revisions.EmptyPollDecides`;
  `Revisions.SnapshotIsMissed` is a load that misses the only one), and only then does the
  consolidator go on with a revision above all published ones (`Revisions.NextExceedsExactly`). The
  state it reaches does not depend on this: an older snapshot serves as well, as long as the log is
  retained from where it was taken (`Bootstrap.ConsolidatorFollowsLog`).
- A replay finishes exactly when one record below its captured end is still retained, or the cursor
  was beyond that end already. On a log whose records were all removed by retention, the log end is
  above 0 and the cursor stays 0, so startup waits for good (`EventCursor.ReplayFinishesExactly`; in
  the running system `StuckReplay.StartFinishesExactly`, `StuckReplay.StuckExactly` and
  `StuckReplay.StuckForGood`, reached in `StuckReplay.TrimmedLogIsStuck`, and for a hub
  `StuckReplay.HubStartFinishesExactly`, `StuckReplay.HubStuckExactly`,
  `StuckReplay.HubStuckForGood` and `StuckReplay.TrimmedLogStopsHub`).
- When a delivery worker ends and its successor starts, a record is lost for good exactly when the
  group has no commit that is still in the range of the log, and something in the log had not been
  delivered yet (`AtLeastOnce.RestartLosesExactly`, with a run in `AtLeastOnce.FirstRecordLost`). A
  running worker that trimming overtakes loses one exactly when something had not been delivered,
  commit or not (`AtLeastOnce.OvertakenLosesExactly`).
- An entry whose worker has returned by itself stays without one exactly until an event settles it:
  its own stale or unsubscribe event, or another that removes it (`Workers.UnservedUntilSettled`).
  Where publishing that event fails, nothing else in the process makes up for it.
- Normalization preserves the percent-decoded meaning of a URL exactly when no stray `%` masks an
  escape, and is idempotent exactly when none masks an escape of an unreserved byte
  (`UrlCanonical.MeaningPreserved`, `UrlCanonical.Idempotent`).

## Assumptions

- Logs contain decoded events. A record the Apply functions reject stops the consumer; in
  `Bootstrap` and `AtLeastOnce` only accepted events are appended.
- A time is an integer, 0 standing for Go's zero time, and `time.Time.Equal` is equality.
- Offsets retained in a partition are contiguous up to the log end.
- SHA-256 is injective: two consumer groups are equal when the texts that are hashed are.
- In `Bootstrap`, the log is still retained from where a loaded snapshot was taken, and retention
  does not overtake a running process (`ReplayReachesExactly` shows that this is needed); there is
  one consolidator, and its revision stays below 2^64-1. A load may have read any of the published
  snapshots, or none; `LoadsTheLastPublished` alone takes the earlier loads to have read the last
  one.
- In `Generations`, a run has fewer than 2^64 steps.
- A content topic has one partition. Content is published to partition 0 alone, and consumed from
  whatever partitions the broker gave the topic when it was created on first use.
- In `AtLeastOnce`, a partition is assigned to one consumer of a group at a time.

## Model

| member | source | states |
|---|---|---|
| `Convergence.ReplayIsIdempotent` | examples/kafka-websubhub/consolidator/consolidator.go:244-318 | Replaying any sequence of events over its own result changes nothing, from whatever projection it started |
| `Convergence.PrefixAbsorbed` | examples/kafka-websubhub/consolidator/consolidator.go:146-164 | A full replay absorbs whatever an interrupted replay of the same log did before |
| `Convergence.RetainedSuffix` | examples/kafka-websubhub/consolidator/broker.go:155-174 | fold(L[j..], fold(L[..k])) = fold(L) for all j <= k |
| `Convergence.ReplayReachesExactly` | examples/kafka-websubhub/consolidator/broker.go:155-164 | Retained start j, snapshot position k and captured end e give the state after e events, for every log, if and only if j <= k <= e |
| `Convergence.RecoveryConverges` | examples/kafka-websubhub/consolidator/consolidator.go:72-132 | After any number of earlier lives, each stopped anywhere, a restart that replays the retained log over the newest snapshot ends in the fold of the whole log, as long as retention left no gap |
| `Convergence.FullLogRecovery` | examples/kafka-websubhub/consolidator/consolidator.go:72-110 | The same with the log retained from offset 0, with no further condition |
| `Convergence.MidReplayMatchesNoPrefix` | examples/kafka-websubhub/consolidator/consolidator.go:146-164 | A snapshot published in mid-replay that is the state of no prefix of the log |
| `Convergence.StepAtKey` | examples/kafka-websubhub/consolidator/consolidator.go:270-318 | Each key evolves by the events about it alone: reset, first subscription wins, recovery keeps the old identity, a stale must match server and lease start |
| `History.SubscriptionHistory` | examples/kafka-websubhub/consolidator/consolidator.go:254-318 | A subscription exists if and only if an accepted subscribe follows the last reset of its key; identity and server are those of the first such subscribe; it is stale if and only if the last of {subscribe, matching stale} since was a stale |
| `History.EveryEntryIsTold` | examples/kafka-websubhub/consolidator/consolidator.go:270-307 | Every stored subscription is explained by one position of the log |
| `History.TopicHistory` | examples/kafka-websubhub/consolidator/consolidator.go:243-268 | A topic's value is its last accepted register or deregister |
| `State.DecodeEncode` | examples/kafka-websubhub/internal/state/state.go:88-136 | The dispatch on status and mode recovers every accepted event from its flat record |
| `State.DecodedFields` | examples/kafka-websubhub/internal/state/state.go:88-136 | Which mode and status the dispatch takes for which event, and that every member of the record arrives under its own name |
| `State.FoldWellFormed` | examples/kafka-websubhub/consolidator/consolidator.go:243-318 | Every reachable projection files values under their own keys and holds only values the Apply functions accepted |
| `Snapshots.LoadRebuilds` | examples/kafka-websubhub/consolidator/consolidator.go:112-132 | Loading a snapshot of a reachable state into an empty projection succeeds and rebuilds that state, stale entries included, whatever the order of its lists |
| `Snapshots.CanonicalUnique` | examples/kafka-websubhub/consolidator/consolidator.go:175-194 | One state and revision have one sorted, duplicate-free snapshot, whatever order the maps were walked in |
| `Snapshots.CanonicalExists` | examples/kafka-websubhub/consolidator/consolidator.go:175-194 | Every reachable state has one |
| `Snapshots.CanonicalOrder` | examples/kafka-websubhub/consolidator/consolidator.go:183-192 | Topics are listed by name, subscriptions by topic and then callback, ascending |
| `Ordering.SortSliceSorts` | examples/kafka-websubhub/consolidator/consolidator.go:183-192 | Sorting elements with distinct keys gives a strictly sorted permutation |
| `Ordering.SortedUnique` | examples/kafka-websubhub/consolidator/consolidator.go:183-192 | There is one strictly sorted sequence of given elements |
| `Ordering.StringLessExactly` | examples/kafka-websubhub/consolidator/consolidator.go:183-192 | The order on names is the lexicographic one: a proper prefix, or smaller where they first differ |
| `Consolidation.KeyInjective` | examples/kafka-websubhub/consolidator/consolidator.go:320-322 | Equal keys come from equal topics and callbacks, for topics without NUL |
| `Consolidation.KeyInjectiveExactly` | examples/kafka-websubhub/consolidator/consolidator.go:320-322 | A topic shares no key with another NUL-free topic or callback if and only if it has no NUL itself |
| `Consolidation.NulTopicsCollide` | examples/kafka-websubhub/consolidator/consolidator.go:277-290 | Two subscriptions that share a key when a topic contains NUL, so that the second is lost |
| `Consolidation.FlatStepRefines` | examples/kafka-websubhub/consolidator/consolidator.go:243-318 | The flat map under joined keys makes exactly the projection's step on every registration and deregistration, and on every other event with a NUL-free topic |
| `Consolidation.FlatFoldRefines` | examples/kafka-websubhub/consolidator/consolidator.go:243-318 | The same over whole logs |
| `Consolidation.Consolidator.ApplyTopicRegistration` | examples/kafka-websubhub/consolidator/consolidator.go:243-252 | Accepts exactly valid registrations and makes their step on the maps |
| `Consolidation.Consolidator.ApplyTopicDeregistration` | examples/kafka-websubhub/consolidator/consolidator.go:254-268 | The delete loop removes the topic's subscriptions and no other, in any iteration order |
| `Consolidation.Consolidator.ApplySubscription` | examples/kafka-websubhub/consolidator/consolidator.go:270-291 | First subscription wins; a stale one is revived under its old identity |
| `Consolidation.Consolidator.ApplyStaleSubscription` | examples/kafka-websubhub/consolidator/consolidator.go:293-307 | Marks only an entry of the same server and lease start |
| `Consolidation.Consolidator.ApplyUnsubscription` | examples/kafka-websubhub/consolidator/consolidator.go:309-318 | Removes exactly the entry of its topic and callback |
| `Consolidation.Consolidator.ApplyEvent` | examples/kafka-websubhub/internal/state/state.go:88-136 | Dispatches a record; a record that does not decode or is not accepted changes nothing |
| `Consolidation.Consolidator.Restore` | examples/kafka-websubhub/consolidator/consolidator.go:112-132 | Succeeds exactly when every entry is accepted, and then applies the snapshot as a sequence of events |
| `Consolidation.Consolidator.SnapshotLocked` | examples/kafka-websubhub/consolidator/consolidator.go:175-194 | Yields the canonical snapshot of the maps under the current revision |
| `Consolidation.Consolidator.ConsumeEvent` | examples/kafka-websubhub/consolidator/consolidator.go:146-164 | Applies, increments the 64-bit revision and publishes the canonical snapshot, or rejects and changes nothing; "exhausted" is reported on rejected events alone |
| `Consolidation.Consolidator.Replay` | examples/kafka-websubhub/consolidator/consolidator.go:103-107 | Succeeds exactly when every record applies and every snapshot is acknowledged; then the maps are the fold |
| `Consolidation.Start` | examples/kafka-websubhub/consolidator/consolidator.go:72-110 | New: the maps are the fold of the snapshot's events and then the retained ones |
| `Consolidation.RestartReachesLog` | examples/kafka-websubhub/consolidator/consolidator.go:72-132 | The flat maps of a process started on any snapshot its predecessors left and the retained log stand for the fold of the whole log |
| `Nested.StepRefines` | examples/kafka-websubhub/websubhub/hub.go:348-453 | The nested maps, inner maps dropped when empty, make exactly the projection's step |
| `HubProjection.Hub.ApplyTopicDeregistration` | examples/kafka-websubhub/websubhub/hub.go:359-375 | Removes the topic with its inner map, and cancels exactly the workers of the removed entries |
| `HubProjection.Hub.ApplySubscription` | examples/kafka-websubhub/websubhub/hub.go:377-413 | Only a new object gets a worker, and only if this server owns it and replay is over; recovery keeps the old identity and so the consumer group |
| `HubProjection.Hub.ApplyStaleSubscription` | examples/kafka-websubhub/websubhub/hub.go:415-434 | A matching entry turns stale and loses its worker; nothing happens to the others |
| `HubProjection.Hub.ApplyUnsubscription` | examples/kafka-websubhub/websubhub/hub.go:436-453 | Removes one entry, cancels its worker and no other |
| `HubProjection.Hub.StartWorker` | examples/kafka-websubhub/websubhub/hub.go:471-483 | A worker starts only for the current object, owned, not stale, without one, and before shutdown |
| `HubProjection.Hub.ApplyEvent` | examples/kafka-websubhub/websubhub/hub.go:348-453 | Accepts exactly the accepted events, and the pointer maps then stand for the projection's step |
| `HubProjection.Hub.ApplySnapshot` | examples/kafka-websubhub/websubhub/hub.go:212-232 | Loads a snapshot as the same events in the same order as the consolidator's restore |
| `Publishing.NothingMissing` | examples/kafka-websubhub/consolidator/consolidator.go:244-316 | An accepted event lacks none of the fields that say what it is about, and a subscription has a lease the applications take |
| `Publishing.GrantedIsAccepted` | examples/kafka-websubhub/websubhub/hub.go:377-382 | Every lease the handler grants is accepted by the consumers |
| `Publishing.VerifiedSubscriptionArrives` | examples/kafka-websubhub/websubhub/hub.go:274-326 | What the handler hands over is never rejected for its lease, and is published if and only if its validation would pass; every consumer in that state accepts the event and has the subscription active, a stale one under its old identity and owner |
| `Publishing.ReportsArrive` | examples/kafka-websubhub/websubhub/hub.go:500-508 | The stale report and the unsubscription of a stored subscription are accepted, and mark or remove exactly that |
| `Publishing.TopicEventsArrive` | examples/kafka-websubhub/websubhub/hub.go:234-258 | A registration or deregistration is published if and only if it changes which topics are registered, and is accepted |
| `Refinement.LockstepOne` | examples/kafka-websubhub/internal/state/state.go:88-136 | On any record, hub and consolidator accept or reject alike, and each makes its own form of the same step |
| `Refinement.FlatRecordsRefine` | examples/kafka-websubhub/consolidator/consolidator.go:243-322 | Over every sequence of records with NUL-free topics the consolidator's flat map stands for the projection |
| `Refinement.Lockstep` | examples/kafka-websubhub/websubhub/hub.go:348-453 | From one abstract state on, over every sequence of records with NUL-free topics, both accept the same records and keep the same abstract state |
| `Refinement.LoadBoth` | examples/kafka-websubhub/websubhub/hub.go:212-232 | Both load any snapshot with NUL-free topics to the same state, or neither loads it |
| `Revisions.LoadReturnsLast` | examples/kafka-websubhub/consolidator/broker.go:125-134 | With increasing revisions the load returns the snapshot published last, under any interleaving of partitions, repetition or removal of older ones |
| `Revisions.NewestIsFirst` | examples/kafka-websubhub/consolidator/broker.go:127-136 | Of several snapshots with the greatest revision, the load keeps the one it read first |
| `Revisions.LoadFindsLastExactly` | examples/kafka-websubhub/consolidator/broker.go:125-134 | A load returns the snapshot published last if and only if it read it |
| `Revisions.NextExceedsExactly` | examples/kafka-websubhub/consolidator/consolidator.go:82-106 | The revision a process goes on with exceeds all published ones if and only if its load read the last |
| `Revisions.EmptyPollDecides` | examples/kafka-websubhub/consolidator/broker.go:96-123 | The load returns the last snapshot if and only if a poll before the first empty one brought it |
| `Revisions.SnapshotIsMissed` | examples/kafka-websubhub/consolidator/broker.go:98-107 | A load whose first poll is empty returns no snapshot, although the next would have brought the one published |
| `Revisions.NextIsNewestExactly` | examples/kafka-websubhub/consolidator/consolidator.go:146-164 | The next snapshot is the one a load returns if and only if the revision before it was below 2^64-1 |
| `Revisions.WrappedIsNotLoaded` | examples/kafka-websubhub/consolidator/consolidator.go:154 | After revision 2^64-1 the next one is 0, and a load returns the old snapshot |
| `Revisions.LoadSnapshot` | examples/kafka-websubhub/consolidator/broker.go:85-123 | Ends at the first empty poll with the newest of what was received before, fails on a failed poll or an unreadable record, and waits while polls bring records |
| `Bootstrap.HubFollowsLog` | examples/kafka-websubhub/websubhub/hub.go:148-171 | In every run, when a hub's replay ends it stands at the captured end with the fold of the log up to there; after every tailed event its projection is the fold up to its position |
| `Bootstrap.ConsolidatorFollowsLog` | examples/kafka-websubhub/consolidator/consolidator.go:72-144 | In every run of crashes and restarts, whichever published snapshots a load has read, a serving consolidator holds the fold up to its position, which no predecessor exceeded |
| `Bootstrap.LoadsTheLastPublished` | examples/kafka-websubhub/consolidator/consolidator.go:146-164 | As long as every load has read the last published snapshot, revisions strictly increase across events and restarts; the next load returns that snapshot, and rebuilds its state, if and only if it reads it too |
| `StuckReplay.StuckExactly` | examples/kafka-websubhub/consolidator/broker.go:155-164 | A consolidator begins a replay it cannot finish if and only if retention has removed the whole of a non-empty log |
| `StuckReplay.StuckForGood` | examples/kafka-websubhub/consolidator/broker.go:195-219 | Such a replay never ends and its process never serves, whatever is appended later, until it is stopped |
| `StuckReplay.TrimmedLogIsStuck` | examples/kafka-websubhub/consolidator/broker.go:155-164 | Such a state is reachable: one event, consolidated and then trimmed, and a restart |
| `StuckReplay.HubStuckExactly` | examples/kafka-websubhub/websubhub/broker.go:157-167 | A hub begins a replay it cannot finish if and only if retention has removed the whole of a non-empty log, whatever its snapshot held |
| `StuckReplay.HubStuckForGood` | examples/kafka-websubhub/websubhub/broker.go:199-220 | Such a hub never goes live, whatever is appended later, until it is stopped |
| `StuckReplay.TrimmedLogStopsHub` | examples/kafka-websubhub/websubhub/broker.go:157-167 | Such a state is reachable, with a hub that already holds the state of the whole log |
| `StuckReplay.ReplayEnds` | examples/kafka-websubhub/consolidator/broker.go:155-219 | From any moment of a replay that is not stuck, the consolidator serves after reading each event below the captured end once |
| `StuckReplay.HubReplayEnds` | examples/kafka-websubhub/websubhub/broker.go:157-222 | The same for a hub going live |
| `StuckReplay.StartFinishesExactly` | examples/kafka-websubhub/consolidator/broker.go:155-164 | A consolidator that has restored its state gets to serve, without a crash, if and only if the log is empty from the start or some record of it is retained |
| `StuckReplay.HubStartFinishesExactly` | examples/kafka-websubhub/websubhub/broker.go:157-167 | A hub that has fetched its snapshot gets to go live in exactly the same cases |
| `StuckReplay.HubCatchesUp` | examples/kafka-websubhub/websubhub/hub.go:192-198 | A live hub reaches the fold of the whole log by its own steps |
| `StuckReplay.ConsolidatorCatchesUp` | examples/kafka-websubhub/consolidator/consolidator.go:134-164 | So does a serving consolidator, as long as revisions are left |
| `StuckReplay.HubRecovers` | examples/kafka-websubhub/websubhub/hub.go:148-178 | Whatever a hub was doing, it can crash, fetch, replay and go live again, as long as some record of the log is retained or there is none |
| `StuckReplay.ConsolidatorRecovers` | examples/kafka-websubhub/consolidator/consolidator.go:72-110 | Whatever a consolidator was doing, it can crash, load the snapshot published last, replay and serve again, as long as the log is retained from there |
| `Bootstrap.CoversAgain` | examples/kafka-websubhub/consolidator/consolidator.go:102-110 | What a consumer holds in the middle of its replay is itself a good base for any restart that begins no earlier than it did |
| `EventCursor.AfterIsExact` | examples/kafka-websubhub/consolidator/broker.go:195-219 | Record by record, the handler gets the log from the old cursor to the replay end, each record once and in order; a refused record is the last one given, and the cursor makes the next consumer begin with it |
| `EventCursor.ReplayFinishesExactly` | examples/kafka-websubhub/consolidator/broker.go:155-164 | A replay that has seen all records up to its end finishes if and only if one of them was retained or the cursor was beyond the end before |
| `EventCursor.CutsAreDelivered` | examples/kafka-websubhub/websubhub/broker.go:174-196 | Any way of cutting the retained log into polls, with failures anywhere, is one the consumer takes |
| `EventCursor.KafkaBroker.Consume` | examples/kafka-websubhub/websubhub/broker.go:174-222 | Over any split into polls, handler calls and cursor are those of the record-by-record reading; each way of ending is told apart, and a failed fetch loses nothing of the polls before it |
| `EventCursor.KafkaBroker.ReplayEvents` | examples/kafka-websubhub/websubhub/broker.go:157-167 | Succeeds without a handler call when the cursor is at the captured end already; otherwise as Consume, up to that end |
| `EventCursor.KafkaBroker.ReplayThenTail` | examples/kafka-websubhub/websubhub/broker.go:157-222 | Replay and tailing together give the handler the retained log once and in order, including fetches that overrun the replay end; with no failure, the cursor has then passed every polled record, or those below the replay end while the replay is not over |
| `Workers.AtMostOneWorker` | examples/kafka-websubhub/websubhub/hub.go:377-508 | Under every interleaving, an object gets at most one worker, of its owner, and a worker whose entry was removed or went stale has ended, is cancelled or is about to be |
| `Workers.ExactlyOwnedEntriesServed` | examples/kafka-websubhub/websubhub/hub.go:455-508 | With the scan over and no apply in flight, cancel is set on exactly the owned entries that are not stale; each was given its one worker, which runs unless it has returned by itself; no other worker runs |
| `Workers.UnservedUntilSettled` | examples/kafka-websubhub/websubhub/hub.go:485-507 | An entry whose worker has returned stays without one, and in place, if and only if no stale event of its lease and no reset of its key is applied |
| `Workers.AllReportedAllServed` | examples/kafka-websubhub/websubhub/hub.go:485-507 | Once the events of all returned workers have been applied too, a worker runs on exactly the owned entries that are not stale |
| `Workers.ProjectionUnaffected` | examples/kafka-websubhub/websubhub/hub.go:165-171 | Whatever scan and worker starts do in between, the projection is the fold of the events applied |
| `WorkerProgress.ComesToRest` | examples/kafka-websubhub/websubhub/hub.go:455-483 | From any moment the two threads come to rest by their own steps, with the same entries, and exactly the owned ones are then served |
| `WorkerProgress.EndsAnyTime` | examples/kafka-websubhub/websubhub/hub.go:485-507 | A running worker can return by itself at any time, and the hub be shut down at any time |
| `WorkerProgress.NoStartAfterShutdown` | examples/kafka-websubhub/websubhub/hub.go:471-476 | Once the hub is shut down no worker starts, neither from the scan nor for an event |
| `Groups.GroupIdentifiesLease` | examples/kafka-websubhub/websubhub/hub.go:607-615 | Two subscriptions share a consumer group if and only if topic, callback and lease start agree |
| `ContentDelivery.DeliverContent` | examples/kafka-websubhub/websubhub/hub.go:572-601 | Succeeds if and only if some attempt is accepted after refused and waited-out ones; says how many attempts were made and why it stopped otherwise |
| `ContentDelivery.DeliverBatch` | examples/kafka-websubhub/websubhub/hub.go:559-570 | Delivers in order as far as the first message that cannot be delivered |
| `ContentDelivery.AttemptsCover` | examples/kafka-websubhub/websubhub/hub.go:106-108 | The normalised number of attempts is one that delivery can work with, whatever was configured |
| `ContentDelivery.PollsExtend` | examples/kafka-websubhub/websubhub/broker.go:278-294 | Every way of cutting the content into batches of at most five, with failures anywhere, is a sequence of polls the consumer takes |
| `ContentDelivery.FiveIsABatch` | examples/kafka-websubhub/websubhub/broker.go:278 | Any next records of the content, up to five, are such a batch, whatever answers they meet |
| `ContentDelivery.ConsumerGroup.ConsumeSubscription` | examples/kafka-websubhub/websubhub/broker.go:261-306 | Delivers without a gap and in order, each message accepted by the subscriber; commits only batches all of whose messages were accepted, and each of them before it polls again; stops on the first poll that fails, brings a message that is not accepted or is not cleanly committed, and on no other; leaves at most one batch of five delivered but uncommitted |
| `AtLeastOnce.CommittedWasDelivered` | examples/kafka-websubhub/websubhub/broker.go:261-306 | In every run, all from where a group last had to start at the end of the log up to its commit was delivered before, and no record before its predecessors |
| `AtLeastOnce.CommitHasCause` | examples/kafka-websubhub/websubhub/broker.go:289-301 | Every commit, also one that a worker has since jumped past, was made by a worker of the group after all from the origin of that time up to it was delivered |
| `AtLeastOnce.NothingSkipped` | examples/kafka-websubhub/websubhub/broker.go:261-306 | From a committed offset on, as long as trimming does not overtake the commits, everything up to any later commit or worker position has been delivered |
| `AtLeastOnce.WorkerCatchesUp` | examples/kafka-websubhub/websubhub/broker.go:278-305 | A worker in range gets through the whole log by its own steps; then all from its group's origin on is delivered, and committed |
| `AtLeastOnce.RecoveryKeepsGroup` | examples/kafka-websubhub/websubhub/hub.go:377-434 | Stale marking and recovery never change the group of a subscription that is not reset |
| `AtLeastOnce.RecoveryResumes` | examples/kafka-websubhub/websubhub/hub.go:485-507 | Across crashes, stale marking and recovery, the next worker starts at the group's last commit if and only if trimming has left that in range, and then with nothing skipped |
| `AtLeastOnce.RestartLosesExactly` | examples/kafka-websubhub/websubhub/broker.go:262-270 | Of what a worker had still to read or deliver, its successor loses a record for good if and only if the group has no commit in range and something in the log was not delivered |
| `AtLeastOnce.OvertakenLosesExactly` | examples/kafka-websubhub/websubhub/broker.go:267 | A running worker whose position is trimmed away loses a record if and only if something in the log was not delivered |
| `AtLeastOnce.SkippedForGood` | examples/kafka-websubhub/websubhub/broker.go:262-270 | Records behind the position a jump to the end chose are never delivered to the group unless they were before |
| `AtLeastOnce.FirstRecordLost` | examples/kafka-websubhub/websubhub/broker.go:262-270 | A concrete run in which the first record is lost that way |
| `AtLeastOnce.TrimmedRecordLost` | examples/kafka-websubhub/websubhub/broker.go:267 | A concrete run in which a record is trimmed away before its running worker has read it |
| `VerificationQueue.WaitGroupCounts` | handler.go:702-785 | In every run the WaitGroup counts the jobs between Add and Done, is never negative, and gets no Add once waiting has begun |
| `VerificationQueue.EveryJobEndsOnce` | handler.go:702-785 | An accepted job is in flight once or has ended, never both; once closed it has ended; an ending is never rewritten |
| `VerificationQueue.ClosedMeansDone` | handler.go:754-768 | closeDone implies an empty queue, a zero count, all workers exited and all accepted jobs ended |
| `VerificationQueue.GracefulCloseRunsEverything` | handler.go:754-785 | As long as no Close deadline expired, every ended job was run, none abandoned or drained |
| `VerificationQueue.DrainedForGood` | handler.go:770-785 | After one deadline drain has returned, the queue stays empty |
| `VerificationQueue.MeasureDecreases` | handler.go:702-785 | Every step but a new request and a new Close decreases a natural number |
| `VerificationQueue.AlwaysAStep` | handler.go:718-785 | Once closed, and until closeDone, some step of the handler's own is enabled |
| `VerificationQueue.ShutdownIsBounded` | handler.go:754-785 | With no further call of Close, a shutdown has no more steps than its measure |
| `VerificationQueue.ShutdownCompletes` | handler.go:754-785 | A shutdown in which no step of the handler's own is left has reached closeDone |
| `VerificationQueue.CallIsJustified` | handler.go:242-326 | A verified callback is called only for an accepted job with its gate open, a passed validation, a mark or an echoed challenge, and never twice |
| `VerificationQueue.CallComesLast` | handler.go:242-326 | Before every verified callback, in this order: its job's 202, its gate, its passed validation; and either the application vouched for it at admission, or after the validation a challenge was drawn for this job and answered by a 2xx with it as the whole body |
| `VerificationQueue.HowFactsArise` | handler.go:731-749 | Gates open only after a response; validation, mark and echo are recorded only by the steps that establish them, an echo only by a 2xx whose whole body is that job's challenge |
| `VerificationQueue.CalledAtMostOnce` | handler.go:718-749 | At most one verified callback per job, none after a failed validation, none for an abandoned or drained job |
| `VerifiedCallbacks.ProvedJobsAreCalled` | subscription.go:28-111 | In every run, a job that was run to its end got its one verified callback if and only if its validation passed and intent was proved |
| `VerifiedCallbacks.NotCalledExactly` | subscription.go:28-111 | Such a job was not called if and only if at one position of the run its validation failed, no challenge was drawn, or the answer was no 2xx with the whole bounded challenge as body |
| `VerifiedCallbacks.FailureStays` | subscription.go:30-35 | A failed validation is on record for the rest of the run |
| `VerifiedCallbacks.AnyJobCanBeServed` | handler.go:702-752 | An open handler with a worker at rest can take a request on and carry it through to its verified callback, vouched for or echoed, and is then ready again |
| `VerifiedCallbacks.QueueIsBounded` | handler.go:702-716 | The channel never holds more than its capacity |
| `VerifiedCallbacks.RefusedWhenFull` | handler.go:702-716 | A request is refused only when the channel is full |
| `VerifiedCallbacks.CallsProceed` | handler.go:702-785 | A counted request is at once sent or refused, after which Close can be called, and a waiting Close can run into its deadline, which cancels the root context |
| `VerifiedCallbacks.CloseAnswersTruly` | handler.go:770-785 | Close returns without an error only when everything is done; with a deadline error the queue is empty, and from then on no worker has to wait |
| `Verification.ChallengeMustBeEchoed` | subscription.go:140-180 | A callback answer proves intent if and only if it is a 2xx whose whole, bounded body is the challenge |
| `Verification.Controller.MarkVerified` | service.go:258-272 | Of any number of calls at most the first succeeds, and none unless external verification is enabled |
| `Verification.Run` | subscription.go:28-123 | Everything one job sends, in order: a failed validation is reported and leads to nothing else, a denial always and any other failure if configured; otherwise the verified callback runs exactly when intent is proven, and the announced lease is the granted one |
| `Lease.NormalizeConfig` | handler.go:103-148 | Accepts exactly the sensible configurations, fills in defaults only, and leaves a normal configuration alone |
| `Lease.ParseLease` | handler.go:592-602 | Accepts an absent value or one positive decimal number of seconds that fits a Go duration |
| `Lease.EffectiveLease` | subscription.go:37-45 | The printed lease parses back to min(requested or default, max) in whole seconds, with no overflow on the way |
| `Lease.GrantLease` | examples/in-memory-websubhub/hub.go:203-222 | From any configuration and form value to the application: the lease guard never rejects what the handler hands over, 1 <= n <= max, and the expiry does not overflow |
| `Int64.ParseFormat` | subscription.go:44 | What FormatInt prints, ParseInt reads back, on every 64-bit integer |
| `Int64.ParseReads` | subscription.go:37-39 | Digits with or without a sign are read as their value, if that fits 64 bits |
| `Int64.ParseRejects` | handler.go:596-600 | Without a digit, or with anything else among the digits, nothing is read |
| `Int64.DigitAppended` | subscription.go:44 | Decimal notation: a digit more is ten times the value, and the digit |
| `Int64.DigitsExactly` | subscription.go:44 | The digits are the ten characters 0 to 9, and no other |
| `UrlNormalization.DecodeURLUnreserved` | helpers.go:98-129 | The chunk-copying loop computes the byte-by-byte normal form of every input |
| `UrlNormalization.HexDigit` | helpers.go:131-142 | The two digits written 0-9, a-f and A-F for each number, and no other byte, have that value |
| `UrlNormalization.UnreservedExactly` | helpers.go:144-149 | The letters, digits and `-._~`, and no other byte, are unreserved (RFC 3986, section 2.3) |
| `UrlCanonical.EscapeNormalizes` | helpers.go:98-149 | The escape of an unreserved byte, in either case of its digits, becomes that byte, and any other escape is kept, wherever it stands |
| `UrlCanonical.MeaningPreserved` | helpers.go:98-149 | Percent-decoding before and after normalization agree if and only if no stray percent sign masks an escape; always on well-formed input |
| `UrlCanonical.NothingLeftEncoded` | helpers.go:98-149 | The result still contains an encoded unreserved byte if and only if a stray percent sign masks an escape of one; never on well-formed input |
| `UrlCanonical.Idempotent` | helpers.go:98-149 | A second normalization changes nothing if and only if no stray percent sign masks an escape of an unreserved byte |
| `UrlCanonical.MalformedIsNotIdempotent` | helpers.go:98-129 | `%%341` becomes `%41` and then `A` |
| `UrlCanonical.SameNormalForm` | helpers.go:98-149 | Well-formed inputs get equal results if and only if they differ only in how unreserved bytes are written |
| `Generations.VersionsUnique` | examples/in-memory-websubhub/hub.go:202-226 | In every interleaving versions are unique and at most nextVersion, and subscribed topics are registered |
| `Generations.EntryHistory` | examples/in-memory-websubhub/hub.go:161-250 | In every run a subscription is stored, under the version and expiry of its request, if and only if a verified request made it for a topic then registered and nothing has ended it since: no renewal, unsubscription, deregistration, expiry found by a dispatch, or 410 of its own delivery |
| `Generations.TopicHistory` | examples/in-memory-websubhub/hub.go:150-171 | A topic is registered if and only if it was and has not been deregistered since |
| `Generations.JobHistory` | examples/in-memory-websubhub/hub.go:252-292 | A delivery is made for exactly the subscriptions of the topic that are stored and not expired at the dispatch |
| `Generations.GoneRemovesExactly` | examples/in-memory-websubhub/hub.go:349-359 | A 410 removes something if and only if what its job was made for is still stored, unchanged, and then only that |
| `Generations.RenewalSurvives` | examples/in-memory-websubhub/hub.go:272-292 | The 410 of a job dispatched before a renewal changes nothing, however late it arrives |
| `MemoryHub.Hub.OnRegisterTopic` | examples/in-memory-websubhub/hub.go:150-159 | Denies a registered topic and otherwise registers it |
| `MemoryHub.Hub.OnDeregisterTopic` | examples/in-memory-websubhub/hub.go:161-171 | Removes the topic with all its subscriptions, and no other |
| `MemoryHub.Hub.OnSubscriptionValidation` | examples/in-memory-websubhub/hub.go:193-200 | Passes exactly when the verified request, were it to follow at once, would change the hub, whoever subscribes |
| `MemoryHub.Hub.OnSubscriptionVerified` | examples/in-memory-websubhub/hub.go:202-226 | Rejects a bad lease or an unregistered topic without a change; otherwise stores the renewal under the next version |
| `MemoryHub.Hub.OnUnsubscriptionVerified` | examples/in-memory-websubhub/hub.go:240-250 | Removes exactly one entry, and no inner map stays empty |
| `MemoryHub.Hub.OnUnsubscriptionValidation` | examples/in-memory-websubhub/hub.go:228-238 | Passes exactly for a stored subscription of a registered topic |
| `MemoryHub.Hub.ActiveSubscriptions` | examples/in-memory-websubhub/hub.go:331-347 | Returns each unexpired subscription of the topic once, deletes the expired ones and nothing else, in any iteration order |
| `MemoryHub.Hub.RemoveSubscription` | examples/in-memory-websubhub/hub.go:349-359 | Removes the entry only if its version matches |
| `MemoryHub.Hub.HasSubscription` | examples/in-memory-websubhub/hub.go:368-373 | True exactly for a stored, unexpired subscription |

## Left out

- HTTP transport, headers, media types, form parsing, `url.Parse`, redirects, response writing: a callback answer is a status and a body, and a form value a list of strings.
- JSON: a record is a tuple of fields or malformed; `Int64.Parse` merges the syntax and range errors, which no caller tells apart.
- The Kafka client: the log is a sequence, fetches are arbitrary splits of it, commits are an offset.
- Challenge generation, HMAC signatures and hashing: the challenge is a fresh non-empty text.
- `sort.Slice`: modelled as a function on sequences rather than in place on a slice.
- `safeReason`: the reason of a denial is taken as already sanitised.
- The admission callbacks of the handler before `admit`, `validateAdmissionResult` and the redirect answers: easy branches that decide whether a job is admitted at all.
- Scheduling fairness and wall-clock time: progress of a shutdown is proved as enabledness plus a decreasing measure.
- The hub's in-process update queue and delivery channel in the in-memory hub, with their Close: only the jobs that leave them matter to the subscriptions.
- The publish callbacks of the Kafka hub decide on one state in `Publishing`; their checks race with the event thread and guarantee nothing about the log, so orphan subscriptions are allowed everywhere.
- `HubProjection.Hub.ApplyEvent`: one thread, before shutdown; the interleaving with the startup scan, and shutdown, are in `Workers`, on values.
- `MemoryHub.Hub.ActiveSubscriptions`: the inner map is a value written back at the end, where the source deletes from a shared map; the lock makes the two indistinguishable.
- `AtLeastOnce.NothingSkipped`: the committed offset of a group never expires on the broker.
- delivery.go, publisher.go, discovery.go, errors.go, configuration loading, metrics and logging: thin clients and plumbing.
