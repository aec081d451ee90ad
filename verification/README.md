# Coordination service: a verified model

This project models an in-process coordination service and proves what it keeps.
The service has a multi-version key-value store with a bounded change log, a fair
lock manager that records every transition in that store, leases, leader election,
watches over the store's change streams, and client sessions that resume their
watches after a disconnect. `dafny verify dfyconfig.toml` checks the whole project.

## How it is organised

Each component comes as a specification on values (`*Spec.dfy`), the theorems about
every run of it, and a class whose methods update fields, arrays and maps the way
the service does. Every method of a class states its complete new state as one step
of the specification, so each theorem about runs is a theorem about the class.

| files | content |
|---|---|
| `Model`, `History` | keys, values, events and versions; the *history*, an unbounded sequence whose event number r has revision r, and the answers an ideal store would give from it |
| `StoreSpec`, `StoreInvariant`, `StoreTheorems`, `Store` | version lists, ring log, streams, pinned readers, reclaiming |
| `StoreEffects`, `LockEffects`, `WatchEffects`, `SessionEffects` | what each operation does, said of keys, revisions, holders, cursors and buffers themselves rather than through the specification's functions |
| `StoreGaps` | runs of the store that reach the losing side of its exact conditions |
| `RetainLoop` | the background reclaimer, which reads the head and reclaims in two separate steps |
| `Decimal`, `LockCodec` | decimal numbers as text; the encoding of a lock's recorded state |
| `LockSpec`, `LockInvariant`, `LockSteps`, `LockRecords`, `LockTheorems`, `LockManager` | the lock table, the FIFO queues, the table of waiting requests, the records kept in the store |
| `LeaseSpec`, `Lease` | leases, batch renewal, expiry scans |
| `Expiry` | leases and locks wired together, with the expiry callback as a step of its own |
| `Election` | one participant as a machine over its critical sections |
| `WatchSpec`, `WatchTheorems`, `Watcher` | watches, their delivery loop, exact delivery |
| `MovedWatch` | watches whose stream starts above the revision asked for: what they deliver and what they miss |
| `Transcript`, `Resume`, `SessionSpec`, `SessionTheorems`, `Session` | sessions, one watch followed across any number of disconnects and reconnects, and what is delivered more than once |
| `WatchGaps` | runs in which a client is sent an event twice, or never told of a delete |

Each mutex-protected section of the service is one step. Channels are bounded
sequences, time is an integer argument, and whatever order a map happens to be
visited in is an argument of the step. Names and payloads are sequences of
characters; the nil payload is a value of its own.

## What is found

The store's history is the yardstick. The ring log, the version lists after any
reclaiming, snapshots, pinned reads, `Get` and every stream agree with it in every
reachable state, and where the code gives less than its comments say, the exact
condition is proved:

* **A log start that means two things.** Evicting an event leaves `logStart` as an
  exclusive bound, reclaiming treats it as an inclusive one. A successful
  `OpenStream` replays everything above its start except in exactly two situations:
  the ring is full and the start is one below `logStart` (one event is missing), or
  the log is empty and the start is below the head (all of them are)
  (`OpenStreamExact`). So a stream whose start had to be moved up misses one event
  whenever the ring is full (`TruncatedOpen`). Snapshot and stream then still
  converge exactly when every key written in the gap is written again
  (`SnapshotPlusReplayConverges`). Both situations are reached from an empty store,
  and the stream then never shows the lost key (`FullRingMissesOne`,
  `EmptyLogReplaysNothing`).
* **A slow consumer is dropped, and only that.** A stream ends exactly when its
  consumer closes it or lets 512 events wait (`DroppedOnlyWhenFull`), and otherwise
  is sent the whole history above its start (`KeepingUpDeliversAll`).
* **Pinned reads are narrower than documented.** `GetAt` succeeds only for a key
  written at exactly the pinned revision (`GetAtExact`); a key written one revision
  earlier is refused (`PinnedReadRefusesOlderWrite`). What does succeed is
  repeatable until the reader is closed (`ReadsAreRepeatable`).
* **Reclaiming hides answers.** It drops the version just below an open reader's
  revision. `ReclaimHides` says exactly which answers disappear, and
  `ReadsNeverLie` that none is ever replaced by an older one;
  `ReclaimHidesPinnedAnswer` takes one away from a reader that is still open.
* **A watch's snapshot phase delivers nothing at or below the revision asked for**
  (`CursorsIncrease`), so nothing at all when the stream can start where it was
  asked to, since no entry lies above the stream's start (`EntriesAreOld`).
* **A watch whose stream starts higher than asked** is told of live keys by the
  snapshot, but of no delete. This happens from below the log, and when a write lands
  between reading the head and opening a live stream. `MovedWatchConverges` says
  exactly when its client ends up with the current value of a key, and
  `DeleteIsNeverReported` shows a client that does not.
* **Delivery over reconnects is at least once.** What was delivered and not
  acknowledged is delivered again, and nothing else is (`TranscriptIsExact`);
  `UnacknowledgedIsSentAgain` shows it happen. What was acknowledged before and what
  the current connection delivers make up the history without a gap or a repeat
  (`ResumeIsExact`, `SessionResumeIsExact`).
* **An ended lease frees no lock, unless it is back.** A lease is removed in one
  critical section and its callback runs in a later one, where releasing by lease
  does nothing for a lease that is gone (`EndedLeasesFreeNoLocks`,
  `ReleaseByLeaseExact`). An expiry scan owes no callback for what it removes, but
  makes one for an id that exists again. So without a release by its holder, a lock
  is released exactly when a callback naming its lease runs while that lease is in
  the table again (`LocksOutliveLeases`), and that does happen: in any state with an
  overdue lease (`RecreatedLeaseFreesLock`), and from an empty system
  (`LockLostToOldCallback`).
* **Two leadership leases** can be alive after a late notice of expiry, one that
  names the current leadership lease although that lease is alive again:
  `OnLeaseExpired` does not look. `LateNoticesDecide` says that nothing else can
  bring this about, and `TwoLeadershipLeases` shows a course of events that does.
* **A request that is passed over** because its lease is dead stays in the table of
  waiting requests and its channel is never closed (`WaiterConservation`).
* **A name with a NUL byte** does not survive the encoding of a lock's state
  (`RoundTrip`).
* **Batch renewal** has one exception to its independence promise: a lease with a
  time-to-live that is not positive and is named twice is removed by its second
  renewal (`BatchVerdict`, `SuccessesExact`, `BatchThenExpire`).
* **Terms never fall** exactly as long as every handoff names a term at least the
  current one (`TermMonotone`).
* **Reconnecting twice without a disconnect** leaves the first connection's watches
  running with nothing on record to cancel them by (`ReconnectRecords`).

## Model

| member | source | states |
|---|---|---|
| Store.Store.constructor | internal/store/store.go:47-58 | a new store is empty, with room for at least 16 events in its log |
| Store.Store.Put | internal/store/store.go:61-78 | a write takes the next revision in version list, ring and streams at once; a nil value changes nothing and is refused |
| Store.Store.Delete | internal/store/store.go:81-94 | a tombstone takes the next revision, also for a key that does not exist |
| Store.Store.Apply | internal/store/store.go:67-77 | one event moves the head by one and reaches the version list, the ring and every stream |
| Store.Store.AppendLog | internal/store/store.go:173-181 | the event overwrites the slot of its revision modulo the capacity and only a full ring moves its start |
| Store.Store.SendToStreams | internal/store/store.go:201-213 | every registered stream below the event gets it while fewer than 512 events wait for its consumer, and is dropped otherwise; none loses an earlier event |
| Store.Store.Get | internal/store/store.go:97-112 | the newest version unless it is a tombstone |
| Store.Store.PutLockState | internal/store/store.go:123-130 | a lock's state is an ordinary write under its reserved key |
| Store.Store.GetLockState | internal/store/store.go:133-153 | the decoded newest record of a lock with its revision; nothing when absent or malformed |
| Store.Store.DeleteLockState | internal/store/store.go:156-158 | a lock's record is removed by an ordinary tombstone |
| Store.Store.CurrentRev | internal/store/store.go:115-119 | the number of writes so far |
| Store.Store.LogEvents | internal/store/store.go:183-199 | the scan over the ring never leaves it and returns what the specification's scan returns |
| Store.Search | internal/store/snapshot.go:74-76 | binary search finds the number of versions at or below a revision |
| Store.TakeSnapshot | internal/store/snapshot.go:65-88 | every key with a version at or below the revision appears, with the last such version |
| Store.Store.Snapshot | internal/store/snapshot.go:59-73 | a revision above the head means the head |
| Store.Fill | internal/store/snapshot.go:36-44 | a replay is pushed whole and in order, or the opening fails, exactly when it exceeds the channel |
| Store.Store.OpenStream | internal/store/snapshot.go:25-46 | snapshot, start and replay are taken in one step; a revision above the head or a replay that does not fit registers nothing |
| Store.Store.OpenLiveStream | internal/store/snapshot.go:51-56 | a stream from the head, with nothing to replay |
| Store.Store.Receive | internal/store/snapshot.go:12-20 | the consumer takes the oldest event on the channel and nothing else changes |
| Store.Store.CloseStream | internal/store/snapshot.go:104-118 | closing unregisters the stream and leaves what it was sent |
| Store.Store.BeginRead | internal/store/mvcc.go:32-47 | a reader is pinned at any revision up to the head |
| Store.Store.GetAt | internal/store/mvcc.go:56-84 | the three outcomes of a pinned read, also on a closed reader |
| Store.Store.CloseReader | internal/store/mvcc.go:87-94 | the reader no longer holds versions back |
| Store.Store.MinActiveRev | internal/store/reclaim.go:46-54 | the smallest of the head and all pinned revisions |
| Store.Store.DropLog | internal/store/reclaim.go:11-18 | the log window shrinks from below by at most its size |
| Store.Compact | internal/store/reclaim.go:22-38 | in-place compaction: survivors are moved to the front of the same buffer, in order, with the last version always among them |
| Store.Store.CompactAll | internal/store/reclaim.go:19-43 | every version list is compacted and the count returned is the number of versions that are gone |
| Store.Store.Reclaim | internal/store/reclaim.go:8-44 | log window and version lists after a reclaim, and the exact number of versions removed |
| StoreInvariant.StepKeeps | internal/store/store.go:32-44 | every operation keeps the agreement of ring, version lists, readers and streams with the history |
| StoreInvariant.RunKeeps | internal/store/store.go:32-44 | every run from a good state keeps it too |
| StoreInvariant.AppendKeeps | internal/store/store.go:67-77 | one write keeps all four agreements with the longer history |
| StoreInvariant.ReclaimKeeps | internal/store/reclaim.go:8-44 | a reclaim keeps them with any readers and streams open |
| StoreInvariant.OpenStreamKeeps | internal/store/snapshot.go:25-46 | a stream just opened has been sent one piece of the history that reaches the head |
| StoreInvariant.LogEventsExact | internal/store/store.go:183-199 | the ring scan returns a contiguous suffix of the history, and from where |
| StoreInvariant.SearchFindsAnswer | internal/store/snapshot.go:74-80 | binary search over a kept version list gives the history's answer unless that answer is no longer kept |
| StoreInvariant.SnapshotEntry | internal/store/snapshot.go:65-88 | a snapshot shows a key exactly when its answer is still kept, and shows that answer |
| StoreInvariant.RetainedIsSuffix | internal/store/reclaim.go:21-38 | compaction keeps a suffix of a version list and never the empty one |
| StoreTheorems.RingRefinesHistory | internal/store/store.go:173-199 | in every reachable state the ring's slots are the last events of the history, the window ends at the head and fits the ring, and the log answers with a suffix of the history |
| StoreTheorems.OpenStreamExact | internal/store/snapshot.go:25-46 | when opening succeeds, and that the replay is everything above the start if and only if neither of two situations holds |
| StoreTheorems.TruncatedOpen | internal/store/snapshot.go:31-44 | a start that is moved up loses exactly one event when the ring is full and none otherwise |
| StoreTheorems.OpenGapFree | internal/store/snapshot.go:22-46 | opening at or above the log start leaves no gap |
| StoreTheorems.StreamStep | internal/store/store.go:201-213 | any step only appends the new event to what a stream was sent, or closes it |
| StoreTheorems.StreamRun | internal/store/store.go:201-213 | over any run a stream goes on being sent one contiguous piece of the history |
| StoreTheorems.StreamDeliversExactly | internal/store/snapshot.go:22-46 | from an empty store, through any run before and after the opening: no gap, no repeat, in order; a prefix if the stream was dropped |
| StoreTheorems.LiveStreamDeliversExactly | internal/store/snapshot.go:48-56 | the same for a live stream, from the head it was opened at |
| StoreEffects.PutIsRead | internal/store/store.go:61-112 | a put of a value adds exactly that event and is what is read from then on, with its revision; a nil value adds nothing; other keys read as before |
| StoreEffects.DeleteIsRead | internal/store/store.go:81-112 | a delete adds a tombstone, written or not, and the key reads as absent; other keys read as before |
| StoreEffects.DroppedOnlyWhenFull | internal/store/store.go:201-213 | a step ends an open stream if and only if its consumer closes it or a write finds 512 events it has not received |
| StoreEffects.OpenWhileKeepingUp | internal/store/store.go:201-213 | over any run an open stream stays open if and only if neither ever happens |
| StoreEffects.KeepingUpDeliversAll | internal/store/snapshot.go:22-46 | from an empty store, any run before and after: a stream is open in the end exactly when its consumer kept up, and has then been sent the whole history above its start |
| StoreEffects.LiveKeepingUpDeliversAll | internal/store/snapshot.go:48-56 | the same for a live stream |
| StoreEffects.StreamStartsAt | internal/store/snapshot.go:25-46 | a stream starts at the revision asked for, or one below the log start if the log no longer reaches down to it, under a new id; its snapshot shows exactly the answers still kept there; other streams are untouched |
| StoreEffects.ReceivesInOrder | internal/store/snapshot.go:12-20 | the consumer gets the events sent to it one by one in their order |
| StoreEffects.ClosedStreamIsSilent | internal/store/snapshot.go:104-118 | over any run after a close no event reaches the stream, and it never opens again |
| StoreEffects.BeginReadPins | internal/store/mvcc.go:32-47 | a transaction opens at any revision up to the head under a new number, and then finds exactly the keys last written at that revision and still kept |
| StoreEffects.ClosedReaderIsRefused | internal/store/mvcc.go:56-94 | a closed transaction is refused every key over any later run, and the others answer as before |
| StoreEffects.ReclaimLeaves | internal/store/reclaim.go:19-43 | a version is kept if and only if it is above the bound, at the head, not below some open reader, or the newest of its key |
| StoreEffects.ReclaimWindow | internal/store/reclaim.go:11-18 | the log start moves to just above the bound, never down and never past the head, and nothing but log window and version lists changes |
| StoreTheorems.FoldAt | internal/store/snapshot.go:22-24 | applying a piece of the history to a view gives each key its newest write in that piece |
| StoreTheorems.SnapshotAtHeadExact | internal/store/snapshot.go:58-88 | the snapshot at the head is exact whatever was reclaimed |
| StoreTheorems.SnapshotPlusReplayConverges | internal/store/snapshot.go:22-46 | snapshot plus stream equals the current snapshot if and only if every key written in the gap between them was written again |
| StoreTheorems.StreamsConverge | internal/store/snapshot.go:22-56 | both ways of opening converge over whole runs with any writes and reclaims |
| StoreTheorems.ReadsNeverLie | internal/store/snapshot.go:58-88 | a snapshot gives the history's answer or none, never an older one, and exactly when; `Get` is the latest write |
| StoreTheorems.GetIsLatest | internal/store/store.go:96-112 | reclaiming never affects `Get` |
| StoreTheorems.ReclaimHides | internal/store/reclaim.go:5-43 | which answers a reclaim hides: those at or below the bound that are below the head and every open reader and are not the newest |
| StoreTheorems.ReclaimsCompose | internal/store/reclaim.go:8-44 | reclaiming twice equals the later reclaim, for the whole store |
| StoreTheorems.ReclaimRecordsTwice | internal/store/reclaim.go:19-43 | the same for the version lists alone, with any readers open |
| StoreTheorems.GetAtExact | internal/store/mvcc.go:54-84 | a pinned read succeeds if and only if the key was written at the pinned revision and is still kept, and then returns the history's answer |
| StoreTheorems.ReaderStep | internal/store/mvcc.go:30-47 | no single step changes what an open reader is told about a key |
| StoreTheorems.ReadsAreRepeatable | internal/store/mvcc.go:30-94 | over any run until its reader is closed, a read that succeeded keeps its result and one that failed keeps failing |
| StoreTheorems.PinnedReadRefusesOlderWrite | internal/store/mvcc.go:54-79 | in any store, a key written just before another one is refused to a reader at the head although the history has an answer |
| StoreGaps.EmptyLogReplaysNothing | internal/store/store.go:183-186 | one write and one reclaim suffice: opening at revision 0 succeeds, replays nothing, and the stream never shows the key |
| StoreGaps.FullRingMissesOne | internal/store/store.go:173-182 | a ring filled once past its capacity: opening at revision 0 misses exactly the first event, and the stream never shows its key |
| StoreGaps.ReclaimHidesPinnedAnswer | internal/store/reclaim.go:28-31 | in any state without readers, an open reader's answer for a key written before and after its revision is taken away by a reclaim up to that revision |
| RetainLoop.WindowStep | cmd/coordination/main.go:76-79 | writes landing between the reclaimer's two steps do not shrink the log below its bound |
| RetainLoop.ResumableWindow | cmd/coordination/main.go:68-82 | while only the loop reclaims, every cursor within min(capacity, retain - 1, 512) of the head reopens without a gap |
| RetainLoop.OneRound | cmd/coordination/main.go:68-82 | with more than retain + 8 revisions one round reclaims up to retain below the head, which leaves retain - 1 events in the log, or fewer if it held fewer; otherwise nothing |
| Decimal.Itoa | internal/watch/watch.go:275-287 | the 20-byte buffer is filled from its end with the number's digits and never overruns |
| Decimal.TwentyDigits | internal/watch/watch.go:279 | twenty digits suffice for every 64-bit number |
| Decimal.DigitsInjective | internal/watch/watch.go:275-287 | different numbers have different digits |
| Decimal.AtoiOfDigits | internal/store/store.go:127-145 | parsing reads back what was written |
| Decimal.DigitAt | internal/watch/watch.go:275-287 | the i-th digit from the right is the one that counts the i-th power of ten |
| LockCodec.CutAt | internal/store/store.go:138 | splitting at the first separator undoes joining a part that has none |
| LockCodec.RecordParts | internal/store/store.go:123-145 | holder, lease and numeric state in this order, each up to the next separator |
| LockCodec.RoundTrip | internal/store/store.go:123-153 | decoding what was encoded gives the same record if and only if neither name contains NUL |
| LockManager.Manager.constructor | internal/lock/lock.go:51-58 | a new manager tracks nothing |
| LockManager.Manager.TryAcquire | internal/lock/lock.go:61-81 | the lock is taken and recorded as held, or nothing changes, as the specification says |
| LockManager.Manager.Enqueue | internal/lock/queue.go:17-38 | the next sequence number, at the end of the queue and in the table of waiters, for this lock, client and lease; nothing when the entry is gone |
| LockManager.Manager.Cancel | internal/lock/lock.go:149-169 | all and only this client's requests leave the queue, cancelled, with their channels closed |
| LockManager.DropClient | internal/lock/lock.go:156-168 | exactly the requests whose client it is leave the queue, and the others keep their order |
| LockManager.Manager.Release | internal/lock/lock.go:114-125 | only the holder can release; the two refusals change nothing |
| LockManager.Manager.ReleaseEntry | internal/lock/release.go:10-17 | the release is recorded before anyone is woken |
| LockManager.Manager.WakeNext | internal/lock/wakeup.go:11-33 | the loop ends with the first queued request whose lease is alive as holder, or with the entry gone |
| LockManager.NextWaiter | internal/lock/wakeup.go:12-19 | the one taken has no lease, has one found alive, or is not asked about; everyone before it has a lease that was looked up and not found; the rest of the queue is untouched |
| LockManager.EarliestWaiter | internal/lock/wakeup.go:37-53 | the waiting request with the smallest sequence number is taken out of any queue; requests that no longer wait are passed by and stay |
| LockManager.Earliest | internal/lock/wakeup.go:38-48 | the scan finds the smallest request that still waits, in a queue of any order, or finds that there is none |
| LockManager.Manager.HandOver | internal/lock/wakeup.go:20-26 | entry, record, request and channel of the new holder all change together |
| LockManager.Manager.FreeEntry | internal/lock/wakeup.go:28-32 | the entry disappears from the table and its record from the store |
| LockManager.Manager.Signal | internal/lock/wakeup.go:55-63 | a registered request is granted and its channel closed once |
| LockManager.Manager.ReleaseByLease | internal/lock/lock.go:129-146 | every lock held under the lease is released, in whatever order the table is visited; nothing for a dead lease |
| LockManager.Manager.CollectAffected | internal/lock/lock.go:135-140 | all locks held under the lease, each once |
| LockSteps.StepKeepsTable | internal/lock/lock.go:32-48 | every operation keeps: tracked locks are held, queues are ordered and all waiting, each request has one fate |
| LockSteps.RunKeepsTable | internal/lock/lock.go:32-48 | every run from a good state keeps it too |
| LockRecords.StepKeepsRecords | internal/lock/release.go:10-36 | every operation keeps the records in the store equal to the table |
| LockTheorems.ObservableMutualExclusion | internal/lock/release.go:10-36 | in the change log a lock's records always spell a prefix of (Held (Releasing Held)* Releasing Waiting Delete)*, and any two Held records have a release between them |
| LockTheorems.TableMatchesStore | internal/lock/release.go:19-36 | the store reports exactly the tracked locks, as held, with their holders and leases and the revision of the last write, through any other writes and reclaims |
| LockTheorems.NoBarging | internal/lock/lock.go:61-81 | a lock is taken without waiting if and only if it is not tracked, and then nobody is queued for it |
| LockTheorems.NoLostWakeup | internal/lock/wakeup.go:9-33 | a release makes the first queued request with no lease, or one found alive, the holder under its own client and lease, and signals it; the entry goes if and only if there is none |
| LockTheorems.WaiterConservation | internal/lock/queue.go:17-38 | every issued request is exactly one of queued, granted, cancelled and passed over, and its channel is closed once or never accordingly |
| LockTheorems.GrantsAreFifo | internal/lock/wakeup.go:35-53 | over the whole life of a lock requests are granted in the order they were issued, across the entry's deletion and re-creation |
| LockTheorems.BoundedWaiting | internal/lock/wakeup.go:11-53 | each release of its lock moves a queued request up by at least one place; with k ahead it leaves the queue within k + 1 releases and never returns |
| LockTheorems.NoLostWakeupByLease | internal/lock/lock.go:141-145 | when a lease's locks are released together, each goes to the first request in its own queue with no lease or one found alive |
| LockTheorems.StepSkips | internal/lock/wakeup.go:17-19 | no operation but a release passes a request over, and only one whose lease it finds dead |
| LockTheorems.SkippedOnlyWhenDead | internal/lock/wakeup.go:17-19 | over any run, whoever is passed over is so by a step that finds its lease dead |
| LockTheorems.ReleaseByLeaseExact | internal/lock/lock.go:127-146 | all locks held under a lease are released if and only if the lease is alive, there is no checker, or there are none |
| LockEffects.TryAcquireTakes | internal/lock/lock.go:61-81 | an untracked lock gets exactly this holder and lease with an empty queue, and one record, which without a NUL in the names reads back as holder, lease, 3; any other call changes nothing |
| LockEffects.EnqueueQueues | internal/lock/queue.go:17-38 | a new request for this lock, client and lease goes last in the queue, with a number above all earlier ones; no other entry, request or record is touched |
| LockEffects.CancelRemoves | internal/lock/lock.go:149-169 | exactly the queued requests whose client it is leave the queue, cancelled, their channels closed once and without a grant; everything else stays |
| LockEffects.RunKeepsRequest | internal/lock/queue.go:25-31 | over any run a request stays for the lock, client and lease it was issued for |
| LockEffects.StepGrants | internal/lock/wakeup.go:20-26 | only a release grants a request, and the request then holds its lock under its own client and lease |
| LockEffects.GrantedAsEnqueued | internal/lock/wakeup.go:20-26 | from the call that queues it through any run: the step that grants the request makes that client the holder under that lease, in the table and in the store |
| LockEffects.ReleaseVerdict | internal/lock/lock.go:114-125 | untracked locks and other clients are refused and change nothing, the holder is released, and no other lock changes hands |
| LockEffects.ReleaseRecords | internal/lock/release.go:10-36 | a release writes Releasing (4) without holder and then Held (3) with the next holder, or Waiting (1) and a delete |
| LockEffects.LeaseReleases | internal/lock/lock.go:127-146 | with the lease alive or unchecked, exactly the locks taken under it are released and handed on; every other lock keeps entry, requests and records |
| Lease.Manager.constructor | internal/lease/lease.go:34-41 | no leases |
| Lease.Manager.Create | internal/lease/lease.go:56-72 | a new lease for this holder, which can be renewed and survives a scan exactly until its time-to-live after now; an existing id is refused |
| Lease.Manager.Alive | internal/lease/lease.go:87-92 | a lease in the table is alive |
| Lease.Manager.Renew | internal/lease/lease.go:96-113 | at or after the deadline the lease is removed and its owner told; before it the deadline moves |
| Lease.Manager.Revoke | internal/lease/lease.go:116-127 | the lease is removed and its owner told |
| Lease.Manager.BatchRenew | internal/lease/renew.go:12-18 | the table and the result for every id after renewing one by one |
| Lease.Manager.RenewMany | internal/lease/renew.go:22-30 | the renewals that succeeded, in the order of the batch |
| Lease.Manager.ExpireOnce | internal/lease/expire.go:12-39 | with nothing landing in between, exactly the overdue leases are removed and returned, each once, and nobody is told |
| Lease.Manager.RemoveOverdue | internal/lease/expire.go:13-23 | the scan removes every overdue lease and no other |
| Lease.Manager.Report | internal/lease/expire.go:24-38 | every removed id is reported; only one that exists again is called back for |
| LeaseSpec.BatchIsIndependent | internal/lease/renew.go:9-18 | what becomes of a lease depends only on itself and on how often it is named, not on the rest of the batch |
| LeaseSpec.BatchVerdict | internal/lease/renew.go:9-18 | an id succeeds if and only if it was present and not due, and is not a repeated lease without a positive time-to-live |
| LeaseSpec.SuccessesExact | internal/lease/renew.go:20-30 | how often each id is reported: as often as it is named if it was present and not due, but once without a positive time-to-live |
| LeaseSpec.SuccessesInOrder | internal/lease/renew.go:20-30 | with positive times-to-live the report is the ids present and not due, in their order |
| LeaseSpec.BatchThenExpire | internal/lease/expire.go:9-39 | a scan right after a batch finds exactly the overdue leases outside it and those renewed to a deadline already passed |
| LeaseSpec.CreatedLeaseEnds | internal/lease/lease.go:56-72 | for every now, time-to-live and later time: as long as nothing but other leases and early scans is touched, a renewal of a new lease succeeds, and a scan leaves it, if and only if the time is before now plus time-to-live |
| LeaseSpec.RenewedLeaseEnds | internal/lease/lease.go:96-113 | the same for a renewed lease, from the moment of its renewal |
| LeaseSpec.SparedStep | internal/lease/lease.go:96-127 | which operations leave a lease as it is, which renew it and which remove it |
| LeaseSpec.EndedLease | internal/lease/lease.go:116-127 | what a revocation, a late renewal and a scan remove and report, and that nothing renews a lease that is gone |
| LeaseSpec.BackAgainExact | internal/lease/expire.go:24-34 | of the ids a scan removed, those are called back for that exist again, as often as they are listed |
| Expiry.EndedLeasesFreeNoLocks | internal/lock/lock.go:129-134 | a renewal or a revocation makes a callback due only for a lease it has just removed; run against any later lease table, that callback changes the locks if and only if its lease is there again and holds some |
| Expiry.CallbacksDue | internal/lease/expire.go:24-34 | exactly when a callback becomes due: its lease was removed other than by a scan, or the lookup after a scan finds that the lease exists again |
| Expiry.SystemStepKeepsHolder | cmd/coordination/expiry.go:13-20 | no single step but the holder's release or such a callback takes a lock away or writes its record |
| Expiry.LocksOutliveLeases | cmd/coordination/expiry.go:13-20 | over any run of leases and locks wired together without a release by the holder, a lock is released if and only if a callback naming its lease runs while the lease is in the table again; until then its holder keeps it |
| Expiry.RecreatedLeaseFreesLock | internal/lease/lease.go:103-107 | in any state a lock whose lease is overdue is released when a renewal removes the lease, it is created again, and the callback runs last |
| Expiry.LockLostToOldCallback | internal/lease/lease.go:103-107 | from an empty system, a client that never released its lock ends up without it |
| Election.DoKeeps | internal/election/term.go:8-36 | every critical section of every operation, every lease ending in between, and every notice but a late one keeps the election's invariant |
| Election.LeaderNamesALease | internal/election/election.go:105-113 | over any run, with any notices, it leads if and only if it names a leadership lease |
| Election.OneLeadershipLease | internal/election/term.go:5-7 | at every point of every run without a late notice at most one leadership lease of this election is alive; between operations any alive one is the one it names |
| Election.LateNoticesDecide | internal/election/election.go:105-113 | after a move, every further course of events without a late notice keeps to one if and only if the move is not a late notice itself |
| Election.TwoLeadershipLeases | internal/election/election.go:105-113 | a leader loses its lease, wins again and is told of the lost one only then; a handoff then makes a second alive leadership lease |
| Election.TermMonotone | internal/election/term.go:8-15 | the term never falls over a run if and only if every handoff in it names a term at least the current one |
| Election.HandoffEnds | internal/election/term.go:8-36 | from any state with no operation in progress: when a handoff succeeds, who leads afterwards, in which term and under which lease, and what is left otherwise |
| Election.LeadsAsAsked | internal/election/term.go:8-36 | whatever leases end or appear and whatever notices arrive during a handoff or a campaign: if it ends with a leader, that leads under the name and in the term asked for |
| Election.CampaignEnds | internal/election/election.go:57-88 | when a campaign wins and what it leaves behind |
| Election.LeadershipEnds | internal/election/election.go:91-101 | resigning and stepping down name nobody and take the leadership lease with them |
| Election.HeartbeatEnds | internal/election/heartbeat.go:11-30 | a heartbeat in time changes only its clock, and any other ends the leadership |
| Election.Participant.constructor | internal/election/election.go:45-55 | a participant begins as a follower in term 0 |
| Election.Participant.Campaign | internal/election/election.go:57-88 | a leader stays as it is; anyone else enters the next term and wins if and only if the leadership lease for its name was free, with a lease that lasts from now |
| Election.Participant.TakeLease | internal/election/term.go:21-35 | with the lease free it leads under that name with a lease that lasts from now, and otherwise it follows |
| Election.Participant.Handoff | internal/election/term.go:8-36 | it succeeds if and only if the old leadership lease, if any, could be revoked and the new one was free after that; then the participant leads as the new name in the new term under the new lease, and the old one is gone |
| Election.Participant.Resign | internal/election/election.go:91-101 | role, leader and leadership lease are given up together and the term stays |
| Election.Participant.Heartbeat | internal/election/heartbeat.go:11-30 | a renewal in time moves the heartbeat and the deadline and nothing else; a late one ends the leadership and the lease |
| Election.Participant.EndLeadership | internal/election/heartbeat.go:66-78 | stepping down revokes the lease it held |
| Election.Participant.OnLeaseExpired | internal/election/election.go:105-113 | a notice naming the current leadership lease ends the leadership, whether or not that lease is alive |
| Election.Participant.Follow | internal/election/campaign.go:9-15 | anyone but a leader becomes a follower |
| Watcher.SnapshotEntries | internal/watch/watch.go:261-273 | the live entries of a snapshot, each key once, in revision order |
| Watcher.Watcher.constructor | internal/watch/watch.go:32-39 | no watches |
| Watcher.Watcher.Name | internal/watch/watch.go:64 | a watch's name carries its number in decimal |
| Watcher.Watcher.Watch | internal/watch/watch.go:61-89 | with no write in between: a watch owns a new stream, from the head or with a replay; a failure uses up an id and registers nothing |
| Watcher.Watcher.Subscribe | internal/watch/watch.go:74-85 | the second part of it, on a decision taken at an earlier head: if the head has passed the revision since, a live stream is opened all the same |
| Watcher.Watcher.OpenStream | internal/watch/watch.go:74-78 | the decision picks a live stream or a replay |
| Watcher.Watcher.Ack | internal/watch/watch.go:104-110 | acknowledged cursors only grow |
| Watcher.Watcher.Cancel | internal/watch/watch.go:120-137 | the watch, its cursor and its stream end together |
| Watcher.Watcher.NextEntry | internal/watch/watch.go:158-171 | a snapshot entry is taken in hand or filtered out |
| Watcher.Watcher.NextEvent | internal/watch/watch.go:172-191 | a stream event is taken in hand or filtered out |
| Watcher.Watcher.Send | internal/watch/watch.go:199-216 | the event in hand goes to the end of the channel, unless that is full |
| Watcher.Watcher.Consume | internal/watch/watch.go:69 | the client reads the oldest event it has not read |
| Watcher.Watcher.Serve | internal/watch/watch.go:158-191 | one turn of the delivery loop makes progress or finds nothing to do |
| Watcher.Watcher.DeliverLoop | internal/watch/watch.go:150-191 | the delivery loop is a run of this watch's own steps and comes to rest only when it is cancelled, blocked or has read all there is |
| WatchTheorems.WatchStepKeeps | internal/watch/watch.go:22-54 | no operation breaks the order of any watch or lets two watches share a stream |
| WatchTheorems.CursorsIncrease | internal/watch/watch.go:58-60 | over any run every watch delivers strictly increasing revisions above the one asked for, also when its start had to be moved up |
| WatchTheorems.EntriesAreOld | internal/watch/watch.go:158-167 | snapshot entries lie at or below the stream's start |
| WatchTheorems.WatchOpensExact | internal/watch/watch.go:61-89 | a watch opened at or above the log start begins with nothing missing |
| WatchTheorems.ExactStep | internal/watch/watch.go:150-217 | any step of anything keeps what the watch has passed on equal to the matching history up to where its stream was read |
| WatchTheorems.IdleIsComplete | internal/watch/watch.go:172-191 | a watch at rest with room on its channel has delivered every matching event up to the head |
| WatchEffects.WatchBegins | internal/watch/watch.go:61-89 | a watch opens if and only if its replay is at most 512 events; what a new watch starts with, what its stream was sent, and that every other watch and stream is as before |
| WatchEffects.ChannelIsFifo | internal/watch/watch.go:209-216 | an event goes on the channel unless 256 are unread, and they are read in the order they went on |
| WatchEffects.AckRaises | internal/watch/watch.go:104-110 | the acknowledged cursor becomes the larger of its old value and the revision, and no other changes |
| WatchEffects.CancelEnds | internal/watch/watch.go:120-137 | cancelling ends this watch, its stream and its cursor and no other; over any later run it delivers nothing but an event it had in hand |
| MovedWatch.MovedStep | internal/watch/watch.go:150-217 | any step of anything keeps what a watch with a higher start has passed on equal to the live snapshot entries above the revision asked for and then the matching history its stream has handed out |
| MovedWatch.MovedWatchesOpen | internal/watch/watch.go:74-83 | the two ways to get such a watch: from below the log, and by a write between reading the head and opening the stream |
| MovedWatch.MovedConverges | internal/watch/watch.go:261-268 | the client's value of a key is the current one in the end if and only if no delete of it fell below the stream's start and the one write between snapshot and stream was not lost on it |
| MovedWatch.MovedWatchConverges | internal/watch/watch.go:58-89 | the same over any run from the opening, for the loop's own deliveries, once the watch has come to rest |
| WatchGaps.DeleteIsNeverReported | internal/watch/watch.go:264-266 | a client that knows a key watches it from there, the watch comes to rest without delivering anything, and the key has been deleted |
| WatchTheorems.WatchIDsDiffer | internal/watch/watch.go:63-64 | two watches have the same name if and only if they are the same |
| WatchSpec.SelectSplit | internal/session/session.go:74-76 | the matching history splits at any cursor into what lies before and after it |
| Transcript.SelectIn | internal/model/events.go:24-28 | what matches: the events above one revision and up to another with the key watched, or any key for an empty one |
| Transcript.SelectRises | internal/watch/watch.go:58-60 | the matching history is in revision order without repeats |
| Resume.DisconnectKeeps | internal/session/session.go:77-96 | a disconnect stops the watch where it is and keeps the cursor |
| Resume.AcknowledgedInAll | internal/session/session.go:175-186 | at any time, also after a disconnect, what has been acknowledged in all is exactly the matching history up to the cursor |
| Resume.ReconnectKeeps | internal/session/session.go:125-139 | a watch opened again from the cursor goes on exactly there |
| Transcript.RepeatsAreAboveCursor | internal/session/session.go:129-139 | of what was delivered on earlier connections, a connection delivers again exactly what lies above its cursor, as far as it has got |
| Transcript.NoRepeatExact | internal/session/session.go:129-139 | over all connections no event is delivered twice if and only if every connection that delivered anything found all earlier deliveries acknowledged |
| Transcript.TranscriptIsExact | internal/session/session.go:129-139 | both, for every connection of a transcript |
| WatchGaps.UnacknowledgedIsSentAgain | internal/session/session.go:77-146 | from an empty store: one event, delivered, not acknowledged, is delivered again after a reconnect |
| Resume.ResumeIsExact | internal/session/session.go:74-146 | through any number of disconnects and reconnects, whoever cancels the watch, what was acknowledged before and what the current connection delivers are together a prefix of the matching history from where the client first asked, each event once and in order; over all connections only unacknowledged events are repeated |
| Session.Manager.constructor | internal/session/session.go:43-54 | no sessions |
| Session.Manager.Connect | internal/session/session.go:57-72 | an existing session is left as it is |
| Session.Manager.BindLease | internal/session/session.go:247-261 | a lease is bound once |
| Session.Manager.RegisterWatch | internal/session/session.go:149-163 | a watch that opens is recorded with its key and start; it exists even when the session does not |
| Session.Manager.AckWatch | internal/session/session.go:176-186 | the cursor on record only moves forward, and an unknown watch counts as cursor zero |
| Session.Manager.CancelEach | internal/session/session.go:92-94 | the watches are cancelled one after another |
| Session.Manager.Listed | internal/session/session.go:86-89 | every id on record once |
| Session.Manager.Disconnect | internal/session/session.go:77-96 | every recorded watch is cancelled and every cursor kept |
| Session.Manager.Close | internal/session/session.go:201-217 | every recorded watch is cancelled |
| Session.Manager.Rebuild | internal/session/session.go:125-139 | the loop opens the recorded watches again, dropping those that fail |
| Session.Manager.Reconnect | internal/session/session.go:101-146 | leases renewed, watches rebuilt and the record replaced, in whatever order the table is visited |
| SessionTheorems.ReconnectRecords | internal/session/session.go:125-144 | each recorded watch gets an id of its own and is on record if and only if it could be opened, with its old cursor and key; no earlier watch is stopped and none stays on record |
| SessionEffects.AckedRaises | internal/session/session.go:176-186 | the recorded cursor becomes the larger of its old value and the revision, zero if unknown, and no other changes |
| SessionEffects.DisconnectEnds | internal/session/session.go:77-96 | every recorded watch ends with its stream and cursor and no other is touched; the record keeps all keys and cursors |
| SessionEffects.CancelAllEnds | internal/session/session.go:92-94 | cancelling watches one after another ends exactly those, in whatever order |
| SessionEffects.ReconnectedAsRecorded | internal/session/session.go:125-144 | each watch on record after a reconnect is open, for the recorded key from the recorded cursor |
| SessionTheorems.WorldStepKeeps | internal/session/session.go:77-186 | every operation on a session, with any number of watches, is what it means for the one followed, and keeps its record right |
| SessionTheorems.SessionResumeIsExact | internal/session/session.go:74-186 | over any run of a session, with any number of other watches and cancels from anywhere: the same for a watch it registered, and the session's record names it with the client's cursor |

## Left out

- WatchTheorems.CursorsIncrease: covers delivery through the channel. Delivery through an attached peer and its retries (internal/watch/watch.go:202-252) are not modelled; a retry can move a watch's cursor backwards.
- Watcher.Watcher.Watch: the contract is for no write between its two parts; with one, `Subscribe` and the step `OpWatchLate` say what happens.
- Watcher.Watcher.Cancel: the cancelled watch stays in the model's table, marked closed, so that what it delivered can still be spoken of; the code deletes it. Its delivery loop is taken to stop at its next turn.
- Session.Manager.Reconnect: one step, while the code drops the session's lock between reading its cursors and replacing them; an acknowledgement landing in between is lost in the code. The same holds for the other session operations.
- SessionTheorems.SessionResumeIsExact: the client acknowledges only what has been delivered to it, its cursor is still at or above the log start when it is used again, and no write lands between reading the head and opening the stream when this watch is opened (others may suffer that); the code demands none of this. A replaced watch that was still open goes on delivering, but nobody reads its channel any more.
- Resume.ResumeIsExact: the same conditions on one watch.
- LockTheorems.TableMatchesStore: names contain no NUL and nobody else writes under `locks/`; without that the records can say anything. ObservableMutualExclusion, GrantedAsEnqueued and ReleaseRecords have the same conditions, and the record in TryAcquireTakes the first.
- LockTheorems.BoundedWaiting: counts releases; that holders ever release is not claimed.
- LockManager.Manager.ReleaseByLease: the store is always attached.
- Lease.Manager.ExpireOnce: nothing lands between its removal loop and its report; what happens to an id created again in between is stated for `Report`, and in `Expiry` the scan, each lookup and each callback are separate steps.
- Expiry.LocksOutliveLeases: deleting the keys bound to a lease (cmd/coordination/expiry.go:16-18) is not modelled; nobody but the lock manager writes under `locks/`, and locks are released by lease only from the callback.
- Election.OneLeadershipLease: operations on one election follow one another; lease creation and expiry by others may land between any two of their critical sections. Expiry notices may arrive at any point.
- Store.Store.Receive: streams, readers and lock requests are referred to by their ids and kept as values in maps rather than as heap objects, and one `closed` flag stands for a stream dropped for being slow and one closed by its consumer.
- Store.Store.CompactAll: a version list is copied into a buffer, compacted there in place and stored again, since version lists are sequences in the model; a list never becomes empty, so the deletion of an empty record has nothing to do.
- The wait in `Acquire` (internal/lock/lock.go:84-111): its critical sections are modelled, its choice between a grant and a timeout that are both ready is not.
- 64-bit wrap-around of revisions and counters, except for the digits of a watch id; a nil store in the lock manager.
- Keys bound to leases (`BindKey`, `KeysOf`, `ConsumeKeys`): set bookkeeping.
- Session expiry after a grace period, session listing, `ResumeAll`, counters, and lookups that return copies.
- `CheckTimeout` and the heartbeat loop: a comparison of two clock readings, and the calls it leads to in either order.
- HTTP handlers, JSON, server-sent events, the console page, configuration and signal handling.
- Hashing keys to shards and topics, used for display only.
- Goroutine scheduling, tickers and the wall clock: critical sections are steps in any order, and time is an argument.
