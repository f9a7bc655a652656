# WA Studio: the connector's journal and delivery protocol, and the managed Runtime's keepers

This Dafny project models three parts of the repository and proves what they promise.

**The OpenWA connector.** Commands arrive through a webhook that may replay them. A journal in a key-value store records
each command and numbered evidence of what happened to it; an execution sends the command, which cannot be taken back;
a flush posts the evidence to a remote inbox and retries. The process may crash between any two storage writes and
recovers when it restarts.

- `Protocol`, `Records`: commands, evidence, and one command's record with its two ways of appending evidence.
- `JournalStore`: what is persisted, and for each journal call the state it returns in and the stores a crash between its
  writes can leave behind. `Journal`: the journal as a class whose methods do the reads, loops and writes and are proved
  equal to that description, with the store after each write in a ghost `log`. `Buckets`, `Recoveries` and `Compactions`
  hold the steps of its loops over buckets.
- `JournalCalls`, `JournalRuns`: what every call keeps, finished or cut short, and what holds over all runs.
  `CallMeanings`: what each call does and says, in literal terms. `SendRaces`: which early acknowledgements are parked.
  `SharedMessages`: when two commands come to share a message id, and that no restart succeeds after that. `AckRuns`: the
  order of acknowledgements does not matter. `FreshIds`: event ids are new.
- `Connector`: ingress, executions, flushes, hooks, rotations, compaction, crashes and restarts as steps that interleave
  freely. `ConnectorBase`, `SendBound`, `SendContinuations`, `SendOutlook`, `SendExamples`: how often a command is
  sent, and when it still can be. `Executions`, `AcceptedRuns`, `StepMeanings`: how executions end, that they can end well,
  and what the other steps lead to. `EvidenceContent`, `EvidenceOrder`, `EvidenceRuns`, `EvidenceStreams`,
  `FlushProgress`: what the inbox sees, and that a flush gets everything there.
- `Bindings`, `Mutex`: the retained webhook bindings and the promise-chain lock, which justifies taking each journal call
  as one step for other journal calls.

**Managed backups.** `BackupPolicy`, `Backups`: rotation by retention class, pruning to a byte budget, and the check made
before a backup is committed. `BackupNames`: file names printed and parsed.

**Smaller algorithms.** `FeatureCycles`: the depth-first search for cycles between feature modules. `RotatingLog`: the
supervisor's log files. `RestartBudget`: the sliding window of automatic restarts.

`Wrappers`, `Sorting` and `Unsigned` hold options and replies, a stable sort and "the best n of a set", and saturating
64-bit arithmetic.

## Assumptions

- A failed storage write is a crash, storage reads return copies, and a restarted process recovers before anything else.
  Under this assumption a replayed delivery never finds a started record without its execution
  (`Executions.StartedIsExecuted`).
- Receiving a command and then scheduling or answering it is one step of the connector.
- The clock does not go back; a command reaches the connector no earlier than it was created; records are retained for at
  least the hour that a command may last; for each command id there is one command. `Connector.Enabled` and
  `Connector.ValidSite` say so. The bound on sends needs them: a command received again after compaction is then expired.
- The steps of the connector are a superset of the code's: two checks of an execution without an await between them are
  separate steps, and journal calls that wait for the lock may go in any order. Bounds over all runs therefore hold of the
  code, and so does "cannot be sent any more" in `SendContinuations` and `SendOutlook`; that a command can be sent is said
  of the steps. The runs in `SendExamples` only use orders the code has: what happens in between happens while an
  execution waits for its media check or a restarted process for its second heartbeat.
- Event ids and file names do not repeat. SHA-256 shards and the listing order of directories and maps are arbitrary. The
  locale order of message ids is any strict total order: two different ids never compare as equal.
- `markStarted` is no guard: on a terminal record it returns without an error, and the execution goes on to send.
  Two consequences, sends after a stale restart and sends after a rejection, are shown by `SendExamples`; the bounds that
  do hold are in `SendBound`, and `SendContinuations` and `SendOutlook` say exactly when a command can still be sent after
  its record left RECEIVED.

## Model

| member | source | states |
|---|---|---|
| JournalRuns.PointersResolve | packages/openwa-connector-plugin/src/journal.ts:592-655 | At every moment of every run, also between two storage writes, each command pointer leads to a stored record with its digest, each message pointer to a stored record with that message id, and no command is stored twice |
| JournalRuns.RecoveryRestores | packages/openwa-connector-plugin/src/journal.ts:351-388 | From whatever a crash left behind, recovery succeeds exactly when no message id was accepted for two commands; then the command and message indexes list exactly the stored records, no send is left started, and the resumable commands are the stored RECEIVED ones |
| SharedMessages.SharedMessageIsForGood | packages/openwa-connector-plugin/src/journal.ts:351-388 | Once a process has gone while two stored records share a message id, every later restart fails, over every run, and no other call can be made again |
| SharedMessages.ConflictShares | packages/openwa-connector-plugin/src/journal.ts:276-283 | An acceptance that throws on a message id of another command leaves two records with that id |
| SharedMessages.QuietRunsShareNothing | packages/openwa-connector-plugin/src/journal.ts:260-288 | Over a whole run with crashes, two stored records never share a message id if and only if no acceptance meets the conflict, whether it throws or is cut short before; then every restart succeeds |
| SharedMessages.TwoAcceptancesGetStuck | packages/openwa-connector-plugin/src/journal.ts:276-388 | For every configuration, any two commands and any message id there is a run that accepts both with that id, crashes, and fails to restart |
| JournalRuns.RecordsOnlyExtend | packages/openwa-connector-plugin/src/journal.ts:731-784 | While a record is retained, later versions of it only append evidence, never undo a delivery and never change terminal states, over every run with crashes |
| JournalRuns.TerminalForGood | packages/openwa-connector-plugin/src/journal.ts:522-548 | A retained record that has left RECEIVED never returns there, and a terminal one keeps its state and message id for good |
| JournalRuns.RetentionRunsFromDelivery | packages/openwa-connector-plugin/src/journal.ts:418-438 | Compaction removes a record exactly when it is terminal, fully delivered, and the retention period has passed since its last delivery, whatever acknowledgements did to updatedAt |
| JournalRuns.OrphansBounded | packages/openwa-connector-plugin/src/journal.ts:657-686 | From an empty store, the parked acknowledgements never exceed maximumOrphanAcknowledgements, at no crash point either |
| JournalRuns.PruningUnique | packages/openwa-connector-plugin/src/journal.ts:476-520 | What pruning keeps is determined by what was parked, the time and the limit |
| JournalCalls.ReturnKeeps | packages/openwa-connector-plugin/src/journal.ts:149-548 | Every journal call that returns or throws keeps the store sound (valid records at their home bucket, resolvable pointers) and moves records only as its kind allows; command pointers stay complete unless recovery itself throws |
| JournalCalls.InterruptKeeps | packages/openwa-connector-plugin/src/journal.ts:149-548 | The same holds of every store a crash leaves between two storage writes of a call |
| JournalCalls.ReceiveStep | packages/openwa-connector-plugin/src/journal.ts:149-210 | Receiving, at each of its write points, adds at most the one new record of the command at its home and leaves all others alone |
| JournalCalls.TransitionStep | packages/openwa-connector-plugin/src/journal.ts:220-258 | Starting, rejecting and closing a command keep the store sound and extend one record |
| JournalCalls.AcceptStep | packages/openwa-connector-plugin/src/journal.ts:260-288 | Accepting a send keeps the store sound at each of its up to four write points, also when the message id conflicts |
| JournalCalls.AcknowledgeStep | packages/openwa-connector-plugin/src/journal.ts:290-311 | A direct or parked acknowledgement keeps the store sound |
| JournalCalls.EvidenceStep | packages/openwa-connector-plugin/src/journal.ts:324-349 | Marking delivery or failure keeps the store sound and touches one entry |
| JournalCalls.CompactStep | packages/openwa-connector-plugin/src/journal.ts:418-438 | Every intermediate store of a compaction is sound; pointers go before their record |
| JournalCalls.RecoverStep | packages/openwa-connector-plugin/src/journal.ts:351-388 | Every intermediate store of a recovery is sound |
| JournalStore.LocateFinds | packages/openwa-connector-plugin/src/journal.ts:550-572 | With a complete command index, following a pointer finds exactly the stored record of an id |
| JournalStore.EvictionKeepsNewest | packages/openwa-connector-plugin/src/journal.ts:503-512 | Sorting the parked acknowledgements by time and id and dropping the first ones leaves the newest in-window ones |
| JournalStore.AcceptShape | packages/openwa-connector-plugin/src/journal.ts:260-288 | Every store on the way of an acceptance differs from the old one only in the one record, the one message pointer and the one parked acknowledgement, and a refused acceptance changes nothing |
| FreshIds.ReturnsFresh | packages/openwa-connector-plugin/src/journal.ts:731-784 | Evidence added by a call carries event ids drawn during that call |
| FreshIds.InterruptedFresh | packages/openwa-connector-plugin/src/journal.ts:731-784 | So does the evidence a crashed call has already written |
| Records.AtMostSeven | packages/openwa-connector-plugin/src/journal.ts:731-784 | A valid record holds at most seven pieces of evidence, of pairwise different kinds |
| Records.AppendEvidenceKeeps | packages/openwa-connector-plugin/src/journal.ts:731-748 | A permitted transition keeps the lifecycle order of kinds, appends exactly one entry numbered next, sets the state it stands for, and sets the message id exactly on acceptance |
| Records.AppendAckKeeps | packages/openwa-connector-plugin/src/journal.ts:750-784 | An acknowledgement keeps the record valid: SENT or FAILED before DELIVERED before READ, each at most once, only on accepted records |
| Records.AckLifecycle | packages/openwa-connector-plugin/src/journal.ts:756-766 | An acknowledgement that is not ignored ranks no lower than those recorded and repeats none |
| Records.MarkDeliveredKeeps | packages/openwa-connector-plugin/src/journal.ts:324-336 | Marking a delivery changes no evidence and undoes no earlier delivery |
| Records.NoteFailureKeeps | packages/openwa-connector-plugin/src/journal.ts:338-349 | Noting a failure changes no evidence and undoes no delivery |
| Records.EventIndex | packages/openwa-connector-plugin/src/journal.ts:328-331 | Finds the first entry with an event id |
| Records.DeliveryTimely | packages/openwa-connector-plugin/src/journal.ts:324-336 | The delivery that completes a record also stamps updatedAt, so a fully delivered record's updatedAt is its last delivery |
| Journal.ConnectorJournal.Receive | packages/openwa-connector-plugin/src/journal.ts:149-210 | Replays return the stored record, digest conflicts and capacity refuse without a write, and a new command is written record first, pointer second |
| Journal.ConnectorJournal.Get | packages/openwa-connector-plugin/src/journal.ts:212-218 | Nothing without a pointer, otherwise the record it leads to, or the error of a missing bucket or record |
| Journal.ConnectorJournal.MarkStarted | packages/openwa-connector-plugin/src/journal.ts:220-227 | A RECEIVED record becomes started; a started or terminal one is returned unchanged without an error |
| Journal.ConnectorJournal.MarkRejected | packages/openwa-connector-plugin/src/journal.ts:229-243 | Only a RECEIVED record can become rejected; a started one is refused, a terminal one returned as it is |
| Journal.ConnectorJournal.MarkIndeterminate | packages/openwa-connector-plugin/src/journal.ts:245-258 | A record that is not terminal becomes indeterminate |
| Journal.ConnectorJournal.MakeTransition | packages/openwa-connector-plugin/src/journal.ts:522-548 | New state, races and single write of a transition, with its refusals |
| Journal.ConnectorJournal.MutableRecord | packages/openwa-connector-plugin/src/journal.ts:550-564 | The record behind a pointer, or which of the four lookup errors applies |
| Journal.ConnectorJournal.MarkAccepted | packages/openwa-connector-plugin/src/journal.ts:260-288 | Writes the accepted record, then the message pointer, then applies a parked acknowledgement; a message id of another command throws after the first write |
| Journal.ConnectorJournal.ApplyOrphanAck | packages/openwa-connector-plugin/src/journal.ts:688-704 | A parked acknowledgement of the same session is appended and then forgotten |
| Journal.ConnectorJournal.StoreMessagePointer | packages/openwa-connector-plugin/src/journal.ts:627-637 | A message pointer is written once and never overwritten by another command |
| Journal.ConnectorJournal.AppendAcknowledgement | packages/openwa-connector-plugin/src/journal.ts:290-311 | Appends to the accepted record the message belongs to, parks it when a send is racing, and ignores it otherwise |
| Journal.ConnectorJournal.StoreOrphanAck | packages/openwa-connector-plugin/src/journal.ts:657-686 | Outside the time window nothing is parked; a stronger status replaces a weaker one; a new entry displaces only the oldest |
| Journal.ConnectorJournal.PruneOrphanAcknowledgements | packages/openwa-connector-plugin/src/journal.ts:476-520 | Leaves, across all shards, exactly the newest in-window acknowledgements up to the limit and returns how many went; every intermediate store keeps those |
| Journal.ConnectorJournal.DropStale | packages/openwa-connector-plugin/src/journal.ts:486-502 | Drops exactly the entries outside the window and counts them |
| Journal.ConnectorJournal.DropOldest | packages/openwa-connector-plugin/src/journal.ts:503-512 | Drops exactly the first entries of the sorted list |
| Journal.ConnectorJournal.WriteChangedBuckets | packages/openwa-connector-plugin/src/journal.ts:513-520 | Writing only the changed shards makes the store equal to the pruned set |
| Journal.ConnectorJournal.MarkEvidenceDelivered | packages/openwa-connector-plugin/src/journal.ts:324-336 | Delivers one undelivered entry in one write; unknown or delivered events change nothing |
| Journal.ConnectorJournal.NoteEvidenceFailure | packages/openwa-connector-plugin/src/journal.ts:338-349 | Counts one failed attempt of an undelivered entry in one write |
| Journal.ConnectorJournal.Recover | packages/openwa-connector-plugin/src/journal.ts:351-388 | One pass over the buckets completes both indexes and closes interrupted sends, failing exactly on a message id shared by two commands; every write point is a store recovery may be cut at |
| Journal.ConnectorJournal.Compact | packages/openwa-connector-plugin/src/journal.ts:418-438 | Removes exactly the expired records with their pointers, then prunes parked acknowledgements, and returns the number of records removed |
| CallMeanings.ReceiveMeans | packages/openwa-connector-plugin/src/journal.ts:149-210 | A stored command is returned unchanged, or refused when the payload digest differs; a new one is refused under a nonsensical limit or at capacity without a write, and otherwise stored RECEIVED at its session, day and shard under one pending piece of evidence, and indexed |
| CallMeanings.StartMeans | packages/openwa-connector-plugin/src/journal.ts:220-227 | A RECEIVED command becomes SEND_STARTED, with pending evidence without an error that occurred at the time of the call; any other is returned unchanged |
| CallMeanings.RejectMeans | packages/openwa-connector-plugin/src/journal.ts:229-243 | A RECEIVED command becomes SEND_REJECTED with FAILED evidence under the class and the code of the caller; a started one is refused, a closed one returned unchanged |
| CallMeanings.IndeterminateMeans | packages/openwa-connector-plugin/src/journal.ts:245-258 | An open command becomes SEND_INDETERMINATE with INDETERMINATE, AMBIGUOUS evidence under the code of the caller; a closed one is returned unchanged |
| CallMeanings.AcceptMeans | packages/openwa-connector-plugin/src/journal.ts:260-288 | Only a started command is accepted, with ACCEPTED evidence under the message id; unless the id is known already it is indexed, and an acknowledgement parked for it by the same session becomes the next piece of evidence and is forgotten |
| CallMeanings.AcknowledgeMeans | packages/openwa-connector-plugin/src/journal.ts:302-311 | An acknowledgement of the session for an accepted message is appended with its own kind and time unless the record knows it or something stronger; one of another session changes nothing |
| CallMeanings.DeliveredMeans | packages/openwa-connector-plugin/src/journal.ts:324-336 | The one undelivered entry under an event id gets its delivery time, one more attempt and no error, and the record its update time; nothing else changes |
| CallMeanings.FailureMeans | packages/openwa-connector-plugin/src/journal.ts:338-349 | The one undelivered entry under an event id gets one more attempt, its time and the first 256 characters of the error; nothing else changes |
| CallMeanings.RecoverMeans | packages/openwa-connector-plugin/src/journal.ts:351-388 | A recovery that succeeds closes exactly the started commands, as INDETERMINATE and AMBIGUOUS under PLUGIN_RESTART_AFTER_SEND_STARTED at its own time, counts them, and returns exactly the RECEIVED ones |
| CallMeanings.PruneMeans | packages/openwa-connector-plugin/src/journal.ts:476-520 | Pruning keeps only acknowledgements in time, none of them changed, up to the number to be retained, and none it drops in time is later than one it keeps |
| SendRaces.EarlyAcknowledgementIsParked | packages/openwa-connector-plugin/src/journal.ts:290-301 | Over every run with crashes: an acknowledgement for an unknown message is parked if and only if this process has started a command of its session which is still started and it occurred within 30 seconds before that start, the race window after it and 30 seconds after the expiry, and was observed in time; a stronger status replaces a weaker one, and otherwise nothing changes |
| SendRaces.StartOpensRace | packages/openwa-connector-plugin/src/journal.ts:463-474 | The first start of a command opens that window at the time of the call |
| AckRuns.AcknowledgementsConfluent | packages/openwa-connector-plugin/src/journal.ts:290-311 | In a crash-free run the strongest acknowledgement on an accepted record is the maximum of all taken in for its message, whatever their order and wherever the acceptance fell among them, unless one was turned away or evicted |
| AckRuns.ParkedIsMaximum | packages/openwa-connector-plugin/src/journal.ts:657-686 | Until the acceptance, the parked acknowledgement is that maximum |
| AckRuns.OneMore | packages/openwa-connector-plugin/src/journal.ts:815-820 | Replacing a parked status by the next one computes the maximum of the statuses seen |
| AckRuns.AppendTakesMaximum | packages/openwa-connector-plugin/src/journal.ts:750-784 | Appending to a record computes the same maximum |
| AckRuns.StrongestIsMaximum | packages/openwa-connector-plugin/src/journal.ts:815-820 | The strongest status is the maximum in the order sent, failed, delivered, read |
| Executions.SendResultIsRecorded | packages/openwa-connector-plugin/src/connector.ts:247-275 | In every history, once the execution of a command that its process started has ended, the record is SEND_ACCEPTED under m if and only if the send returned m, and SEND_INDETERMINATE if and only if it threw or named no message |
| Executions.StartedIsExecuted | packages/openwa-connector-plugin/src/connector.ts:144-153 | A record is never SEND_STARTED in a running connector without its execution, so no replayed delivery finds one to close |
| Executions.ClosedStays | packages/openwa-connector-plugin/src/journal.ts:522-548 | A closed record, whoever closed it, keeps its state and message id while it is stored, over every run of the connector |
| StepMeanings.RefusalIsReasoned | packages/openwa-connector-plugin/src/connector.ts:215-246 | In every history an execution starts and sends only when no check found a reason not to, and a refusal rejects a RECEIVED record under the class and code of its reason: expired, rotated binding, media mismatch or media unavailable |
| StepMeanings.GiveUpIsCoded | packages/openwa-connector-plugin/src/connector.ts:264-273 | In every history a send that is given up closes its started record as ambiguous under the code of what happened: no message id, or a throw of the send or of its recording |
| StepMeanings.ExecutionNeverStuck | packages/openwa-connector-plugin/src/connector.ts:213-275 | Every execution has a next step in every running state |
| StepMeanings.AnythingIsAnswered | packages/openwa-connector-plugin/src/connector.ts:228-264 | Media checks, sends and posts may answer anything at all |
| StepMeanings.AnythingIsDelivered | packages/openwa-connector-plugin/src/connector.ts:125-164 | A delivery may be repeated at any time with any digest, and a snapshot is resumed as soon as its binding is known |
| StepMeanings.AnythingHappens | packages/openwa-connector-plugin/src/connector.ts:277-338 | A running connector takes in every hook, gives its answers, compacts at any moment and applies every heartbeat whose bindings do not conflict, and a stopped one can be restarted, whatever way the journal call returns |
| StepMeanings.CrashesAnywhere | packages/openwa-connector-plugin/src/journal.ts:149-349 | The process may die at any moment and after every single storage write of a call for one command |
| StepMeanings.IngressMeans | packages/openwa-connector-plugin/src/connector.ts:144-164 | A delivery that the journal takes in schedules a RECEIVED command of the current binding, asks for the rejection of a rotated one and the closing of a started one that nothing executes, and does nothing else |
| StepMeanings.RespondMeans | packages/openwa-connector-plugin/src/connector.ts:146-161 | Those answers reject as BINDING_ROTATED, or close as INGRESS_REPLAY_AFTER_SEND_STARTED, while the record is open, and are given once |
| StepMeanings.HookMeans | packages/openwa-connector-plugin/src/connector.ts:277-300 | A hook for an accepted message of the session records its own status and time unless something as strong is recorded |
| StepMeanings.CompactMeans | packages/openwa-connector-plugin/src/journal.ts:418-438 | Compaction removes the record of a command if and only if it is closed, delivered and not updated within the retention period |
| StepMeanings.CrashMeans | packages/openwa-connector-plugin/src/connector.ts:54-75 | A crash leaves the stored data and forgets executions, flushes, snapshots, answers and send races; the bindings are the last persisted ones |
| StepMeanings.PersistMeans | packages/openwa-connector-plugin/src/bindings.ts:78-85 | What is persisted is the list then in memory |
| StepMeanings.RestartMeans | packages/openwa-connector-plugin/src/connector.ts:66-75 | A restart that does not throw comes up with nothing under execution, every interrupted send closed as ambiguous, and snapshots of exactly the RECEIVED commands |
| AcceptedRuns.DeliveredIsAccepted | packages/openwa-connector-plugin/src/connector.ts:125-275 | From every reachable running state that awaits an unexpired command of the current binding, text or image, some run takes it in, sends it and accepts it under whatever message id |
| AcceptedRuns.EveryMessageIdIsAccepted | packages/openwa-connector-plugin/src/connector.ts:54-275 | For every site, every command of its session and every message id, a run from the empty store ends with the command accepted under that id |
| SendBound.AtMostOncePlusStaleRestarts | packages/openwa-connector-plugin/src/connector.ts:201-275 | Over every run of replays, crashes, recoveries, rotations and compactions, a command is sent at most once plus once per restart from a snapshot whose record had left RECEIVED |
| SendBound.AtMostTwice | packages/openwa-connector-plugin/src/connector.ts:201-275 | Over every run a command is sent at most once without a stale restart, and at most twice however many stale restarts there are |
| SendBound.SettledStaysUnsent | packages/openwa-connector-plugin/src/connector.ts:215-275 | Once a record has left RECEIVED and no execution of it can still pass its checks, every further send takes a stale restart |
| SendContinuations.SendsAfterLeavingIff | packages/openwa-connector-plugin/src/connector.ts:215-247 | In a running connector whose record of a command has left RECEIVED, by a rejection for example, some continuation sends the command without a stale restart if and only if an execution of it is past its last check, or has not expired and, before its first check, belongs to the current binding |
| SendOutlook.StillSentIff | packages/openwa-connector-plugin/src/connector.ts:215-349 | Once a record has left RECEIVED, the command can still be sent, by this process or a later one, if and only if an execution of it may still pass its checks, or it has not expired, its binding is current and recovery left a snapshot of it that was not restarted yet |
| SendOutlook.SettledForGood | packages/openwa-connector-plugin/src/connector.ts:215-349 | Otherwise no run sends it again, whatever is replayed, rotated, restarted or compacted |
| SendOutlook.RunReached | packages/openwa-connector-plugin/src/connector.ts:141-349 | A snapshot whose record has left RECEIVED since recovery never waits for a binding still to come: its binding has arrived |
| SendExamples.SentTwice | packages/openwa-connector-plugin/src/connector.ts:340-349 | A concrete run, crash after receipt and a late resume, that sends twice with one stale restart: plain at-most-once fails and the bound of two is reached |
| SendExamples.SentOnce | packages/openwa-connector-plugin/src/connector.ts:201-275 | A concrete run that sends once without a stale restart: that bound is reached too |
| SendExamples.SentAfterRejection | packages/openwa-connector-plugin/src/connector.ts:159-160 | A concrete run in which the binding rotates while an image waits for its media check, a replayed ingress rejects the command, and the execution still sends it |
| SendBound.StepBound | packages/openwa-connector-plugin/src/connector.ts:125-275 | Every step and every crash keeps the sends of a command, with the one that may be pending, within the bound |
| SendBound.StartLeavesReceived | packages/openwa-connector-plugin/src/connector.ts:247 | After a start that does not throw the record is no longer RECEIVED, although it may be terminal |
| SendBound.IngressFindsReceived | packages/openwa-connector-plugin/src/connector.ts:144-164 | A command is scheduled from ingress only when its record is in RECEIVED |
| ConnectorBase.RunBase | packages/openwa-connector-plugin/src/connector.ts:125-390 | At every moment of every run the journal is sound, a running process has a complete command index, and executions and resumable snapshots carry their own command |
| ConnectorBase.StepBase | packages/openwa-connector-plugin/src/connector.ts:125-390 | Each connector step or crash keeps that |
| ConnectorBase.CallMovesHome | packages/openwa-connector-plugin/src/connector.ts:125-390 | No journal call moves a record back to RECEIVED, and a record disappears only once its command has expired |
| ConnectorBase.ExpiredCommandToo | packages/openwa-connector-plugin/src/protocol.ts:111-116 | With an expiry window of at most an hour and a retention of at least an hour, a record past retention belongs to an expired command |
| EvidenceContent.EvidenceIsTruthful | packages/openwa-connector-plugin/src/journal.ts:731-784 | At every moment of every run, every stored or compacted entry and every accepted post carries the status and error of its kind: PENDING for receipt and start, ACCEPTED, FAILED with class and code for a rejection, INDETERMINATE and AMBIGUOUS with a code, and for acknowledgements their own status, with TRANSIENT_FAILURE and OPENWA_DELIVERY_FAILED only for a failed one |
| FlushProgress.FlushNeverStuck | packages/openwa-connector-plugin/src/connector.ts:357-393 | At every moment of every run a flush that is under way has a next step |
| FlushProgress.FlushDeliversAll | packages/openwa-connector-plugin/src/connector.ts:357-393 | From every reachable running state, whatever the flush of a stored command was doing, steps of its flush with answered posts alone deliver all its evidence, unchanged, and all of it is in the inbox |
| FlushProgress.OneFlushAtATime | packages/openwa-connector-plugin/src/connector.ts:361-366 | A flush is not started again while it is under way and walks one snapshot forwards, one entry at a time |
| FlushProgress.UnansweredPost | packages/openwa-connector-plugin/src/connector.ts:372-386 | After a post without an answer the flush marks nothing and goes on to nothing: its only next step notes the failure |
| FlushProgress.FailureEndsFlush | packages/openwa-connector-plugin/src/connector.ts:375-383 | Noting the failure counts one attempt of that entry and ends the flush |
| EvidenceRuns.EvidenceArrivesInOrder | packages/openwa-connector-plugin/src/connector.ts:356-390 | For every stored or compacted record, at every moment of every run with failed posts and crashes: the delivered entries are a prefix; the accepted posts without repeated event ids are a prefix of the evidence numbered 1, 2, 3, ...; the inbox is at most one entry ahead of the marks |
| EvidenceStreams.StreamOfCommand | packages/openwa-connector-plugin/src/connector.ts:356-390 | At every moment of every run the accepted posts of a command, without repeated event ids, are the full evidence of its compacted records in order of compaction, followed by a prefix of the evidence of its stored record |
| EvidenceStreams.PostStreamed | packages/openwa-connector-plugin/src/connector.ts:372-373 | A post of a flush repeats an earlier one or is the next entry of the stored record |
| EvidenceStreams.RemoveStreamed | packages/openwa-connector-plugin/src/journal.ts:418-438 | When a record is compacted its whole evidence has been posted |
| EvidenceRuns.PostsAreEvidence | packages/openwa-connector-plugin/src/connector.ts:373 | The inbox accepts only evidence of a stored or compacted record of the command |
| EvidenceRuns.StepOrdered | packages/openwa-connector-plugin/src/connector.ts:356-390 | Every step and crash keeps posts and delivery marks of all commands in order |
| EvidenceRuns.CallOrdered | packages/openwa-connector-plugin/src/journal.ts:324-349 | So does every journal call, finished or cut short |
| EvidenceRuns.MarkDelivers | packages/openwa-connector-plugin/src/connector.ts:374 | Marking without an error leaves the entry delivered on disk |
| EvidenceOrder.EvolveOrdered | packages/openwa-connector-plugin/src/journal.ts:731-784 | Later versions of the stored record keep the order while a flush walks an older snapshot |
| EvidenceOrder.RemoveOrdered | packages/openwa-connector-plugin/src/journal.ts:418-438 | Compacting a fully delivered record keeps it |
| EvidenceOrder.OwnPost | packages/openwa-connector-plugin/src/connector.ts:372-373 | Posting the next undelivered entry of the snapshot comes after posts of everything in front of it |
| EvidenceOrder.AcceptedPrefix | packages/openwa-connector-plugin/src/connector.ts:367-388 | When no entry is posted before the one in front of it, the de-duplicated posts are exactly a prefix of the evidence |
| Mutex.AtMostOneRuns | packages/openwa-connector-plugin/src/mutex.ts:1-17 | At every moment of every run at most one operation is in progress |
| Mutex.StartsInTurn | packages/openwa-connector-plugin/src/mutex.ts:1-17 | Operations start in call order, each after every earlier one has started and ended, thrown or not |
| Mutex.NeverStuck | packages/openwa-connector-plugin/src/mutex.ts:12-16 | While calls wait and none runs, exactly the first waiting one can begin, also after operations that threw |
| Mutex.AsyncMutex.Call | packages/openwa-connector-plugin/src/mutex.ts:5-9 | Takes the current tail as its predecessor and leaves a fresh promise as the tail |
| Mutex.AsyncMutex.Continue | packages/openwa-connector-plugin/src/mutex.ts:10-12 | Begins the operation once the predecessor is released |
| Mutex.AsyncMutex.Release | packages/openwa-connector-plugin/src/mutex.ts:13-15 | Releases its promise however the operation ended |
| Bindings.BindingHistoryIsFunction | packages/openwa-connector-plugin/src/bindings.ts:57-88 | Over all persisted lists of a run no generation is retained with two webhook ids, an evicted generation never returns, lists ascend strictly with at most 32 entries, and the newest generation never decreases |
| Bindings.BindingStore.Apply | packages/openwa-connector-plugin/src/bindings.ts:57-88 | Keeps the newest 32 of the old and new bindings, reports whether anything changed, persists exactly then, keeps the history of stored lists, and changes nothing on a conflict |
| Bindings.BindingStore.Load | packages/openwa-connector-plugin/src/bindings.ts:31-47 | The valid bindings of its own session's list in order of generation, the last 32; a list this store wrote as it was; nothing for another session |
| Bindings.BindingStore.Keep | packages/openwa-connector-plugin/src/bindings.ts:74-85 | A changed list is stored and logged; what is stored stays the last list logged, and the lists logged stay a history in the sense of the theorem above |
| Bindings.BindingStore.Current | packages/openwa-connector-plugin/src/bindings.ts:49-51 | The binding with the largest retained generation |
| Bindings.BindingStore.Find | packages/openwa-connector-plugin/src/bindings.ts:53-55 | The retained binding of a generation, if there is one |
| Bindings.AbsorbFails | packages/openwa-connector-plugin/src/bindings.ts:65-72 | Applying bindings fails if and only if two of the known and incoming ones give one generation to different webhooks or connectors |
| Bindings.AbsorbTakesLast | packages/openwa-connector-plugin/src/bindings.ts:64-73 | Otherwise each generation stands for the last binding that came in for it, or for what was known |
| Bindings.KeptMeans | packages/openwa-connector-plugin/src/bindings.ts:74-77 | What is kept is strictly ascending and holds all known generations up to 32, and then the newest 32 |
| Bindings.AppliesLater | packages/openwa-connector-plugin/src/bindings.ts:65-76 | One application keeps what every retained generation stands for and never brings back an evicted one |
| FeatureCycles.FindFeatureCycles | services/runtime/scripts/check-architecture.ts:78-101 | For every finite edge map: every list returned is a closed walk along the edges that passes no feature twice, every cycle of the map passes the last edge of one of the lists, so that the map is acyclic without those edges, and nothing is returned exactly when the map has no cycle |
| FeatureCycles.Search.Visit | services/runtime/scripts/check-architecture.ts:84-97 | A visit terminates, restores the stack, and leaves the feature and everything finished before in topological order, but for edges that close a reported cycle |
| FeatureCycles.StackClosesCycle | services/runtime/scripts/check-architecture.ts:85-88 | An active dependency of the top of the stack closes a real cycle |
| FeatureCycles.FirstDifferenceDecides | services/runtime/scripts/check-architecture.ts:99 | Features are searched in the order of code units: the first difference decides and a prefix comes first |
| FeatureCycles.AcyclicWithout | services/runtime/scripts/check-architecture.ts:78-101 | When every cycle passes the last edge of a reported list, the edge map without those edges has no cycle |
| FeatureCycles.NoCycleInOrder | services/runtime/scripts/check-architecture.ts:78-101 | A topological order of all keys, but for the closing edges of the reported lists, leaves only cycles that pass such an edge |
| Backups.BackupDirectory.RotateBackups | apps/studio/src-tauri/src/managed_runtime/postgres.rs:1830-1852 | Keeps, in each class (automatic 7, manual 5, safety 3), the best backups by credible and timestamp, manual counting as credible, and removes nothing else |
| BackupPolicy.RotationMeans | apps/studio/src-tauri/src/managed_runtime/postgres.rs:1830-1860 | By kind and timestamp: seven automatic, five manual and three safety backups stay, or all there are, and none that goes is better than one of its class that stays, where up to five minutes ahead of now beats further ahead and then later beats earlier; manual ones go by timestamp alone |
| BackupPolicy.RotationUnique | apps/studio/src-tauri/src/managed_runtime/postgres.rs:1830-1860 | With distinct timestamps in each class exactly one outcome of a rotation is possible |
| BackupPolicy.RotationIdempotent | apps/studio/src-tauri/src/managed_runtime/postgres.rs:1830-1852 | Rotating again, even at another time, removes nothing |
| BackupPolicy.SurplusLeavesBest | apps/studio/src-tauri/src/managed_runtime/postgres.rs:1833-1848 | Counting down a listing sorted by class and rank drops exactly what is not among the best of its class |
| Backups.BackupDirectory.EnforceByteBudget | apps/studio/src-tauri/src/managed_runtime/postgres.rs:1727-1783 | Removes exactly the shortest stretch, automatic first and then oldest, of the non-manual, unprotected backups that brings the running total within budget, and fails only when all of them are gone and it is still exceeded; whatever the sizes |
| BackupPolicy.PruningMeans | apps/studio/src-tauri/src/managed_runtime/postgres.rs:1761-1776 | By kind and timestamp: pruning takes nothing manual or protected, no safety backup while an unprotected automatic one is left, and among unprotected ones of either sort the oldest |
| BackupPolicy.NewestAreKept | apps/studio/src-tauri/src/managed_runtime/postgres.rs:1740-1760 | Whatever is pruned, a recovery point and a safety backup that are no worse than any there were are kept |
| BackupPolicy.PruningUnique | apps/studio/src-tauri/src/managed_runtime/postgres.rs:1761-1776 | With distinct keys the outcome of pruning is determined by the files, the protected backups and the budget |
| BackupPolicy.CountedIsTotal | apps/studio/src-tauri/src/managed_runtime/postgres.rs:1730-1776 | While the sizes sum to less than 2^64 the saturating running total is the true non-manual total of what is left |
| BackupPolicy.PruningSucceedsIff | apps/studio/src-tauri/src/managed_runtime/postgres.rs:1761-1782 | Then pruning succeeds if and only if the protected backups alone are within budget, and they and the manual ones always survive |
| Backups.BackupDirectory.Prune | apps/studio/src-tauri/src/managed_runtime/postgres.rs:1761-1782 | The loop over the sorted listing: true running total, protected paths skipped, stop at the budget |
| Backups.RetainedBytes | apps/studio/src-tauri/src/managed_runtime/postgres.rs:1730-1735 | The saturated sum of the non-manual sizes |
| Backups.NewestOf | apps/studio/src-tauri/src/managed_runtime/postgres.rs:1740-1760 | A wanted backup that no wanted one outranks, or none when there is none |
| Backups.BackupDirectory.EnsureFits | apps/studio/src-tauri/src/managed_runtime/postgres.rs:1701-1725 | Accepts exactly when the new size, with the newest safety backup by timestamp unless the new one is a safety backup, is within budget |
| Backups.PreflightImpliesSuccess | apps/studio/src-tauri/src/managed_runtime/postgres.rs:641-668 | For a new automatic or safety backup newer than all credible ones, with credible distinct safety timestamps and a total below 2^64: if the size check accepts, the rotation and the pruning succeed within budget and keep the new backup, the newest safety backup and all manual ones the rotation kept |
| Backups.CommitFitsIff | apps/studio/src-tauri/src/managed_runtime/postgres.rs:641-668 | For a new automatic or safety backup newer than all credible ones and a total below 2^64, credible safety timestamps or not: the budget is met after the commit if and only if it covers the new backup together with, unless that is a safety backup, the earlier safety backup that is best by credibility and timestamp |
| Backups.CredibleBest | apps/studio/src-tauri/src/managed_runtime/postgres.rs:1708-1758 | With credible, distinct safety timestamps the check and the pruning mean the same safety backup |
| Backups.BackupDirectory.Commit | apps/studio/src-tauri/src/managed_runtime/postgres.rs:641-668 | Check, commit, optional rotation and budget in that order: refused exactly by the check and then unchanged, otherwise done exactly on the condition above, with the new and the protected safety backup kept in any case |
| Backups.FutureSafetyBackup | apps/studio/src-tauri/src/managed_runtime/postgres.rs:1662-1783 | On a disk of 20 GiB, a commit that the check accepts and the budget then refuses, because the newest safety timestamp is not credible |
| Backups.TopSurvives | apps/studio/src-tauri/src/managed_runtime/postgres.rs:1830-1852 | The best backup of a class survives rotation |
| BackupPolicy.StorageBudgetBounds | apps/studio/src-tauri/src/managed_runtime/postgres.rs:1694-1699 | The budget fits one backup of the estimated size; otherwise it is a twentieth of the disk, raised to 2 GiB or lowered to 8 GiB, and never more than the disk |
| BackupPolicy.EstimateBounds | apps/studio/src-tauri/src/managed_runtime/postgres.rs:1668-1692 | The estimate is half as much again as the latest backup, or the size of the database without one, and at least 64 MiB |
| BackupNames.NameRoundTrip | apps/studio/src-tauri/src/managed_runtime/postgres.rs:1601-1618 | For every purpose, every version text and every 64-bit timestamp, parsing the printed name returns the kind and the timestamp |
| BackupNames.NamesDiffer | apps/studio/src-tauri/src/managed_runtime/postgres.rs:614 | Backups of different kinds or times never share a name |
| BackupNames.PartialIsNotABackup | apps/studio/src-tauri/src/managed_runtime/postgres.rs:615 | The name of a backup still being written is not recognised |
| BackupNames.RecognisedIff | apps/studio/src-tauri/src/managed_runtime/postgres.rs:1601-1618 | A name is recognised if and only if it is automatic, manual or begins with one of the three safety prefixes, followed by a dash, a 64-bit number with at most one plus sign, and .dump.age |
| BackupNames.RecognisedShape | apps/studio/src-tauri/src/managed_runtime/postgres.rs:1601-1618 | A recognised name is a known prefix, a dash, a 64-bit number and the suffix, nothing else |
| BackupNames.SafeFilenameComponent | apps/studio/src-tauri/src/managed_runtime/postgres.rs:1150-1161 | Keeps the length and every permitted character, and leaves only permitted characters |
| BackupNames.DecimalRoundTrip | apps/studio/src-tauri/src/managed_runtime/postgres.rs:1617 | Folding the printed digits with overflow checks returns the number |
| RotatingLog.LogIsSuffix | apps/studio/src-tauri/src/managed_runtime/observability.rs:48-118 | Over every run of appends and reopens, whatever the settings: the archives oldest first and then the current file are the end of everything appended, and at most maxArchives + 1 files exist |
| RotatingLog.LimitHoldsIff | apps/studio/src-tauri/src/managed_runtime/observability.rs:73-118 | Each file is within the limit or a single line, over all runs, if and only if there is at least one archive and the limit is below the largest 64-bit number |
| RotatingLog.TwoLongLines | apps/studio/src-tauri/src/managed_runtime/observability.rs:94-117 | Otherwise two lines as long as the limit end up in one file |
| RotatingLog.OpenMeans | apps/studio/src-tauri/src/managed_runtime/observability.rs:48-71 | Opening leaves all files in place and counts the current one while that is below the limit; otherwise, with archives, every file moves on by one |
| RotatingLog.AppendMeans | apps/studio/src-tauri/src/managed_runtime/observability.rs:73-92 | A line goes to the end of the current file, and nothing else changes, when it fits there or the file is empty; otherwise, with archives, every file moves on by one first |
| RotatingLog.RotatingLog.Open | apps/studio/src-tauri/src/managed_runtime/observability.rs:48-71 | Reopening counts the bytes of the current file and rotates a full one |
| RotatingLog.RotatingLog.Append | apps/studio/src-tauri/src/managed_runtime/observability.rs:73-92 | Makes room first and then adds the whole line to the current file |
| RotatingLog.RotatingLog.Rotate | apps/studio/src-tauri/src/managed_runtime/observability.rs:94-117 | The renaming loop moves every file up by one, drops the oldest and opens an empty current file |
| RotatingLog.RotateTraces | apps/studio/src-tauri/src/managed_runtime/observability.rs:94-117 | A rotation loses only the oldest archive |
| RotatingLog.AppendTraces | apps/studio/src-tauri/src/managed_runtime/observability.rs:73-92 | An append extends the kept end of the log by its line |
| RotatingLog.AppendSizes | apps/studio/src-tauri/src/managed_runtime/observability.rs:73-92 | With an archive, an append keeps every file within the limit or a single line, and the byte count right |
| RestartBudget.AtMostThreePerWindow | apps/studio/src-tauri/src/managed_runtime/state.rs:27-65 | For every nondecreasing sequence of calls any half-open window of five minutes holds at most three grants |
| RestartBudget.DelaysInOrder | apps/studio/src-tauri/src/managed_runtime/state.rs:27-65 | The first restart in five minutes is delayed by one second, the second by two, the third by four, and a fourth is refused; exactly the granted ones count |
| RestartBudget.ThreeInFiveMinutes | apps/studio/src-tauri/src/managed_runtime/state.rs:27-65 | No five minutes, wherever they begin, hold more than three granted restarts |
| RestartBudget.RefusedAtThree | apps/studio/src-tauri/src/managed_runtime/state.rs:27-65 | A call is refused exactly when three grants lie in the five minutes before it |
| RestartBudget.RestartBudget.Plan | apps/studio/src-tauri/src/managed_runtime/state.rs:51-65 | The deque answers as the whole history of grants would: the delay for the number of grants in the window, or a refusal |
| RestartBudget.ManagedRuntimeState.PlanAutoRestart | apps/studio/src-tauri/src/managed_runtime/state.rs:332-354 | Cancelled exactly while stopping or while a restart is pending, and then without using up a grant; otherwise decided by the budget, with a new retry only after the last one finished |
| RestartBudget.ManagedRuntimeState.FinishAutoRestart | apps/studio/src-tauri/src/managed_runtime/state.rs:360-362 | Ends the pending restart, so no delayed restart goes ahead any more |

## Left out

- Connector (connector.ts): `handleIngress`, `execute`, `flushCommand` and the others are steps of a state machine over
  values, cut at each await and between checks, because they interleave; the fields `activeCommands`,
  `flushingCommands` and `resumable` are parts of the state and not fields of a class, so updates of them inside one
  synchronous stretch are one step.
- `flushRequested`: a flush of a command may start at any time while none runs, which covers repeated flushes and
  `flushPending`; the order in which pending records are flushed is not modelled.
- `receiveCommand`: compaction under pressure is an ordinary compaction step between two ingress steps.
- Pointer, message and acknowledgement buckets: each write changes the entries of one shard, so the indexes are single
  maps; only the eviction of parked acknowledgements writes shard by shard.
- Storage utilization and its threshold are parameters of `Receive`; `pendingRecords`, `stats`, health messages,
  `blockedReason` and `lastError` are not modelled.
- Dates that do not parse, corrupt stored values and schema versions of the journal.
- Disabling and re-enabling one connector instance; HTTP, heartbeat bodies, URL and UUID checks and schema validation: a
  post may reach the inbox with or without an answer, a media check has one of three verdicts.
- AckRuns.AcknowledgementsConfluent: is about runs without crashes, and about messages of which no acknowledgement was
  turned away, evicted, or removed with its index; these are collected in `lost`.
- Backups: encryption, pg_dump, manifests, permissions, failed file operations, and the rotation and space check before a
  backup is written. Removing a backup takes its manifest with it.
- Backups.BackupDirectory.Commit: reads one clock value; postgres.rs reads the clock again for the rotation and for the
  budget.
- RotatingLog.LogIsSuffix: a file is the sequence of lines written to it; lines cut short by a failed write are not
  modelled.
- `analyzeArchitecture`: reading source files, `permits` and `sourceArea`; the edge map is a parameter.
- `ManagedRuntimeState`: processes, locks and phases; `RestartBudget.ManagedRuntimeState` keeps the two flags and the
  budget, and a call is one step.
- Redaction of log entries, `lifecycle.rs`, `provisioning_routes.rs`, `secret_store.rs`, `mod.rs`, windows, user interface
  and services: they would add only single-branch members.
