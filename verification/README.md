# Shared notifications, clipboard ordering and pairing: a verified model

This project models the parts of Edge KVM whose correctness depends on order: the replicated
notification history of `edge-receiver-linux`, the phone and desktop adapters around it, the
paste barrier of the Windows controller, the background clipboard reader, the log date
conversion and the rate limit of the pairing window. `dafny verify dfyconfig.toml` checks it.

**The history.** One machine owns the durable list of notification records; the others keep a
copy and an outbox of operations they accepted and the owner may not have yet. `StoreSpec` says
what merging an operation, queueing a local change and overlaying the outbox mean;
`OverlayLaws`, `JoinLaws`, `OwnerChange` and `FirstSetup` prove what follows, and exactly what
is accepted. `AnyPeer` states each answer of a link end to whatever a peer sends. `StoreObject`,
`StartObject` and `LinkObject` are the objects that do it in place, each method proved to have
the specified effect. `LinkSpec` and `Network` make one replica and its owner a step system:
memory and disk on both sides, a FIFO channel each way, link ends that notice, fill, transmit and deliver,
nodes that crash and reload, links that drop and reconnect, and writes with three outcomes:
confirmed, not done, or done and reported as failed, because the directory sync runs after the
rename. A commit and its announcement to the link ends are two steps. What either machine does
on its own (posts, dismissals, whole phone snapshots) is a batch queued under its own counter
and written once; what other replicas do appears as arbitrary accepted submissions. The
invariant (`NetworkInvariant`) explains what is in flight as a list of settings, receipts and
whole snapshots; `NetworkOwnerSteps`, `NetworkOwnerReceives`, `NetworkReplicaSteps` and
`NetworkReplicaReceives` show that every step keeps it. `NetworkRuns`, `NetworkStream`,
`NetworkSubmissions`, `NetworkCounters`, `NetworkTombstones` and `NetworkKeys` draw the
conclusions over whole runs, `NetworkProgress` shows that every schedule of a pair that is left
alone ends in agreement, `NetworkCapacity` what a full history leads to, and
`LinkRefinement` that the link end's own call for its next event is such a run.
`SnapshotBudget` is the stage between a session and its link end: the same stream within a byte
budget, with the reason for every refusal; `StageStream` shows which of those reasons the other
machine's stream can ever meet.

**Phones and desktops.** `PhoneSpec`, `PhoneLaws`, `PhoneRuns`, `PhoneSnapshots`,
`PhoneAcceptance` and `PhoneObject` treat phone ids that are reused, the lifetime each one
currently stands for, and authoritative snapshots with anything else happening in between.
`Mirror` compares the incremental desktop mirror of a phone with clearing and redrawing, on a
desktop whose calls fail and which may restart at any call; `PictureLaws` says what stands in
the redrawn picture. `Bridge` treats the pass that brings silent copies in
line with the view, and the closures the desktop reports back; `BridgeRuns` runs a bridge beside
the whole system and shows that the callbacks of its own closes never reach the history.

**Small algorithms.** `PasteBarrier` and `PasteObject` (input held while clipboard data is
under way), `ClipboardRead` (merged and overtaken reads), `CivilDate` and `Timestamp`,
`Pairing`.

Five things the proofs bring out:

- A failed write of the store can still be on disk. Nothing is acknowledged or shown then, but
  a restart finds the change; the account of accepted operations includes it from there on.
- A comment at `apps/edge-receiver-linux/src/notification_hub.rs:1145` says the owner sends its
  snapshot before the receipt. The receipt is queued first, and the snapshot follows when the
  change is noticed; the model does what the code does, and a replica stays correct because it
  applies the operation to its records when the receipt arrives.
- `NotificationMirror::restore` is right when it is used first, and in the other cases
  `RestoreExactlyWhenTimely` names; after posts and a daemon restart it attributes old entry
  numbers to the new daemon.
- In the paste barrier, the id of an image whose transfer the peer cancelled stays noted, so
  the next paste of that image waits out the five-second deadline with nothing under way; and
  an image sent last is pasted without a new offer even when a short text was offered after it.
- Keys are never forgotten, so a replica whose records and outbox name more than MAX_RECORDS
  keys accepts no change of its own again, dismissals included (`CrowdedForGood`). It gets
  there when the owner's history is full and it has one key more to submit (`CrowdingHappens`).

The plan for shared notifications says only a verified user dismissal becomes a dismissal; the
bridge also dismisses the shell's own entries when they expire or are closed by a call. The
model follows the code.

## Model

| member | source | states |
|---|---|---|
| `StoreSpec.AttemptLookup` | apps/edge-receiver-linux/src/notification_hub.rs:59-97 | one operation changes only its own key's record, and that one as the merge rule says: dead stays dead, a removal always wins, content wins only with a higher sequence, a new key only while there is room |
| `StoreSpec.AttemptKeepsValid` | apps/edge-receiver-linux/src/notification_hub.rs:59-97 | keys stay unique and within the limit, records keep their place, nothing is revived and live content never gets older |
| `StoreSpec.ApplySubsumes` | apps/edge-receiver-linux/src/notification_hub.rs:59-97 | an accepted operation is reflected by the records afterwards |
| `StoreSpec.SubsumedIffUnchanged` | apps/edge-receiver-linux/src/notification_hub.rs:59-97 | a repeated operation is accepted without a change exactly when the records already reflect it |
| `JoinLaws.ReplayIsJoin` | apps/edge-receiver-linux/src/notification_hub.rs:59-97 | below capacity, replaying any list of operations gives each key the status an order-free description demands: dismissed if anything dismissed it, else the highest-sequenced content |
| `JoinLaws.JoinUnique` | apps/edge-receiver-linux/src/notification_hub.rs:59-97 | when a sequence determines its content, that description leaves only one status |
| `JoinLaws.ApplyIsJoin` | apps/edge-receiver-linux/src/notification_hub.rs:59-97 | hence any reordering and repetition of the same operations, from one or many senders, leads every key to the same status |
| `OverlayLaws.OverlayAt` | apps/edge-receiver-linux/src/notification_hub.rs:156-163 | the view shows a queued operation's key as that one operation merged into the committed record |
| `OverlayLaws.OverlayElsewhere` | apps/edge-receiver-linux/src/notification_hub.rs:156-163 | and every other key as committed |
| `OverlayLaws.RecordMatchesView` | apps/edge-receiver-linux/src/notification_hub.rs:142-163 | the single-key lookup equals looking the key up in the whole view if and only if the key does not wait in the outbox for a place that a full view cannot give it |
| `OverlayLaws.WithinCapacityNotCrowded` | apps/edge-receiver-linux/src/notification_hub.rs:142-163 | with at most MAX_RECORDS distinct keys in records and outbox that case does not arise |
| `OverlayLaws.QueueShowsRequest` | apps/edge-receiver-linux/src/notification_hub.rs:98-141 | with a counter ahead of its own live records, as every reachable store has, an accepted local change shows exactly the requested content for its key, leaves every other key of the view alone and uses one sequence number; a redundant one changes nothing at all; the store stays valid and its counter ahead |
| `OverlayLaws.QueueKeepsValid` | apps/edge-receiver-linux/src/notification_hub.rs:98-141 | the outbox keeps one valid operation per key, in increasing sequence order, never above the counter, and at most MAX_PENDING |
| `OverlayLaws.ChangeAcceptedExactlyWhen` | apps/edge-receiver-linux/src/notification_hub.rs:98-141 | in either role, what the view shows already is accepted without a trace; any other post, update or dismissal gets the next number if and only if the counter is not exhausted, the key is valid, any content is valid and under the own name, and records or outbox have room; otherwise the first of these that fails is the error |
| `OverlayLaws.AppliedExactlyWhen` | apps/edge-receiver-linux/src/notification_hub.rs:59-97 | a peer's operation is accepted if and only if its key and number are valid, any content is valid and under the peer's own name, and the key is known or finds room; otherwise the first that fails is the error |
| `OverlayLaws.RemovalNeverReplaced` | apps/edge-receiver-linux/src/notification_hub.rs:104-109 | a dismissal waiting in the outbox is never replaced by new content |
| `StoreObject.Store.Apply` | apps/edge-receiver-linux/src/notification_hub.rs:59-97 | the in-place merge, with its five refusals, is the merge function on the old records; a refused operation leaves them alone |
| `StoreObject.Store.View` | apps/edge-receiver-linux/src/notification_hub.rs:156-163 | the loop over a clone that ignores refusals builds the overlay of the outbox on the records and leaves the store alone |
| `StoreObject.Store.RecordOf` | apps/edge-receiver-linux/src/notification_hub.rs:142-155 | the shortcut over a one-record store is the single-key view |
| `StoreObject.Store.QueueLocal` | apps/edge-receiver-linux/src/notification_hub.rs:98-141 | the in-place local change is the queueing function, whose acceptance and refusals OverlayLaws.ChangeAcceptedExactlyWhen states |
| `OwnerChange.DrainIsOverlay` | apps/edge-receiver-linux/src/notification_hub.rs:578-582 | draining a valid outbox refuses nothing and leaves exactly what the view showed |
| `OwnerChange.DrainedExactlyWhen` | apps/edge-receiver-linux/src/notification_hub.rs:578-582 | any outbox at all is committed in order if and only if each operation is acceptable after those before it; otherwise the first refusal is the error |
| `OwnerChange.CorrectionKeepsView` | apps/edge-receiver-linux/src/notification_hub.rs:51-58 | a change of history owner is refused if and only if the history is locked; otherwise the view is unchanged, and a machine that becomes the owner has committed all of it and has an empty outbox |
| `OwnerChange.OwnerStaysLocked` | apps/edge-receiver-linux/src/notification_hub.rs:566-588 | becoming the owner locks the choice |
| `OwnerChange.CorrectionRefusedExactlyWhen` | apps/edge-receiver-linux/src/notification_hub.rs:51-58 | another owner is refused if and only if an epoch is set, a record exists or a queued operation is on another machine's key; a store within its limits is never refused for another reason |
| `FirstSetup.FirstSetupKeepsEverything` | apps/edge-receiver-linux/src/notification_hub.rs:575-586 | after any batch of changes on its own keys a machine that never shared anything can become the owner, and its history then reflects every change that got a number |
| `OwnerChange.CorrectionKeepsCounter` | apps/edge-receiver-linux/src/notification_hub.rs:51-58 | a change of history owner keeps the counter ahead of the store's own live records |
| `StartObject.Locked` | apps/edge-receiver-linux/src/notification_hub.rs:51-58 | the scan decides whether an epoch, a record or a queued operation on another machine's key locks the choice |
| `StartObject.DrainOutbox` | apps/edge-receiver-linux/src/notification_hub.rs:575-582 | the loop commits the outbox in order and stops at the first refusal |
| `StartObject.StartUnder` | apps/edge-receiver-linux/src/notification_hub.rs:566-593 | starting on a loaded store gives the specified store or error; the change of owner is refused if and only if an epoch, a record or a queued operation on another machine's key stands against it |
| `LinkObject.NotificationHub.Persist` | apps/edge-receiver-linux/src/notification_hub.rs:739-761 | the write happens, does not happen, or happens and is reported as failed because the directory could not be synced |
| `LinkObject.NotificationHub.Replace` | apps/edge-receiver-linux/src/notification_hub.rs:767-778 | only a confirmed write changes the state in memory and publishes a new generation |
| `LinkObject.NotificationHub.Local` | apps/edge-receiver-linux/src/notification_hub.rs:767-778 | a local change is queued on a copy, written, made current and announced in that order; a refusal or failed write leaves memory alone |
| `LinkObject.NotificationLink.constructor` | apps/edge-receiver-linux/src/notification_hub.rs:792-815 | a new link end owes its settings and has a change to look at |
| `LinkObject.NotificationLink.FillOutgoing` | apps/edge-receiver-linux/src/notification_hub.rs:1063-1101 | an owner queues one whole snapshot, a replica the outbox operations above what this link already sent |
| `LinkObject.NotificationLink.Next` | apps/edge-receiver-linux/src/notification_hub.rs:1063-1101 | the next event and the link afterwards are those of the specification, over any number of changes |
| `LinkObject.NotificationLink.ReceiveSubmit` | apps/edge-receiver-linux/src/notification_hub.rs:1118-1137 | an operation is applied for the authenticated peer, persisted if it changed anything, and only then acknowledged |
| `LinkObject.NotificationLink.ReceiveAck` | apps/edge-receiver-linux/src/notification_hub.rs:1138-1154 | a receipt moves the operation from the outbox into the records in one write |
| `LinkObject.NotificationLink.ReceiveStart` | apps/edge-receiver-linux/src/notification_hub.rs:1155-1167 | a snapshot of another epoch or inside another snapshot is an error |
| `LinkObject.NotificationLink.ReceiveRecord` | apps/edge-receiver-linux/src/notification_hub.rs:1168-1182 | records are validated and staged, at most MAX_RECORDS with distinct keys |
| `LinkObject.NotificationLink.ReceiveEnd` | apps/edge-receiver-linux/src/notification_hub.rs:1183-1200 | the end replaces epoch and records in one write, or does nothing when they already agree |
| `LinkObject.NotificationLink.Receive` | apps/edge-receiver-linux/src/notification_hub.rs:1102-1203 | every event, in either role and before or after agreement, has the specified effect on hub, disk and link, or the specified error |
| `AnyPeer.SettingsTakenExactlyWhen` | apps/edge-receiver-linux/src/notification_hub.rs:1103-1112 | settings are accepted, and make the end agree, if and only if they name this machine's history owner |
| `AnyPeer.WrongAuthorityExactlyWhen` | apps/edge-receiver-linux/src/notification_hub.rs:1117-1201 | an owner takes operations only, a replica everything but operations |
| `AnyPeer.StartTakenExactlyWhen` | apps/edge-receiver-linux/src/notification_hub.rs:1155-1167 | a snapshot begins if and only if its epoch is well formed and the history's own or its first, and none is running; a reset owner is named as such |
| `AnyPeer.RecordTakenExactlyWhen` | apps/edge-receiver-linux/src/notification_hub.rs:1168-1182 | a record is staged if and only if it is valid, inside a snapshot, within the limit and on a new key |
| `AnyPeer.EndOutcome` | apps/edge-receiver-linux/src/notification_hub.rs:1183-1199 | the end replaces epoch and records in one write, and needs none when they agree already |
| `AnyPeer.UnknownReceipt` | apps/edge-receiver-linux/src/notification_hub.rs:1138-1144 | a receipt for nothing that is queued changes nothing |
| `AnyPeer.SubmitAcknowledgedExactlyWhen` | apps/edge-receiver-linux/src/notification_hub.rs:1118-1137 | an operation is acknowledged if and only if it is acceptable, the output queue has room and, unless the records reflect it already, the write is confirmed |
| `AnyPeer.WhateverArrives` | apps/edge-receiver-linux/src/notification_hub.rs:1102-1203 | whatever a peer sends in whatever order, with whatever writes failing, records in memory, on disk and staged stay valid, unique and within the limit, and a history once begun keeps its epoch in memory and on disk |
| `AnyPeer.OnlyOwnContent` | apps/edge-receiver-linux/src/notification_hub.rs:59-97 | a peer can only dismiss, never change or add, what is not under its own name |
| `AnyPeer.NothingBeforeAgreement` | apps/edge-receiver-linux/src/notification_hub.rs:1063-1117 | an end hands over its settings first and then nothing until it has agreed |
| `LinkRefinement.OwnerNextIsRun` | apps/edge-receiver-linux/src/notification_hub.rs:1063-1101 | the owner's call for its next event is a run of notice, fill and transmit steps, so every guarantee about runs holds at each point where the call may be cancelled |
| `LinkRefinement.ReplicaNextIsRun` | apps/edge-receiver-linux/src/notification_hub.rs:1063-1101 | the same for the replica's call |
| `NetworkRuns.InitHolds` | apps/edge-receiver-linux/src/notification_hub.rs:527-674 | the starting states satisfy the protocol invariant |
| `NetworkRuns.NextKeeps` | apps/edge-receiver-linux/src/notification_hub.rs:1063-1203 | each of the eighteen steps keeps the protocol invariant: batches of local changes and phone metadata on either side, foreign commits, announcements, notice, fill, transmit and deliver on both sides, crashes, drops, reconnect, with every outcome of every write |
| `NetworkRuns.RunKeeps` | apps/edge-receiver-linux/src/notification_hub.rs:1063-1203 | so every reachable state satisfies it |
| `NetworkRuns.NoOperationLost` | apps/edge-receiver-linux/src/notification_hub.rs:1118-1154 | whatever a replica accepted at any point of a run is at every later point in its outbox, replaced there by a newer operation on its key, or reflected by the owner's memory and disk |
| `NetworkRuns.DurablePostIsShown` | apps/edge-receiver-linux/src/notification_hub.rs:59-97 | a post reflected at the owner is shown there, dismissed, or superseded by a newer operation the replica itself accepted: nobody else can write under its name |
| `NetworkRuns.DismissalIsFinal` | apps/edge-receiver-linux/src/notification_hub.rs:98-163 | once a replica accepted a dismissal, no later step makes its view live again for that key, nor the view its disk would give after a crash |
| `NetworkRuns.ReadYourWrites` | apps/edge-receiver-linux/src/notification_hub.rs:98-163 | an accepted post is never shown older than posted while records and outbox name at most MAX_RECORDS keys |
| `NetworkRuns.ReplicaCounterAhead` | apps/edge-receiver-linux/src/notification_hub.rs:98-141 | in every reachable state the replica's store is valid and its counter is at or above every own live record and outbox entry |
| `NetworkRuns.AcceptedForever` | apps/edge-receiver-linux/src/notification_hub.rs:767-778 | what was accepted stays in the account of accepted operations |
| `NetworkRuns.DrainedMeansSame` | apps/edge-receiver-linux/src/notification_hub.rs:1138-1199 | an owner with nothing to announce, to look at or to send to a connected replica has the replica's committed records equal to its own |
| `NetworkRuns.QuiescentMeansConverged` | apps/edge-receiver-linux/src/notification_hub.rs:1063-1203 | when neither machine owes an announcement, both ends have nothing to look at or to send and both channels are empty, the outbox is empty, both views are the same sequence of records, and everything ever accepted is durable at the owner |
| `NetworkRuns.OwnerHistoryAdvances` | apps/edge-receiver-linux/src/notification_hub.rs:59-97 | over any run the owner's history only advances |
| `NetworkRuns.OwnerTombstonesStay` | apps/edge-receiver-linux/src/notification_hub.rs:59-97 | a dismissal the owner committed, by anyone, is never revived |
| `NetworkRuns.NoProtocolErrors` | apps/edge-receiver-linux/src/notification_hub.rs:1103-1199 | in no run does the replica's link end see a nested, misplaced, foreign-epoch, duplicate or oversized snapshot or an invalid record; it stops only when its own write fails, the owner only for a full history, a failed write or a full output queue |
| `NetworkCounters.CountersAhead` | apps/edge-receiver-linux/src/notification_hub.rs:98-141 | in every reachable state both machines' counters are at or above every live record of their own, the owner's on disk as well: own changes are numbered by the counter, and nobody else can write live content under a machine's name |
| `NetworkCounters.EveryChangeShows` | apps/edge-receiver-linux/src/notification_hub.rs:98-141 | so in every reachable state, on either machine, an accepted change shows exactly what was asked for, leaves all other keys of the view alone and uses one number; a redundant one changes nothing |
| `NetworkTombstones.ShownDismissalIsFinal` | apps/edge-receiver-linux/src/notification_hub.rs:59-97 | once a replica's view shows a key dismissed, by whomever, no later step makes its view show it live, nor the view its disk would give after a crash: snapshots in flight keep every dismissal of the replica and of the ones before them |
| `NetworkKeys.RecordKeysStay` | apps/edge-receiver-linux/src/notification_hub.rs:1138-1199 | a replica's committed records never lose a key, its own or anyone's, and its disk has every key its memory has: snapshots in flight keep all keys of the replica and of the ones before them |
| `NetworkKeys.NamedStays` | apps/edge-receiver-linux/src/notification_hub.rs:98-163 | nor is a key forgotten that only the outbox names: over any run the keys of records and outbox only grow |
| `NetworkKeys.MissingMeansCrowded` | apps/edge-receiver-linux/src/notification_hub.rs:142-163 | a key the records or the outbox name is missing from the view only when they name more than MAX_RECORDS keys |
| `NetworkKeys.CrowdedForGood` | apps/edge-receiver-linux/src/notification_hub.rs:98-141 | once they do, the replica accepts no change of its own ever again, in no session and after no crash |
| `NetworkCapacity.CrowdingHappens` | apps/edge-receiver-linux/src/notification_hub.rs:1063-1199 | and it does happen: when the owner's history is full and a replica waits to submit an operation on another key, a session can bring the replica there |
| `NetworkProgress.EveryScheduleSettles` | apps/edge-receiver-linux/src/notification_hub.rs:1063-1203 | for every order of the steps a connected pair takes by itself with confirmed writes, as long as each does something: there are at most Work of them, a bound computed from the state they start in, and where no step does anything any more the outbox is empty and both machines show the same records, unless the owner stopped on the way, because its history had no room for a new key or its output queue none for a receipt |
| `NetworkProgress.Converges` | apps/edge-receiver-linux/src/notification_hub.rs:1063-1203 | such a schedule exists from every reachable state, with a reconnect first if an end is down, in which the output queue never overflows: it ends in agreement, or the owner stops because its history is full and the operation is on a new key |
| `NetworkStream.StreamAlwaysFormed` | apps/edge-receiver-linux/src/notification_hub.rs:1063-1088 | all the owner's link end ever queued is its settings followed by receipts and whole snapshots with unique keys and at most MAX_RECORDS records, history only after agreement; what is in flight is the end of that |
| `NetworkStream.ReplicaAlwaysWaits` | apps/edge-receiver-linux/src/notification_hub.rs:1103-1117 | a replica that has not seen matching settings has nothing but settings under way |
| `NetworkStream.AgreementBySettings` | apps/edge-receiver-linux/src/notification_hub.rs:1103-1117 | only matching settings make an end agree; before that every other event ends the session unchanged |
| `StageStream.OwnersStreamStages` | apps/edge-receiver-linux/src/notification_hub.rs:1250-1310 | whatever an owner's link end has queued in a run, the replica's session stage takes it in order without ever finding a snapshot nested, interrupted, misplaced, ended without a start, under a malformed epoch or too long; only a full buffer, a full queue or an ended worker refuses an event |
| `StageStream.NextArrivalStages` | apps/edge-receiver-linux/src/notification_hub.rs:1250-1310 | in particular the event about to reach the replica is the one its stage is ready for |
| `StageStream.ReplicasStreamStages` | apps/edge-receiver-linux/src/notification_hub.rs:1250-1310 | nothing a replica sends opens a snapshot at the owner's stage; only a full queue or an ended worker refuses it |
| `NetworkSubmissions.EachSubmittedOnce` | apps/edge-receiver-linux/src/notification_hub.rs:1087-1098 | from any reachable state on, one link of a replica queues its operations in strictly increasing sequence, none of them twice, whatever it notices in between |
| `PhoneLaws.InstancesDistinct` | apps/edge-receiver-linux/src/notification_hub.rs:316-366 | different phone ids never share a lifetime |
| `PhoneLaws.CommitLaw` | apps/edge-receiver-linux/src/notification_hub.rs:440-462 | metadata and notifications of one phone event are carried out together or not at all |
| `PhoneLaws.PostedLaw` | apps/edge-receiver-linux/src/notification_hub.rs:316-381 | a post keeps the lifetime of a present id and starts a new one otherwise; a dismissed lifetime stays dismissed, any other shows the content; no other record and no import changes; a failure changes nothing |
| `PhoneLaws.RemovedLaw` | apps/edge-receiver-linux/src/notification_hub.rs:382-389 | a removal ends a present id's lifetime, dismisses it and touches no other record; for any other id nothing changes |
| `PhoneLaws.EndLaw` | apps/edge-receiver-linux/src/notification_hub.rs:401-462 | the end of a complete snapshot withdraws and dismisses exactly this phone's present ids that were not sent again, and notes a named phone as imported; after any failure it changes nothing |
| `PhoneLaws.OtherPhonesAreBystanders` | apps/edge-receiver-linux/src/notification_hub.rs:419-425 | what a snapshot withdraws is never another phone's notification |
| `PhoneRuns.AfterKeeps` | apps/edge-receiver-linux/src/notification_hub.rs:279-503 | each phone event, peer submission, local batch, write failure and restart keeps the lifetimes consistent with the records and the counter ahead of them |
| `PhoneRuns.PhonesAlwaysOk` | apps/edge-receiver-linux/src/notification_hub.rs:279-503 | in every reachable state of the owner every id stands for a recorded lifetime, and one marked not present for a dismissed one |
| `PhoneRuns.DismissalSurvivesReposts` | apps/edge-receiver-linux/src/notification_hub.rs:279-503 | a dismissed phone notification stays dismissed through reposts, reconnect snapshots, failed writes and restarts until the phone withdraws the id |
| `PhoneRuns.EveryPostShows` | apps/edge-receiver-linux/src/notification_hub.rs:316-381 | in every reachable state an accepted post shows what was posted, unless the lifetime it belongs to was dismissed |
| `PhoneRuns.EventIsStep` | apps/edge-receiver-linux/src/notification_hub.rs:279-503 | a phone event on either machine is one local change of the step system, so every guarantee about runs covers phones |
| `PhoneSnapshots.SnapshotIsAuthoritative` | apps/edge-receiver-linux/src/notification_hub.rs:279-503 | when the end of a snapshot is accepted, the ids present for this phone are exactly those whose last word since the start was a post, whatever removals, repeated posts and other commits came between; no other phone's id changes by it |
| `PhoneSnapshots.FailedSnapshotWithdrawsNothing` | apps/edge-receiver-linux/src/notification_hub.rs:279-503 | after any failure inside a snapshot its end reports the failure and leaves memory and disk alone, whatever was sent or committed in between and however each write ended |
| `PhoneSnapshots.OthersAreMinded` | apps/edge-receiver-linux/src/notification_hub.rs:279-503 | peers' operations, this machine's own changes and other phones' events leave a phone's ids alone, so they may come in between |
| `PhoneAcceptance.PostAcceptedExactlyWhen` | apps/edge-receiver-linux/src/notification_hub.rs:316-381 | a post succeeds if and only if snapshot and known ids have room for its id, its lifetime's change goes through, and the write is confirmed where there is something to write |
| `PhoneAcceptance.RemovalAcceptedExactlyWhen` | apps/edge-receiver-linux/src/notification_hub.rs:382-389 | a removal succeeds if and only if the id is not present, or its dismissal goes through and is written |
| `PhoneAcceptance.SnapshotFailsExactlyWhen` | apps/edge-receiver-linux/src/notification_hub.rs:279-306 | every snapshot starts clean: whatever earlier ones did, its end is reported incomplete if and only if an event sent in it had failed |
| `PhoneAcceptance.CleanSnapshotSucceeds` | apps/edge-receiver-linux/src/notification_hub.rs:401-462 | on the owner's machine the end succeeds whenever nothing failed, the imports have room, the counter lasts for the withdrawals and the write is confirmed |
| `PhoneAcceptance.MisplacedMarkers` | apps/edge-receiver-linux/src/notification_hub.rs:401-405 | a start inside a snapshot and an end outside one are errors that leave the hub alone |
| `PhoneObject.PhoneSource.CommitChanges` | apps/edge-receiver-linux/src/notification_hub.rs:440-462 | the loop queues changes on the copy, stops at the first refusal and writes once |
| `PhoneObject.PhoneSource.ApplyPosted` | apps/edge-receiver-linux/src/notification_hub.rs:316-381 | the in-place handling of a post is the specified one, capacity errors included |
| `PhoneObject.PhoneSource.ApplyRemoved` | apps/edge-receiver-linux/src/notification_hub.rs:382-389 | the same for a removal |
| `PhoneObject.PhoneSource.WithdrawMissing` | apps/edge-receiver-linux/src/notification_hub.rs:419-425 | the loop over known ids marks and lists exactly those of this phone that were present and not sent again |
| `PhoneObject.PhoneSource.ApplyEnd` | apps/edge-receiver-linux/src/notification_hub.rs:401-426 | the same for the end of a snapshot |
| `PhoneObject.PhoneSource.Apply` | apps/edge-receiver-linux/src/notification_hub.rs:279-306 | each event has the specified effect; a start clears the mark of an earlier failure and a failure while a snapshot runs sets it |
| `Mirror.SnapshotRedraws` | apps/edge-receiver-linux/src/notifications.rs:170-218 | a complete snapshot leaves the same picture whatever was there before, as clearing and redrawing would |
| `PictureLaws.ShownExactlyWhenItStands` | apps/edge-receiver-linux/src/notifications.rs:170-218 | after any events an id is on the desktop if and only if some post of it stands, that is, no later post replaced it, no removal and no end of a snapshot started after it took it down; and with that post's content |
| `Mirror.NotificationMirror.SyncOwner` | apps/edge-receiver-linux/src/notifications.rs:127-135 | another daemon generation forgets everything; within one generation nothing changes |
| `Mirror.NotificationMirror.Post` | apps/edge-receiver-linux/src/notifications.rs:178-195 | a post is drawn in a new entry or over its own one; an identical one succeeds without a call; it fails only if a call does |
| `Mirror.NotificationMirror.Withdraw` | apps/edge-receiver-linux/src/notifications.rs:196-200 | the id's own entry is closed and forgotten even when the close fails |
| `Mirror.NotificationMirror.WithdrawMissing` | apps/edge-receiver-linux/src/notifications.rs:202-216 | everything the snapshot did not repeat is taken down |
| `Mirror.NotificationMirror.Apply` | apps/edge-receiver-linux/src/notifications.rs:170-218 | one event changes what the desktop shows of this phone exactly as the picture demands and nothing else on it, and reports failure if and only if a call or a save failed; with errors or restarts every number replaced or closed was still handed out by the generation the call names |
| `Mirror.NotificationMirror.ApplyAll` | apps/edge-receiver-linux/src/notifications.rs:170-218 | over any list of events within one generation and without errors the desktop shows one entry per id with its last content |
| `Mirror.NotificationMirror.CloseAll` | apps/edge-receiver-linux/src/notifications.rs:220-233 | without errors everything of this phone is gone from the desktop and the rest is as it was; with errors no other program's entry is touched |
| `Mirror.NotificationMirror.Restore` | apps/edge-receiver-linux/src/notifications.rs:99-125 | the cached entries are taken over if and only if the running generation wrote them, once; an unusable file is an error before anything changes |
| `Mirror.RestoreExactlyWhenTimely` | apps/edge-receiver-linux/src/notifications.rs:99-125 | a restore keeps every remembered number with the generation that gave it out if and only if the mirror is still empty, already restored, or it or the file follows the running generation |
| `Mirror.LateRestoreMisattributes` | apps/edge-receiver-linux/src/notifications.rs:99-125 | a restore after posts and a daemon restart does not: the concrete case |
| `Mirror.LateRestore` | apps/edge-receiver-linux/src/notifications.rs:99-125 | the same through the object: a new mirror that posts, sees the daemon restart and only then restores attributes an entry number to a daemon that never handed it out |
| `Mirror.Reopen` | apps/edge-receiver-linux/src/notifications.rs:99-125 | the round trip: a new mirror that restores what an earlier one saved under the running daemon shows the same entries and leaves the same others, and a repost of what is displayed makes no call |
| `Mirror.ReopenElsewhere` | apps/edge-receiver-linux/src/notifications.rs:99-125 | a cache another daemon wrote adds nothing |
| `Bridge.DisplayedExactlyWhenLive` | apps/edge-receiver-linux/src/notification_hub.rs:899-967 | after a completed pass without a failed close, a key of no phone and without a native entry is displayed if and only if it is live, once, with its current content |
| `Bridge.DesktopBridge.ReconcileRecord` | apps/edge-receiver-linux/src/notification_hub.rs:899-957 | one record's copy is closed, shown, replaced or left alone; this machine's own phone notifications are left to their mirror; a record already in order causes no call; it fails only if the desktop refuses an entry |
| `Bridge.DesktopBridge.RemoveAbsent` | apps/edge-receiver-linux/src/notification_hub.rs:958-967 | copies whose key the view does not show live are taken down, all others kept |
| `Bridge.DesktopBridge.Reconcile` | apps/edge-receiver-linux/src/notification_hub.rs:899-967 | a completed pass leaves nothing to do; a second pass over the same view makes no desktop call; every close it asked for is on record with a key that is not live and was dismissed or shown before, and its number stays unmapped |
| `Bridge.DismissalIgnoredExactlyWhenDead` | apps/edge-receiver-linux/src/notification_hub.rs:104-109 | dismissing a key allocates no operation if and only if the view shows it dead |
| `Bridge.DesktopBridge.Closed` | apps/edge-receiver-linux/src/notification_hub.rs:866-885 | a closure dismisses the shell's own entry for reasons 1 to 3, a copy only for reason 2, an unremembered one when known and allowed; nothing is allocated for an unremembered number whose key is not live, and the record of own closes stays |
| `Bridge.ClosedForGood` | apps/edge-receiver-linux/src/notification_hub.rs:936-970 | over any run of passes and closures a number the bridge closed stands for nothing again |
| `BridgeRuns.ClosureAllocatesExactlyWhen` | apps/edge-receiver-linux/src/notification_hub.rs:878-885 | a closure of an unremembered number gets a sequence number if and only if it names a valid key the view shows live now, this machine may dismiss it for that reason, the counter is not exhausted and the outbox, or on the owner the records, have room |
| `BridgeRuns.LocalTakesEffect` | apps/edge-receiver-linux/src/notification_hub.rs:767-778 | a local change that is news, allowed, numbered and has room is on disk as asked, with every other key as before, and in memory once the write is confirmed; any other, or one whose write is not done, changes nothing |
| `BridgeRuns.ClosureDismissesExactlyWhen` | apps/edge-receiver-linux/src/notification_hub.rs:878-885 | under that same condition the closure leaves the key dismissed on disk, and in memory once the write is confirmed; in every other case it changes nothing |
| `BridgeRuns.OwnClosesIgnored` | apps/edge-receiver-linux/src/notification_hub.rs:866-970 | on either machine, however passes, callbacks and steps of the whole system interleave, crashes and sessions included, the callback of any close the bridge asked for finds its number unmapped and leaves the machine's memory and disk alone, whatever reason it carries |
| `BridgeRuns.CallbackIsTurn` | apps/edge-receiver-linux/src/notification_hub.rs:866-885 | a callback closes nothing and makes no key known, so in such a run it may come at any time |
| `BridgeRuns.SpentIgnored` | apps/edge-receiver-linux/src/notification_hub.rs:866-885 | once a machine's view shows a key dismissed, or its keys do not fit, no later callback about that key changes anything |
| `SnapshotBudget.SessionLink.Reserve` | apps/edge-receiver-linux/src/notification_hub.rs:1210-1223 | a reservation takes its bytes or changes nothing, and never passes MAX_STORE_BYTES |
| `SnapshotBudget.StagedExactlyWhen` | apps/edge-receiver-linux/src/notification_hub.rs:1250-1310 | each of the nine refusals of the stage happens if and only if its own condition holds; otherwise the event is accepted |
| `SnapshotBudget.SizeBounds` | apps/edge-receiver-linux/src/notification_hub.rs:1270-1282 | a record counts for its texts, at one to four bytes a character, its body, its picture and 256 bytes |
| `SnapshotBudget.QueueIsChargedForItsRecords` | apps/edge-receiver-linux/src/notification_hub.rs:1270-1282 | what the queue is charged for is exactly the records it will hand over |
| `SnapshotBudget.SessionLink.Stage` | apps/edge-receiver-linux/src/notification_hub.rs:1265-1287 | a record is refused outside a snapshot, past MAX_RECORDS or past the byte budget, with that reason and without a change; otherwise it is staged and its bytes, texts in UTF-8, are taken |
| `SnapshotBudget.SessionLink.SendStaged` | apps/edge-receiver-linux/src/notification_hub.rs:1288-1310 | the end queues the snapshot whole; a queue that refuses it gives its bytes back |
| `SnapshotBudget.SessionLink.Enqueue` | apps/edge-receiver-linux/src/notification_hub.rs:1250-1311 | an event is accepted or refused for exactly the reason the accepted events so far, the queue, the budget and the worker give; after it, refused or not, the counter equals the bytes staged, queued and being applied |
| `SnapshotBudget.SessionLink.StopWorker` | apps/edge-receiver-linux/src/notification_hub.rs:1336-1340 | when the worker ends, all it held and all that was queued is given back |
| `SnapshotBudget.SessionLink.Drop` | apps/edge-receiver-linux/src/notification_hub.rs:1224-1228 | dropping the session returns every byte |
| `SnapshotBudget.SessionLink.Receive` | apps/edge-receiver-linux/src/notification_hub.rs:1370-1378 | the session ends exactly when the stage refuses the event, and then the counter is zero |
| `SnapshotBudget.SessionLink.Work` | apps/edge-receiver-linux/src/notification_hub.rs:1312-1346 | unless it has ended or has nothing, the worker hands the link end exactly the next accepted event, gives a snapshot's bytes back only when it was taken whole or failed, and an idle session uses no bytes |
| `ClipboardRead.AlwaysCovered` | apps/edge-receiver-linux/src/main.rs:5151-5218 | under every interleaving at most one read executes, and every request is covered by a passed-on read started no earlier, by such a read still running, or by a running read that another will follow |
| `ClipboardRead.IdleMeansRead` | apps/edge-receiver-linux/src/main.rs:5151-5218 | an idle reader has passed on a read started no earlier than any request |
| `ClipboardRead.EveryChangeIsRead` | apps/edge-receiver-linux/src/main.rs:5151-5218 | over any list of events, a reader at rest has passed on a read begun after every local change in it |
| `ClipboardRead.PassedOnExactlyWhenCurrent` | apps/edge-receiver-linux/src/main.rs:5206-5218 | a finished read is passed on if and only if it started after the last remote write; otherwise a new one starts at once |
| `ClipboardRead.TwoCompletionsSettle` | apps/edge-receiver-linux/src/main.rs:5206-5218 | without further events two completions are enough to become idle |
| `ClipboardRead.BackgroundClipboardRead.Request` | apps/edge-receiver-linux/src/main.rs:5160-5171 | a request starts a read only when none is running |
| `ClipboardRead.BackgroundClipboardRead.Finished` | apps/edge-receiver-linux/src/main.rs:5174-5189 | the finished read is taken up and nothing is in flight |
| `ClipboardRead.Accept` | apps/edge-receiver-linux/src/main.rs:5206-5218 | acceptance is the specified step |
| `CivilDate.EraSplit` | apps/edge-receiver-linux/src/main.rs:3247-3252 | within 400 years the two divisions find the right year, its day and where a 29 February is possible |
| `CivilDate.CivilIsThatDay` | apps/edge-receiver-linux/src/main.rs:3247-3262 | for every integer the result is a calendar date under the leap rule of Appendix C of RFC 3339, and counting days up to it gives the integer back |
| `CivilDate.DayIsThatCivil` | apps/edge-receiver-linux/src/main.rs:3247-3262 | and every calendar date is found from its day count: the two are inverse |
| `CivilDate.NextDayIsNextDate` | apps/edge-receiver-linux/src/main.rs:3247-3262 | the next integer is the next date of the calendar |
| `CivilDate.Epoch` | apps/edge-receiver-linux/src/main.rs:3245-3247 | day 0 is 1 January 1970 |
| `Timestamp.TimestampReadsBack` | apps/edge-receiver-linux/src/main.rs:3230-3243 | for every time before the year 10000 the text has the shape of section 5.6 of RFC 3339, in-range fields, and reads back to the time to the millisecond; times before 1970 count as 1970 |
| `Timestamp.PaddedReads` | apps/edge-receiver-linux/src/main.rs:3236-3242 | a padded number below its width's limit takes exactly that many digits and reads back |
| `Pairing.RateBound` | apps/edge-receiver-linux/src/phone_pairing.rs:82-103 | over any span at most 3 plus its whole seconds of wrong tokens from one address are evaluated, in any run with times in order |
| `Pairing.WindowBound` | apps/edge-receiver-linux/src/phone_pairing.rs:82-103 | hence at most 302 in a window |
| `Pairing.BoundIsReached` | apps/edge-receiver-linux/src/phone_pairing.rs:82-103 | and a patient guesser reaches that |
| `Pairing.OthersDoNotMatter` | apps/edge-receiver-linux/src/phone_pairing.rs:82-103 | an address is answered as if no other had tried |
| `Pairing.Constant` | apps/edge-receiver-linux/src/phone_pairing.rs:54-80 | token and expiry never change |
| `Pairing.ConstantTimeEq` | apps/edge-receiver-linux/src/phone_pairing.rs:179-186 | the fold over all bytes is equality |
| `Pairing.LetInExactlyWhen` | apps/edge-receiver-linux/src/phone_pairing.rs:82-103 | over any run of attempts on a new window: closed if and only if five minutes have passed, limited if and only if it is open and three wrong tokens from the address were evaluated, one of them less than a second ago, accepted if and only if it is open, not limited and the token is right |
| `Pairing.PairingWindow.Check` | apps/edge-receiver-linux/src/phone_pairing.rs:82-103 | closed, limited or accepted each if and only if expiry, the address's failures and byte equality of the token say so, in that order; only an evaluated wrong token leaves a trace; the counter cannot wrap |
| `PasteBarrier.NothingLostOrReordered` | apps/edge-controller-win/src/main.rs:2840-2909 | at every loop head the keys, buttons and releases written, followed by those held, are those received, in order; motion is never held; something is held if and only if a deadline is set |
| `PasteBarrier.HeldUntilReleased` | apps/edge-controller-win/src/main.rs:1402-1417 | what is held goes out whole and in order at the end of a transfer, the peer's cancel of the running one or the deadline, and at nothing else |
| `PasteBarrier.PasteFollowsItsItem` | apps/edge-controller-win/src/main.rs:2857-2906 | with an item to offer, a paste goes out at once if and only if it need not wait: short text is written right before it, what the peer cannot take is not waited for, an image sent last is there; otherwise it is held and, unless the noted id is the image's already, a transfer of that item is under way |
| `PasteBarrier.OnlyPastesWait` | apps/edge-controller-win/src/main.rs:2844-2857 | while nothing is held every frame but a paste goes out as it came, and a paste too when the clipboard cannot be read |
| `PasteBarrier.MotionGoesOn` | apps/edge-controller-win/src/main.rs:2844-2851 | while something is held motion goes out and everything else waits behind it |
| `PasteBarrier.ExpiryGivesUp` | apps/edge-controller-win/src/main.rs:2410-2434 | at the deadline the transfer is cancelled towards the peer and forgotten, and only then all that was held goes out |
| `PasteBarrier.NoTransferJustStops` | apps/edge-controller-win/src/main.rs:3238-3277 | in every reachable state, a transfer that is gone after a step was ended or cancelled in writing, or cancelled by the peer |
| `PasteBarrier.NumbersDiffer` | apps/edge-controller-win/src/main.rs:3266-3271 | in every reachable state transfer numbers fit 64 bits and are not zero, and a step that starts another item gives it another number, even when numbers wrap around |
| `PasteBarrier.WholeTransferSent` | apps/edge-controller-win/src/main.rs:3348-3360 | a transfer left alone writes each of its parts once, then its end, then what was held, and its item counts as sent last |
| `PasteBarrier.OfferedExactly` | apps/edge-controller-win/src/main.rs:3238-3322 | an offered item is sent whole at once, becomes the transfer under way, or cannot be taken by the peer and is not sent |
| `PasteBarrier.ControlDownExactlyWhen` | apps/edge-controller-win/src/main.rs:2918-2953 | control counts as down if and only if it was pressed and neither released nor all keys released since |
| `PasteBarrier.ControlIsWhatWasWritten` | apps/edge-controller-win/src/main.rs:2918-2953 | in every run that is judged by the frames written, not by those held |
| `PasteBarrier.HeldWithoutTransfer` | apps/edge-controller-win/src/main.rs:2876-2888 | a paste of an image not sent last is held with no transfer under way if and only if none was running and the noted id is already the image's, which happens only after the peer cancelled it, or the tracker offers nothing |
| `PasteBarrier.StuckUntilDeadline` | apps/edge-controller-win/src/main.rs:2410-2434 | such a paste waits for the deadline unless something else is offered |
| `PasteBarrier.CancelledImageIsHeldInVain` | apps/edge-controller-win/src/main.rs:3006-3019 | the case exists: pasting an image again after the peer cancelled it |
| `PasteBarrier.PassedImageIsThere` | apps/edge-controller-win/src/main.rs:2879-2889 | an image sent last is pasted without waiting, and in every reachable state the peer has it from here if and only if the last text offer or end written is an end |
| `PasteBarrier.PastedImageMayBeStale` | apps/edge-controller-win/src/main.rs:3283-3302 | that case exists too: an image, then a short text, then the image again |
| `PasteObject.LiveClipboardState.PrepareInput` | apps/edge-controller-win/src/main.rs:2840-2909 | the frames let through and the new state are the specified ones |
| `PasteObject.LiveClipboardState.OfferItem` | apps/edge-controller-win/src/main.rs:3238-3277 | an offer replaces the running transfer with a cancel frame first |
| `PasteObject.LiveClipboardState.PushTextOffer` | apps/edge-controller-win/src/main.rs:3283-3322 | short text goes inline, long text as a transfer, text the peer cannot take not at all |
| `PasteObject.LiveClipboardState.NextImageFrame` | apps/edge-controller-win/src/main.rs:3348-3360 | the end of a transfer notes what the peer now has |
| `PasteObject.LiveClipboardState.WriteFrames` | apps/edge-controller-win/src/main.rs:2918-2953 | control is down exactly as far as what was written says |
| `PasteObject.LiveClipboardState.OnInput` | apps/edge-controller-win/src/main.rs:1820-1834 | an input frame is the input step of the session |
| `PasteObject.LiveClipboardState.OnOffered` | apps/edge-controller-win/src/main.rs:3187-3197 | a background read, a request or a newer local item is the offer step |
| `PasteObject.LiveClipboardState.OnBulk` | apps/edge-controller-win/src/main.rs:1402-1417 | sending when the link has room is the advance step |
| `PasteObject.LiveClipboardState.OnTick` | apps/edge-controller-win/src/main.rs:2410-2434 | the send tick expires the barrier or advances |
| `PasteObject.LiveClipboardState.OnPeerCancel` | apps/edge-controller-win/src/main.rs:3006-3019 | a cancel of the running transfer frees what is held; any other changes nothing |

## Left out

- Role handover: its rules live in `edge_runtime`, which is not part of this model.
- Wire encoding, encryption, sockets, D-Bus, PipeWire and file formats: a store write and a desktop call are operations that may fail, a channel is a FIFO list.
- The two-millisecond pacing of a link end and the choice of which ready branch a session loop takes: every interleaving of steps is allowed instead.
- More than one session at a time between the same two machines, and messages of an old session arriving in a new one: a reconnect starts with empty channels.
- The announcement's 64-bit counter and the clipboard's write counter are assumed not to wrap.
- Starting without a stored file, the check that the identity and the configured owner are enrolled, the backup copy and the file size limits: only the change of owner on a loaded store is modelled.
- A write refused because the store is over MAX_STORE_BYTES once encoded: it is one of the writes that fail.
- Random epochs and lifetime tokens: parameters; a token contains no slash.
- The order in which the sorted map of phone ids is walked: any order listing each id once.
- The phone source's own desktop delivery and its cache of shown entries (`phone_projection.rs`): the model is the path without a desktop. How a phone post becomes shared content (labels, truncation) is a parameter.
- PasteBarrier.PasteFollowsItsItem: the frame limit for short texts is a number of characters where the source counts encoded bytes.
- Mirror.NotificationMirror.Apply: content digests are taken as injective, and entries the user closes behind the mirror's back are not modelled; safety, not the picture, is what remains after adopting an old cache.
- PhoneRuns.PhonesAlwaysOk: lifetimes are followed on the machine that owns the history; on a replica a phone event is a local change, with the guarantees of those.
- Bridge messages that register native entries and copies, retire old phones or name sources, and the inventory limit: the pass and the closures are modelled for any registered entries with distinct numbers, and in a run registering is a turn that admits keys the hub knows.
- Bridge.DesktopBridge.Closed: the lookup of the key and the dismissal are one step; the source takes the state lock twice.
- ClipboardRead.AlwaysCovered: reads skipped or dropped while a session is paused.
- PasteBarrier.NothingLostOrReordered: frames written beside the barrier, such as the release of all keys on quitting, and frames dropped while paused, are not input handed to it.
- The change tracker that decides whether an item is offered, and the chunking of a transfer: parameters; a transfer is a number of parts and an end.
- CivilDate.CivilIsThatDay: integers are unbounded, so a day count within 719468 of the largest 64-bit value, which the source's addition cannot take, is not singled out.
- Control socket replies, shell integration, the update script, dialling and the return edge: one-step bookkeeping.
