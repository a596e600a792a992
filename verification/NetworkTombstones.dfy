/** What a replica shows as dismissed, by whomever, it never shows live again. */
module NetworkTombstones {
  import opened Types
  import opened StoreSpec
  import opened LinkSpec
  import opened Network
  import opened NetworkInvariant
  import opened NetworkReplicaSteps
  import opened NetworkRuns
  import NetworkReplicaReceives

  /** A replica's own changes wait in the outbox; its records stay. */
  lemma {:induction false} BatchKeepsRecords(store: StoreValue, requests: seq<Request>)
    requires QueueBatch(store, requests, false).Ok?
    ensures QueueBatch(store, requests, false).value.store.records == store.records
  {
    hide Lookup, View, Apply, WithoutKey, ValidOrigin, ValidInstance, ValidContent;
    if |requests| > 0 {
      BatchKeepsRecords(store, requests[..|requests| - 1]);
    }
  }

  lemma LocalChangeKeepsRecords(
    s: System, requests: seq<Request>, metadata: Option<Metadata>, durability: Durability)
    ensures DoLocalChange(s, requests, metadata, durability).replica.mem.records == s.replica.mem.records
  {
    hide QueueBatch, BatchOperations;
    if BatchStore(s.replica.mem, requests, metadata, false).Some? {
      BatchKeepsRecords(WithMetadata(s.replica.mem, metadata), requests);
    }
  }

  lemma AckKeeps(hub: Hub, link: Link, sequence: nat, durability: Durability)
    requires ValidStore(hub.mem)
    ensures Within(hub.mem.records, ReceiveAck(hub, link, sequence, durability).hub.mem.records)
  {
    hide ValidRecords, ValidOutbox, Refusal, WithoutSequence, Within;
    SameWithin(hub.mem.records);
    var i := SequenceIndex(hub.mem.pending, sequence);
    if i >= 0 {
      AttemptKeepsValid(hub.mem.records, hub.identity, hub.mem.pending[i]);
      AdvancesWithin(hub.mem.records, Attempt(hub.mem.records, hub.identity, hub.mem.pending[i]));
    }
  }

  /** A finished snapshot is the one the stream announced, and keeps every dismissal. */
  lemma EndKeeps(s: System, durability: Durability)
    requires Inv(s) && s.replicaEnd.up && |s.toReplica| > 0 && s.toReplica[0] == SnapshotEnd
    ensures Within(s.replica.mem.records,
                       ReceiveEnd(s.replica, s.replicaEnd.link, durability).hub.mem.records)
  {
    hide StoresOk, UplinkOk, InSync, OutboxMoving, ItemOk, SnapshotsCover, ReceiptsHonoured, Flatten,
         Remainder, Within;
    SameWithin(s.replica.mem.records);
    var items :| SessionOk(s, items);
    var events, staged := Downlink(s), s.replicaEnd.link.staged;
    assert events[0] == SnapshotEnd;
    if staged.Some? {
      NetworkReplicaReceives.HeadInside(items, staged.value, events);
    }
  }

  lemma DeliverKeepsRecords(s: System, durability: Durability)
    requires Inv(s)
    ensures Within(s.replica.mem.records, DoReplicaDeliver(s, durability).replica.mem.records)
  {
    hide ReceiveAck, ReceiveEnd, Within, OwnerStores, UplinkOk, SessionOk, ValidStore;
    SameWithin(s.replica.mem.records);
    if s.replicaEnd.up && s.toReplica != [] {
      if s.toReplica[0].Ack? {
        AckKeeps(s.replica, s.replicaEnd.link, s.toReplica[0].sequence, durability);
      } else if s.toReplica[0].SnapshotEnd? {
        EndKeeps(s, durability);
      }
    }
  }

  lemma NextWithin(s: System, step: Step)
    requires Inv(s)
    ensures Within(s.replica.mem.records, Next(s, step).replica.mem.records)
  {
    hide Within, DoOwnerLocal, DoOwnerDeliver, DoReplicaDeliver, DoLocalChange, AllAccepted, Replay,
         OwnerStores, ReplicaStore, UplinkOk, SessionOk, AcceptedOk, DiskOutboxOk, Authentic;
    SameWithin(s.replica.mem.records);
    match step
    case LocalChange(requests, metadata, durability) =>
      LocalChangeKeepsRecords(s, requests, metadata, durability);
    case ReplicaDeliver(durability) => DeliverKeepsRecords(s, durability);
    case OwnerLocal(requests, metadata, durability) => ReplicaUntouched(s, requests, metadata, durability);
    case OwnerDeliver(durability) => OwnerTakes(s, durability);
    case _ =>
  }

  lemma ReplicaUntouched(
    s: System, requests: seq<Request>, metadata: Option<Metadata>, durability: Durability)
    ensures DoOwnerLocal(s, requests, metadata, durability).replica == s.replica
  {
    hide BatchStore;
  }

  lemma OwnerTakes(s: System, durability: Durability)
    ensures DoOwnerDeliver(s, durability).replica == s.replica
  {
    hide Receive;
  }

  lemma {:induction false} RunWithin(s: System, steps: seq<Step>)
    requires Inv(s)
    ensures Within(s.replica.mem.records, Run(s, steps).replica.mem.records)
  {
    hide Inv, Next, Within;
    if |steps| == 0 {
      SameWithin(s.replica.mem.records);
    } else {
      var front := steps[..|steps| - 1];
      RunWithin(s, front);
      RunKeeps(s, front);
      NextWithin(Run(s, front), steps[|steps| - 1]);
      WithinTransitive(s.replica.mem.records, Run(s, front).replica.mem.records,
                           Run(s, steps).replica.mem.records);
    }
  }

  lemma DeadRecordShown(store: StoreValue, key: Key)
    requires ValidStore(store) && Dead(Lookup(store.records, key))
    ensures Dead(Lookup(View(store), key))
  {
    hide ValidStore, View, Lookup;
    if PendingIndex(store.pending, key) >= 0 {
      ViewWithPending(store, key);
    } else {
      ViewWithoutPending(store, key);
    }
  }

  /** A view shows a key dismissed because it is committed so, or because its own removal waits. */
  lemma WhyDead(store: StoreValue, key: Key) returns (i: int)
    requires ValidStore(store) && Dead(Lookup(View(store), key))
    ensures -1 <= i < |store.pending|
    ensures if i < 0 then Dead(Lookup(store.records, key))
            else store.pending[i].key == key && store.pending[i].content.None?
  {
    hide ValidStore, View, Lookup;
    i := -1;
    if !Dead(Lookup(store.records, key)) {
      i := PendingIndex(store.pending, key);
      if i >= 0 {
        ViewWithPending(store, key);
      } else {
        ViewWithoutPending(store, key);
      }
    }
  }

  /**
   Once a replica's view shows a key dismissed, whoever dismissed it, nothing that happens
   later makes its view, or the view it would come back with after a crash, show it live.
   */
  lemma ShownDismissalIsFinal(s: System, steps: seq<Step>, more: seq<Step>, key: Key)
    requires Init(s)
    requires Dead(Lookup(View(Run(s, steps).replica.mem), key))
    ensures var t := Run(s, steps + more);
            && !Live(Lookup(View(t.replica.mem), key))
            && !Live(Lookup(View(t.replica.disk), key))
  {
    hide Init, Run, View, Lookup, Within, ValidStore, UplinkOk, SessionOk, OwnerStores, DiskOutboxOk,
         KeysWithin, Authentic, AllCovered, OwnOperation;
    var u, t := Run(s, steps), Run(s, steps + more);
    InitHolds(s);
    RunKeeps(s, steps);
    RunKeeps(s, steps + more);
    RunConcat(s, steps, more);
    var i := WhyDead(u.replica.mem, key);
    if i >= 0 {
      DismissalIsFinal(s, steps, more, u.replica.mem.pending[i]);
    } else {
      RunWithin(u, more);
      DeadOnBoth(u, t, key);
      DeadRecordShown(t.replica.mem, key);
      DeadRecordShown(t.replica.disk, key);
    }
  }

  lemma DeadOnBoth(u: System, t: System, key: Key)
    requires Within(u.replica.mem.records, t.replica.mem.records)
    requires Within(t.replica.mem.records, t.replica.disk.records)
    requires Dead(Lookup(u.replica.mem.records, key))
    ensures Dead(Lookup(t.replica.mem.records, key)) && Dead(Lookup(t.replica.disk.records, key))
  {
    hide Lookup, Dead;
  }
}
