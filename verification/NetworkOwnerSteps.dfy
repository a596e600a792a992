/** Every step taken at the owner keeps the invariant. */
module NetworkOwnerSteps {
  import opened Types
  import opened StoreSpec
  import opened OverlayLaws
  import opened LinkSpec
  import opened Network
  import opened NetworkInvariant
  import JoinLaws

  // ------------------------------------------------- a growing owner history

  lemma ReplicaStoreGrows(
    accepted: set<Operation>, replica: string, store: StoreValue, owner: StoreValue, grown: StoreValue)
    requires ReplicaStore(accepted, replica, store, owner)
    requires Advances(owner.records, grown.records) && owner.epoch == grown.epoch
    ensures ReplicaStore(accepted, replica, store, grown)
  {
    hide ValidStore, Authentic, Lookup, Subsumes, Advances, PendingCovers, Within;
    AdvancesWithin(owner.records, grown.records);
    WithinTransitive(store.records, owner.records, grown.records);
    forall op | op in accepted ensures Covered(op, store, grown.records) {
      if Subsumes(owner.records, op) {
        AdvancesSubsumes(owner.records, grown.records, op);
      }
    }
  }

  lemma ItemsGrow(
    items: seq<Item>, accepted: set<Operation>, replica: StoreValue, owner: StoreValue, grown: StoreValue)
    requires forall i :: 0 <= i < |items| ==> ItemOk(items[i], accepted, replica, owner)
    requires Advances(owner.records, grown.records)
    requires owner.epoch == grown.epoch && owner.localIdentity == grown.localIdentity
    ensures forall i :: 0 <= i < |items| ==> ItemOk(items[i], accepted, replica, grown)
  {
  }

  lemma ReceiptsGrow(
    items: seq<Item>, pending: seq<Operation>, owner: seq<Record>, grown: seq<Record>)
    requires ReceiptsHonoured(items, pending, owner)
    requires Advances(owner, grown)
    ensures ReceiptsHonoured(items, pending, grown)
  {
    hide Subsumes, Advances;
    forall i, j | 0 <= i < |items| && 0 <= j < |pending| && items[i] == Receipt(pending[j].sequence)
      ensures Honoured(items, i, pending[j], grown)
    {
      assert Honoured(items, i, pending[j], owner);
      AdvancesSubsumes(owner, grown, pending[j]);
    }
  }

  /** Replacing the owner's memory by a later history keeps everything but being in sync. */
  lemma OwnerAdvances(s: System, t: System)
    requires Inv(s)
    requires t.owner.identity == s.owner.identity && t.owner.coordinator == s.owner.coordinator
    requires t == s.(owner := t.owner, ownerEnd := t.ownerEnd, ownerOwes := t.ownerOwes)
    requires t.ownerEnd.link == s.ownerEnd.link.(changed := t.ownerEnd.link.changed)
    requires t.ownerEnd.up ==> s.ownerEnd.up
    requires t.ownerEnd.up && t.owner.mem.records != s.owner.mem.records ==>
               t.ownerEnd.link.changed || t.ownerOwes
    requires t.ownerEnd.up && (s.ownerEnd.link.changed || s.ownerOwes) ==>
               t.ownerEnd.link.changed || t.ownerOwes
    requires OwnerStores(t.owner.mem, t.owner.disk)
    requires t.owner.mem.localIdentity == t.owner.disk.localIdentity == s.owner.identity
    requires t.owner.mem.epoch == s.owner.mem.epoch
    requires Advances(s.owner.mem.records, t.owner.mem.records)
    requires Authentic(s.accepted, s.replica.identity, t.owner.mem.records)
    requires Authentic(s.accepted, s.replica.identity, t.owner.disk.records)
    ensures Inv(t)
  {
    hide OwnerStores, ReplicaStore, Authentic, AcceptedOk, DiskOutboxOk, Advances, ItemOk,
         SnapshotsCover, ReceiptsHonoured, Continues, Chained, Within;
    ReplicaStoreGrows(s.accepted, s.replica.identity, s.replica.mem, s.owner.mem, t.owner.mem);
    ReplicaStoreGrows(s.accepted, s.replica.identity, s.replica.disk, s.owner.mem, t.owner.mem);
    assert Uplink(t) == Uplink(s);
    if s.replicaEnd.up {
      var items :| SessionOk(s, items);
      ItemsGrow(items, s.accepted, s.replica.mem, s.owner.mem, t.owner.mem);
      ReceiptsGrow(items, s.replica.mem.pending, s.owner.mem.records, t.owner.mem.records);
      assert Downlink(t) == Downlink(s);
      OutboxFrame(s, t, items);
      assert SessionOk(t, items);
    }
  }

  lemma OutboxFrame(s: System, t: System, items: seq<Item>)
    requires OutboxMoving(s, items)
    requires t.ownerEnd.up ==> s.ownerEnd.up
    requires t.replica.mem.pending == s.replica.mem.pending
    requires t.replicaEnd.link == s.replicaEnd.link && t.replicaOwes == s.replicaOwes
    requires Uplink(t) == Uplink(s)
    ensures OutboxMoving(t, items)
  {
  }

  // -------------------------------------------------------- other submissions

  lemma {:induction false} ReplayAuthentic(
    accepted: set<Operation>, replica: string, records: seq<Record>, submissions: seq<Submission>,
    others: set<string>)
    requires Authentic(accepted, replica, records) && replica in others
    requires AllAccepted(records, submissions, others)
    ensures Authentic(accepted, replica, Replay(records, submissions))
  {
    hide ValidOrigin, ValidInstance, ValidContent;
    if |submissions| > 0 {
      var last := |submissions| - 1;
      ReplayAuthentic(accepted, replica, records, submissions[..last], others);
      ForeignAuthentic(accepted, replica, Replay(records, submissions[..last]), submissions[last]);
    }
  }

  lemma ForeignAuthentic(
    accepted: set<Operation>, replica: string, records: seq<Record>, submission: Submission)
    requires Authentic(accepted, replica, records)
    requires submission.sender != replica
    ensures Authentic(accepted, replica, Attempt(records, submission.sender, submission.operation))
  {
  }

  lemma OwnerCommitKeeps(s: System, next: StoreValue, durability: Durability)
    requires Inv(s)
    requires next == s.owner.mem.(sequence := next.sequence, records := next.records,
                                  phoneInstances := next.phoneInstances,
                                  importedPhones := next.importedPhones)
    requires ValidRecords(next.records) && Advances(s.owner.mem.records, next.records)
    requires Authentic(s.accepted, s.replica.identity, next.records)
    ensures Inv(DoOwnerCommit(s, next, durability))
  {
    hide ValidRecords, Authentic, ReplicaStore, AcceptedOk, DiskOutboxOk, UplinkOk, SessionOk, Within;
    var t := DoOwnerCommit(s, next, durability);
    AdvancesReflexive(s.owner.mem.records);
    AdvancesReflexive(next.records);
    OwnerAdvances(s, t);
  }

  /** What peers other than this replica submitted. */
  lemma SubmissionsKeep(s: System, submissions: seq<Submission>, durability: Durability)
    requires Inv(s)
    ensures Inv(Next(s, OwnerCommit(submissions, durability)))
  {
    hide Replay, AllAccepted, ValidRecords, Authentic, Advances, Inv, DoOwnerCommit;
    var others := {s.replica.identity, s.owner.identity};
    if AllAccepted(s.owner.mem.records, submissions, others) {
      OwnerRecords(s);
      JoinLaws.ReplayKeepsValid(s.owner.mem.records, submissions);
      ReplayAuthentic(s.accepted, s.replica.identity, s.owner.mem.records, submissions, others);
      OwnerCommitKeeps(s, s.owner.mem.(records := Replay(s.owner.mem.records, submissions)), durability);
    }
  }

  lemma OwnerRecords(s: System)
    requires Inv(s)
    ensures ValidStore(s.owner.mem) && s.owner.mem.pending == []
    ensures Authentic(s.accepted, s.replica.identity, s.owner.mem.records)
    ensures s.owner.mem.localIdentity == s.owner.identity != s.replica.identity
  {
    hide ValidStore, Authentic, ReplicaStore, AcceptedOk, DiskOutboxOk, UplinkOk, SessionOk, Within;
  }

  /** A batch of the owner's own: a later history, and nothing new under the replica's name. */
  lemma {:induction false} OwnerBatch(
    accepted: set<Operation>, replica: string, store: StoreValue, requests: seq<Request>)
    requires ValidStore(store) && store.pending == [] && store.localIdentity != replica
    requires Authentic(accepted, replica, store.records)
    requires QueueBatch(store, requests, true).Ok?
    ensures var next := QueueBatch(store, requests, true).value.store;
            && next == store.(sequence := next.sequence, records := next.records)
            && ValidStore(next)
            && Advances(store.records, next.records)
            && Authentic(accepted, replica, next.records)
  {
    hide ValidStore, QueueLocal, Authentic, Advances;
    if |requests| == 0 {
      AdvancesReflexive(store.records);
    } else {
      var front, last := requests[..|requests| - 1], requests[|requests| - 1];
      OwnerBatch(accepted, replica, store, front);
      var middle := QueueBatch(store, front, true).value.store;
      OwnerQueues(accepted, replica, middle, last.key, last.content);
      AdvancesTransitive(store.records, middle.records,
                         QueueLocal(middle, last.key, last.content, true).value.store.records);
    }
  }

  lemma OwnerQueues(
    accepted: set<Operation>, replica: string, store: StoreValue, key: Key, content: Option<Content>)
    requires ValidStore(store) && store.pending == [] && store.localIdentity != replica
    requires Authentic(accepted, replica, store.records)
    requires QueueLocal(store, key, content, true).Ok?
    ensures var next := QueueLocal(store, key, content, true).value.store;
            && next == store.(sequence := next.sequence, records := next.records)
            && ValidStore(next)
            && Advances(store.records, next.records)
            && Authentic(accepted, replica, next.records)
  {
    hide QueueLocal, Refusal, Attempt, ValidRecords, Authentic;
    QueueCases(store, key, content, true);
    QueueKeepsValid(store, key, content, true);
    AdvancesReflexive(store.records);
    hide ValidOutbox, Advances;
    if QueueLocal(store, key, content, true).value.changed {
      var op := Operation(store.sequence + 1, key, content);
      AttemptKeepsValid(store.records, store.localIdentity, op);
      ForeignAuthentic(accepted, replica, store.records, Submission(store.localIdentity, op));
    }
  }

  lemma OwnerLocalKeeps(
    s: System, requests: seq<Request>, metadata: Option<Metadata>, durability: Durability)
    requires Inv(s)
    ensures Inv(DoOwnerLocal(s, requests, metadata, durability))
  {
    hide QueueBatch, ValidStore, Authentic, Advances, Inv, DoOwnerCommit;
    var next := BatchStore(s.owner.mem, requests, metadata, true);
    if next.Some? {
      OwnerRecords(s);
      var store := WithMetadata(s.owner.mem, metadata);
      MetadataValid(s.owner.mem, metadata);
      OwnerBatch(s.accepted, s.replica.identity, store, requests);
      StoreRecords(next.value);
      OwnerCommitKeeps(s, next.value, durability);
    }
  }

  lemma StoreRecords(store: StoreValue)
    requires ValidStore(store)
    ensures ValidRecords(store.records)
  {
    hide ValidRecords, ValidOutbox;
  }

  lemma MetadataValid(store: StoreValue, metadata: Option<Metadata>)
    ensures var next := WithMetadata(store, metadata);
            && (ValidStore(next) <==> ValidStore(store))
            && next == store.(phoneInstances := next.phoneInstances, importedPhones := next.importedPhones)
  {
    hide ValidRecords, ValidOutbox;
  }

  lemma OwnerAnnounceKeeps(s: System)
    requires Inv(s)
    ensures Inv(Next(s, OwnerAnnounce))
  {
    hide Authentic, ReplicaStore, AcceptedOk, DiskOutboxOk, UplinkOk, SessionOk, ValidStore, Within;
    AdvancesReflexive(s.owner.mem.records);
    OwnerAdvances(s, Next(s, OwnerAnnounce));
  }

  lemma AdvancesReflexive(records: seq<Record>)
    ensures Advances(records, records)
  {
  }

  lemma OwnerCrashKeeps(s: System)
    requires Inv(s)
    ensures Inv(Next(s, OwnerCrash))
  {
    hide Authentic, ReplicaStore, AcceptedOk, DiskOutboxOk, UplinkOk, SessionOk, ValidStore;
    AdvancesReflexive(s.owner.disk.records);
    OwnerAdvances(s, Next(s, OwnerCrash));
  }

  lemma OwnerDropKeeps(s: System)
    requires Inv(s)
    ensures Inv(Next(s, OwnerDrop))
  {
    hide Authentic, ReplicaStore, AcceptedOk, DiskOutboxOk, UplinkOk, SessionOk, ValidStore;
    AdvancesReflexive(s.owner.mem.records);
    OwnerAdvances(s, Next(s, OwnerDrop));
  }

  // ----------------------------------------------------------------- sending

  lemma {:induction false} FlattenAppend(items: seq<Item>, item: Item)
    ensures Flatten(items + [item]) == Flatten(items) + Events(item)
  {
    hide Events;
    if |items| == 0 {
      assert items + [item] == [item] && (items + [item])[1..] == [];
    } else {
      FlattenAppend(items[1..], item);
      assert (items + [item])[1..] == items[1..] + [item];
    }
  }

  lemma ContinuesAppend(items: seq<Item>, staged: Option<Staged>, events: seq<Event>, item: Item)
    requires Continues(items, staged, events)
    ensures Continues(items + [item], staged, events + Events(item))
  {
    hide Flatten, Events, Remainder;
    if staged.None? {
      FlattenAppend(items, item);
    } else {
      FlattenAppend(items[1..], item);
      assert (items + [item])[1..] == items[1..] + [item];
    }
  }

  lemma OwnerNoticeKeeps(s: System)
    requires Inv(s)
    ensures Inv(Next(s, OwnerNotice))
  {
    hide OwnerStores, ReplicaStore, Authentic, AcceptedOk, DiskOutboxOk, DownlinkOk;
    var t := Next(s, OwnerNotice);
    assert Uplink(t) == Uplink(s);
    if s.replicaEnd.up {
      var items :| SessionOk(s, items);
      DownlinkFrame(s, t, items);
      OutboxFrame(s, t, items);
      assert SessionOk(t, items);
    }
  }

  lemma DownlinkFrame(s: System, t: System, items: seq<Item>)
    requires DownlinkOk(s, items)
    requires Downlink(t) == Downlink(s)
    requires t.replicaEnd.link.staged == s.replicaEnd.link.staged
    requires s.replicaEnd.link.agreed ==> t.replicaEnd.link.agreed
    requires t.replica.mem == s.replica.mem && t.owner.mem == s.owner.mem
    requires t.accepted == s.accepted
    ensures DownlinkOk(t, items)
  {
    hide Downlink, Continues, ItemOk, SnapshotsCover, ReceiptsHonoured, Chained;
  }

  lemma OwnerTransmitKeeps(s: System)
    requires Inv(s)
    ensures Inv(Next(s, OwnerTransmit))
  {
    hide OwnerStores, ReplicaStore, Authentic, AcceptedOk, DiskOutboxOk, DownlinkOk;
    var t := Next(s, OwnerTransmit);
    assert Uplink(t) == Uplink(s);
    if s.replicaEnd.up {
      var items :| SessionOk(s, items);
      assert Downlink(t) == Downlink(s);
      DownlinkFrame(s, t, items);
      OutboxFrame(s, t, items);
      assert SessionOk(t, items);
    }
  }

  lemma OwnerFillKeeps(s: System)
    requires Inv(s)
    ensures Inv(Next(s, OwnerFill))
  {
    hide OwnerStores, ReplicaStore, Authentic, AcceptedOk, DiskOutboxOk, DownlinkOk, OutboxMoving;
    var t := Next(s, OwnerFill);
    if CanFill(s.ownerEnd) {
      assert Uplink(t) == Uplink(s);
      if s.replicaEnd.up {
        var items :| SessionOk(s, items);
        var item := Snapshot(s.owner.mem.epoch, s.owner.mem.records);
        FilledDownlink(s, t, items, item);
        OutboxFrame(s, t, items);
        OutboxAppend(t, items, item);
        assert LastRecords(items + [item], s.replica.mem.records) == s.owner.mem.records;
        assert SessionOk(t, items + [item]);
      }
    }
  }

  lemma OutboxAppend(s: System, items: seq<Item>, item: Item)
    requires OutboxMoving(s, items)
    ensures OutboxMoving(s, items + [item])
  {
  }

  lemma FilledDownlink(s: System, t: System, items: seq<Item>, item: Item)
    requires Inv(s) && DownlinkOk(s, items) && CanFill(s.ownerEnd)
    requires t == Next(s, OwnerFill)
    requires item == Snapshot(s.owner.mem.epoch, s.owner.mem.records)
    ensures DownlinkOk(t, items + [item])
  {
    hide Continues, ItemOk, SnapshotsCover, ReceiptsHonoured, UplinkOk, SessionOk, Chained, StoresOk,
         SnapshotEvents, Events, Flatten;
    ContinuesAppend(items, s.replicaEnd.link.staged, Downlink(s), item);
    SnapshotIsItem(s.owner.mem);
    assert Downlink(t) == Downlink(s) + Events(item);
    AppendedItems(items, item, s);
  }

  lemma SnapshotIsItem(store: StoreValue)
    ensures SnapshotEvents(store) == Events(Snapshot(store.epoch, store.records))
  {
  }

  lemma ChainedAppend(items: seq<Item>, item: Item, s: System)
    requires Inv(s) && DownlinkOk(s, items)
    requires item == Snapshot(s.owner.mem.epoch, s.owner.mem.records)
    ensures Chained(items + [item], s.replica.mem.records)
  {
    hide Continues, UplinkOk, SessionOk, Authentic, ValidRecords, AcceptedOk, DiskOutboxOk, Within,
         AllCovered, KeysWithin, SnapshotsCover, ReceiptsHonoured, Advances, OwnerStores;
    var more := items + [item];
    forall i | 0 <= i < |items| && items[i].Snapshot? ensures Within(items[i].records, item.records) {
      assert ItemOk(items[i], s.accepted, s.replica.mem, s.owner.mem);
      AdvancesWithin(items[i].records, item.records);
    }
    forall i, j | 0 <= i < j < |more| && more[i].Snapshot? && more[j].Snapshot?
      ensures Within(more[i].records, more[j].records)
    {
      assert more[i] == items[i];
    }
  }

  lemma ChainedReceipt(items: seq<Item>, sequence: nat, records: seq<Record>)
    requires Chained(items, records)
    ensures Chained(items + [Receipt(sequence)], records)
  {
    hide Within;
  }

  lemma AppendedItems(items: seq<Item>, item: Item, s: System)
    requires Inv(s) && DownlinkOk(s, items)
    requires item == Snapshot(s.owner.mem.epoch, s.owner.mem.records)
    ensures forall i :: 0 <= i <= |items| ==>
      ItemOk((items + [item])[i], s.accepted, s.replica.mem, s.owner.mem)
    ensures SnapshotsCover(items + [item], s.accepted, s.replica.mem.pending)
    ensures ReceiptsHonoured(items + [item], s.replica.mem.pending, s.owner.mem.records)
    ensures Chained(items + [item], s.replica.mem.records)
  {
    hide Continues, UplinkOk, SessionOk, Authentic, Subsumes, PendingCovers, ValidRecords, AcceptedOk,
         DiskOutboxOk, Within, Chained;
    ChainedAppend(items, item, s);
    AdvancesReflexive(s.owner.mem.records);
    hide Advances;
    assert ItemOk(item, s.accepted, s.replica.mem, s.owner.mem);
    var more := items + [item];
    forall op, i | op in s.accepted && 0 <= i < |more| && more[i].Snapshot?
      ensures PendingCovers(s.replica.mem.pending, op) || Subsumes(more[i].records, op)
    {
      if i == |items| {
        assert Covered(op, s.replica.mem, s.owner.mem.records);
      } else {
        assert more[i] == items[i];
      }
    }
    var pending := s.replica.mem.pending;
    forall i, j | 0 <= i < |more| && 0 <= j < |pending| && more[i] == Receipt(pending[j].sequence)
      ensures Honoured(more, i, pending[j], s.owner.mem.records)
    {
      assert items[i] == more[i];
      assert Honoured(items, i, pending[j], s.owner.mem.records);
    }
  }
}
