/** Every step the replica takes on its own keeps the invariant. */
module NetworkReplicaSteps {
  import opened Types
  import opened StoreSpec
  import opened OverlayLaws
  import opened LinkSpec
  import opened Network
  import opened NetworkInvariant
  import opened NetworkOwnerSteps

  // ----------------------------------------------- a growing accepted history

  lemma AuthenticGrows(
    accepted: set<Operation>, more: set<Operation>, replica: string, records: seq<Record>)
    requires Authentic(accepted, replica, records) && accepted <= more
    ensures Authentic(more, replica, records)
  {
  }

  lemma ItemsAuthenticGrow(
    items: seq<Item>, accepted: set<Operation>, more: set<Operation>,
    replica: StoreValue, later: StoreValue, owner: StoreValue)
    requires forall i :: 0 <= i < |items| ==> ItemOk(items[i], accepted, replica, owner)
    requires accepted <= more
    requires replica.sequence <= later.sequence && replica.localIdentity == later.localIdentity
    ensures forall i :: 0 <= i < |items| ==> ItemOk(items[i], more, later, owner)
  {
  }

  // --------------------------------------------------------- a local change

  /** An operation on another key keeps its place in the added outbox, or moves up by one. */
  lemma QueueKeepsOther(store: StoreValue, op: Operation, next: StoreValue, i: nat)
    requires ValidStore(store) && QueuedBy(store, op, false, next)
    requires i < |store.pending| && store.pending[i].key != op.key
    ensures exists at :: 0 <= at < |next.pending| && next.pending[at] == store.pending[i]
  {
    hide Refusal, Attempt, WithoutKey, ValidRecords;
    WithoutKeyIs(store.pending, store.localIdentity, store.sequence, op.key);
    var k := PendingIndex(store.pending, op.key);
    var at := if k < 0 || i < k then i else i - 1;
    assert next.pending[at] == store.pending[i];
  }

  /** A newer operation takes over everything the one it replaces stood for. */
  lemma QueueKeepsCover(store: StoreValue, op: Operation, next: StoreValue, older: Operation)
    requires ValidStore(store)
    requires QueueLocal(store, op.key, op.content, false) == Ok(Queued(next, true))
    requires QueuedBy(store, op, false, next)
    requires PendingCovers(store.pending, older) && older.sequence <= store.sequence
    ensures PendingCovers(next.pending, older)
  {
    hide Refusal, QueueLocal, Attempt, Overlay, WithoutKey, ValidRecords, ValidOutbox, PendingIndex;
    var i :| 0 <= i < |store.pending| && Replaces(store.pending[i], older);
    var last := |next.pending| - 1;
    assert next.pending[last] == op;
    if store.pending[i].key == op.key {
      if older.content.None? && op.content.Some? {
        RemovalNeverReplaced(store, store.pending[i], op.content.value);
        assert false;
      }
      assert Replaces(next.pending[last], older);
    } else {
      QueueKeepsOther(store, op, next, i);
      var at :| 0 <= at < |next.pending| && next.pending[at] == store.pending[i];
      assert Replaces(next.pending[at], older);
    }
  }

  /** Everything in the added outbox is the added operation or was there before. */
  lemma QueueElements(store: StoreValue, op: Operation, next: StoreValue, j: nat)
    requires ValidStore(store) && QueuedBy(store, op, false, next) && j < |next.pending|
    ensures next.pending[j] == op || exists i :: 0 <= i < |store.pending| && store.pending[i] == next.pending[j]
  {
    hide Refusal, Attempt, WithoutKey;
    WithoutKeyIs(store.pending, store.localIdentity, store.sequence, op.key);
    var k := PendingIndex(store.pending, op.key);
    if j < |next.pending| - 1 {
      var at := if k < 0 || j < k then j else j + 1;
      assert store.pending[at] == next.pending[j];
    }
  }

  /** The counter has passed every accepted operation. */
  ghost predicate Below(accepted: set<Operation>, store: StoreValue) {
    forall op :: op in accepted ==> OwnOperation(op, store.localIdentity, store.sequence)
  }

  lemma QueuedReplicaStore(
    accepted: set<Operation>, more: set<Operation>, replica: string,
    store: StoreValue, op: Operation, next: StoreValue, owner: StoreValue)
    requires ReplicaStore(accepted, replica, store, owner)
    requires Below(accepted, store)
    requires QueueLocal(store, op.key, op.content, false) == Ok(Queued(next, true))
    requires QueuedBy(store, op, false, next)
    requires accepted <= more <= accepted + {op}
    ensures ReplicaStore(more, replica, next, owner)
    ensures next.records == store.records && next.sequence == op.sequence
  {
    hide Refusal, QueueLocal, Subsumes, KeysWithin, Authentic, ValidRecords, ValidOutbox, Within;
    ReplicaQueueValid(store, op, next);
    AuthenticGrows(accepted, more, replica, store.records);
    hide WithoutKey, PendingCovers;
    forall older | older in more ensures Covered(older, next, owner.records) {
      if older in accepted {
        assert Covered(older, store, owner.records);
        assert OwnOperation(older, store.localIdentity, store.sequence);
        if PendingCovers(store.pending, older) {
          QueueKeepsCover(store, op, next, older);
        }
      } else {
        NewestCovered(next.pending, op);
      }
    }
  }

  lemma NewestCovered(pending: seq<Operation>, op: Operation)
    requires |pending| > 0 && pending[|pending| - 1] == op
    ensures PendingCovers(pending, op)
  {
  }

  lemma QueuedAccepted(accepted: set<Operation>, store: StoreValue, op: Operation, next: StoreValue)
    requires ValidStore(store) && AcceptedOk(accepted, store) && QueuedBy(store, op, false, next)
    ensures AcceptedOk(accepted + {op}, next)
  {
    hide Refusal, ValidRecords, WithoutKey;
    forall o | o in accepted + {op} ensures OwnOperation(o, next.localIdentity, next.sequence) {
      if o in accepted { assert OwnOperation(o, store.localIdentity, store.sequence); }
    }
    forall a, b | a in accepted + {op} && b in accepted + {op} && a.sequence == b.sequence
      ensures a == b
    {
      if a in accepted { assert OwnOperation(a, store.localIdentity, store.sequence); }
      if b in accepted { assert OwnOperation(b, store.localIdentity, store.sequence); }
    }
    forall j | 0 <= j < |next.pending| ensures next.pending[j] in accepted + {op} {
      QueueElements(store, op, next, j);
    }
  }

  lemma QueuedDisk(accepted: set<Operation>, store: StoreValue, op: Operation, next: StoreValue, base: nat)
    requires ValidStore(store) && DiskOutboxOk(accepted, store, base) && QueuedBy(store, op, false, next)
    ensures DiskOutboxOk(accepted, next, base)
  {
    hide Refusal, ValidRecords, WithoutKey;
    forall j | 0 <= j < |next.pending|
      ensures next.pending[j] in accepted || next.pending[j].sequence > base
    {
      QueueElements(store, op, next, j);
    }
  }

  lemma QueuedDownlink(s: System, t: System, items: seq<Item>, op: Operation)
    requires DownlinkOk(s, items)
    requires ValidStore(s.replica.mem) && AcceptedOk(s.accepted, s.replica.mem)
    requires t == s.(replica := t.replica, replicaOwes := true, accepted := s.accepted + {op})
    requires QueueLocal(s.replica.mem, op.key, op.content, false) == Ok(Queued(t.replica.mem, true))
    requires QueuedBy(s.replica.mem, op, false, t.replica.mem)
    ensures DownlinkOk(t, items)
  {
    hide Refusal, QueueLocal, Subsumes, ValidRecords, ValidOutbox, SnapshotOk, WithoutKey;
    var store, next := s.replica.mem, t.replica.mem;
    ItemsAuthenticGrow(items, s.accepted, t.accepted, store, next, s.owner.mem);
    assert Downlink(t) == Downlink(s);
    hide PendingCovers, Continues, Downlink;
    forall o, i | o in t.accepted && 0 <= i < |items| && items[i].Snapshot?
      ensures PendingCovers(next.pending, o) || Subsumes(items[i].records, o)
    {
      if o in s.accepted {
        assert OwnOperation(o, store.localIdentity, store.sequence);
        if PendingCovers(store.pending, o) {
          QueueKeepsCover(store, op, next, o);
        }
      } else {
        NewestCovered(next.pending, op);
      }
    }
    forall i, j | 0 <= i < |items| && 0 <= j < |next.pending| && items[i] == Receipt(next.pending[j].sequence)
      ensures Honoured(items, i, next.pending[j], s.owner.mem.records)
    {
      assert ItemOk(items[i], s.accepted, store, s.owner.mem);
      QueueElements(store, op, next, j);
      var k :| 0 <= k < |store.pending| && store.pending[k] == next.pending[j];
      assert items[i] == Receipt(store.pending[k].sequence);
    }
  }

  lemma QueuedOutbox(s: System, t: System, items: seq<Item>, op: Operation)
    requires OutboxMoving(s, items)
    requires s.replicaEnd.link.sentThrough <= s.replica.mem.sequence
    requires ValidStore(s.replica.mem)
    requires t == s.(replica := t.replica, replicaOwes := true, accepted := t.accepted)
    requires QueuedBy(s.replica.mem, op, false, t.replica.mem)
    ensures OutboxMoving(t, items)
  {
    hide Refusal, ValidRecords, ValidOutbox, WithoutKey;
    assert Uplink(t) == Uplink(s);
    hide Uplink;
    forall i | s.ownerEnd.up && 0 <= i < |t.replica.mem.pending|
      ensures var p := t.replica.mem.pending[i];
              p.sequence > t.replicaEnd.link.sentThrough || Unanswered(t, items, p)
    {
      QueueElements(s.replica.mem, op, t.replica.mem, i);
      var p := t.replica.mem.pending[i];
      if p != op && p.sequence <= t.replicaEnd.link.sentThrough {
        var k :| 0 <= k < |s.replica.mem.pending| && s.replica.mem.pending[k] == p;
        assert Unanswered(s, items, p);
      }
    }
  }

  lemma UplinkGrows(s: System, t: System)
    requires UplinkOk(s)
    requires Uplink(t) == Uplink(s) && s.accepted <= t.accepted
    requires t.owner.identity == s.owner.identity && t.ownerEnd == s.ownerEnd
    ensures UplinkOk(t)
  {
  }

  /** The system once one more operation is accepted and written. */
  function Accepting(s: System, op: Operation, next: StoreValue): System {
    s.(replica := s.replica.(mem := next, disk := next), replicaOwes := true, accepted := s.accepted + {op})
  }

  lemma AcceptingStores(s: System, op: Operation, next: StoreValue)
    requires Roles(s) && StoresOk(s) && UplinkOk(s)
    requires QueueLocal(s.replica.mem, op.key, op.content, false) == Ok(Queued(next, true))
    requires QueuedBy(s.replica.mem, op, false, next)
    ensures var t := Accepting(s, op, next); Roles(t) && StoresOk(t) && UplinkOk(t)
  {
    var t := Accepting(s, op, next);
    var store, replica := s.replica.mem, s.replica.identity;
    assert next.localIdentity == store.localIdentity by { hide Refusal, WithoutKey, QueueLocal; }
    ReplicaStoreValid(s.accepted, replica, store, s.owner.mem);
    hide QueueLocal, ValidStore, ReplicaStore, Authentic, OwnerStores, DiskOutboxOk, QueuedBy;
    QueuedReplicaStore(s.accepted, t.accepted, replica, store, op, next, s.owner.mem);
    AuthenticGrows(s.accepted, t.accepted, replica, s.owner.mem.records);
    AuthenticGrows(s.accepted, t.accepted, replica, s.owner.disk.records);
    QueuedAccepted(s.accepted, store, op, next);
    AcceptedDisk(t.accepted, next);
    SameWithin(next.records);
    hide AcceptedOk, Within;
    assert Uplink(t) == Uplink(s);
    UplinkGrows(s, t);
  }

  lemma ReplicaStoreValid(accepted: set<Operation>, replica: string, store: StoreValue, owner: StoreValue)
    requires ReplicaStore(accepted, replica, store, owner)
    ensures ValidStore(store)
  {
  }

  lemma AcceptingSession(s: System, op: Operation, next: StoreValue, items: seq<Item>)
    requires SessionOk(s, items)
    requires ValidStore(s.replica.mem) && AcceptedOk(s.accepted, s.replica.mem)
    requires QueueLocal(s.replica.mem, op.key, op.content, false) == Ok(Queued(next, true))
    requires QueuedBy(s.replica.mem, op, false, next)
    ensures SessionOk(Accepting(s, op, next), items)
  {
    var t := Accepting(s, op, next);
    assert next.records == s.replica.mem.records && s.replica.mem.sequence <= next.sequence
      by { hide Refusal, WithoutKey, QueueLocal, ValidStore; }
    hide QueueLocal, ValidStore, AcceptedOk, QueuedBy;
    QueuedDownlink(s, t, items, op);
    QueuedOutbox(s, t, items, op);
    hide OutboxMoving, DownlinkOk;
  }

  lemma LocalCommitted(s: System, op: Operation, next: StoreValue)
    requires Inv(s)
    requires QueueLocal(s.replica.mem, op.key, op.content, false) == Ok(Queued(next, true))
    requires QueuedBy(s.replica.mem, op, false, next)
    ensures Inv(Accepting(s, op, next))
  {
    hide QueueLocal, QueuedBy, Roles, UplinkOk, SessionOk, StoresOk;
    AcceptingStores(s, op, next);
    if s.replicaEnd.up {
      var items :| SessionOk(s, items);
      ReplicaMemory(s);
      AcceptingSession(s, op, next, items);
    }
  }

  lemma ReplicaMemory(s: System)
    requires StoresOk(s)
    ensures ValidStore(s.replica.mem) && AcceptedOk(s.accepted, s.replica.mem)
  {
    hide ValidStore, AcceptedOk, OwnerStores, Authentic, DiskOutboxOk, Within;
  }

  lemma AcceptedDisk(accepted: set<Operation>, store: StoreValue)
    requires AcceptedOk(accepted, store)
    ensures DiskOutboxOk(accepted, store, store.sequence)
  {
  }

  /** The replica once the first requests of a batch are committed. */
  function Batched(s: System, requests: seq<Request>, metadata: Option<Metadata>): System
    requires QueueBatch(WithMetadata(s.replica.mem, metadata), requests, false).Ok?
  {
    var store := WithMetadata(s.replica.mem, metadata);
    var next := QueueBatch(store, requests, false).value.store;
    s.(replica := s.replica.(mem := next, disk := next), replicaOwes := true,
       accepted := s.accepted + BatchOperations(store, requests, false))
  }

  lemma MetadataCommitted(s: System, next: StoreValue)
    requires Inv(s)
    requires next == s.replica.mem.(phoneInstances := next.phoneInstances, importedPhones := next.importedPhones)
    ensures Inv(s.(replica := s.replica.(mem := next, disk := next), replicaOwes := true))
  {
    var t := s.(replica := s.replica.(mem := next, disk := next), replicaOwes := true);
    SameHistory(s.accepted, s.replica.identity, s.replica.mem, next, s.owner.mem);
    AcceptedDisk(s.accepted, next);
    hide OwnerStores, ReplicaStore, AcceptedOk, DiskOutboxOk, Authentic;
    assert Uplink(t) == Uplink(s) && Downlink(t) == Downlink(s);
    UplinkGrows(s, t);
    hide UplinkOk;
    if s.replicaEnd.up {
      var items :| SessionOk(s, items);
      MetadataSession(s, t, items);
    }
  }

  lemma MetadataSession(s: System, t: System, items: seq<Item>)
    requires SessionOk(s, items)
    requires t == s.(replica := t.replica, replicaOwes := true)
    requires t.replica.mem == s.replica.mem.(phoneInstances := t.replica.mem.phoneInstances,
                                             importedPhones := t.replica.mem.importedPhones)
    ensures SessionOk(t, items)
  {
    hide Continues, SnapshotsCover, ReceiptsHonoured, Chained, SnapshotOk;
    assert Uplink(t) == Uplink(s) && Downlink(t) == Downlink(s);
    forall i | 0 <= i < |items| ensures ItemOk(items[i], t.accepted, t.replica.mem, t.owner.mem) {
      assert ItemOk(items[i], s.accepted, s.replica.mem, s.owner.mem);
    }
    hide ItemOk, Uplink, Downlink;
  }

  lemma SameHistory(
    accepted: set<Operation>, replica: string, store: StoreValue, next: StoreValue, owner: StoreValue)
    requires ReplicaStore(accepted, replica, store, owner) && AcceptedOk(accepted, store)
    requires next == store.(phoneInstances := next.phoneInstances, importedPhones := next.importedPhones)
    ensures ReplicaStore(accepted, replica, next, owner) && AcceptedOk(accepted, next)
  {
    hide ValidRecords, ValidOutbox, KeysWithin, Within, Authentic, Subsumes, PendingCovers;
    forall op | op in accepted ensures Covered(op, next, owner.records) {
      assert Covered(op, store, owner.records);
    }
  }

  lemma {:induction false} BatchCommitted(s: System, requests: seq<Request>, metadata: Option<Metadata>)
    requires Inv(s)
    requires QueueBatch(WithMetadata(s.replica.mem, metadata), requests, false).Ok?
    ensures Inv(Batched(s, requests, metadata))
  {
    hide Inv, QueueLocal;
    var store := WithMetadata(s.replica.mem, metadata);
    if |requests| == 0 {
      MetadataCommitted(s, store);
      assert s.accepted + {} == s.accepted;
    } else {
      var front, last := requests[..|requests| - 1], requests[|requests| - 1];
      BatchCommitted(s, front, metadata);
      var before := Batched(s, front, metadata);
      var middle := before.replica.mem;
      var queued := QueueLocal(middle, last.key, last.content, false).value;
      QueueCases(middle, last.key, last.content, false);
      if queued.changed {
        var op := Operation(middle.sequence + 1, last.key, last.content);
        assert queued.store.sequence == op.sequence by { hide Refusal, WithoutKey; }
        LocalCommitted(before, op, queued.store);
        assert Batched(s, requests, metadata)
            == before.(replica := before.replica.(mem := queued.store, disk := queued.store),
                       accepted := before.accepted + {op});
      } else {
        assert s.accepted + (BatchOperations(store, front, false) + {}) == before.accepted;
        assert Batched(s, requests, metadata) == before;
      }
    }
  }

  /** A batch that reached the disk only: the disk is ahead of memory by operations nobody has seen. */
  lemma {:induction false} BatchOnDisk(
    accepted: set<Operation>, replica: string, store: StoreValue, requests: seq<Request>,
    owner: StoreValue, base: nat)
    requires ReplicaStore(accepted, replica, store, owner) && Below(accepted, store)
    requires DiskOutboxOk(accepted, store, base)
    requires QueueBatch(store, requests, false).Ok?
    ensures var next := QueueBatch(store, requests, false).value.store;
            && ReplicaStore(accepted, replica, next, owner) && Below(accepted, next)
            && DiskOutboxOk(accepted, next, base)
            && next.records == store.records && next.localIdentity == store.localIdentity
  {
    hide ReplicaStore, QueueLocal, Below, DiskOutboxOk;
    if |requests| > 0 {
      var front, last := requests[..|requests| - 1], requests[|requests| - 1];
      BatchOnDisk(accepted, replica, store, front, owner, base);
      var middle := QueueBatch(store, front, false).value.store;
      var queued := QueueLocal(middle, last.key, last.content, false).value;
      QueueCases(middle, last.key, last.content, false);
      if queued.changed {
        OneOnDisk(accepted, replica, middle, Operation(middle.sequence + 1, last.key, last.content),
                  queued.store, owner, base);
      }
    }
  }

  lemma OneOnDisk(
    accepted: set<Operation>, replica: string, store: StoreValue, op: Operation, next: StoreValue,
    owner: StoreValue, base: nat)
    requires ReplicaStore(accepted, replica, store, owner) && Below(accepted, store)
    requires DiskOutboxOk(accepted, store, base)
    requires QueueLocal(store, op.key, op.content, false) == Ok(Queued(next, true))
    requires QueuedBy(store, op, false, next)
    ensures ReplicaStore(accepted, replica, next, owner) && Below(accepted, next)
    ensures DiskOutboxOk(accepted, next, base)
    ensures next.records == store.records && next.localIdentity == store.localIdentity
  {
    hide QueueLocal, Refusal, WithoutKey, ValidRecords, ValidOutbox, KeysWithin, Within, Authentic,
         AllCovered;
    QueuedReplicaStore(accepted, accepted, replica, store, op, next, owner);
    QueuedDisk(accepted, store, op, next, base);
    forall o | o in accepted ensures OwnOperation(o, next.localIdentity, next.sequence) {
      assert OwnOperation(o, store.localIdentity, store.sequence);
    }
  }

  lemma BatchUnconfirmed(s: System, requests: seq<Request>, metadata: Option<Metadata>)
    requires Inv(s)
    requires QueueBatch(WithMetadata(s.replica.mem, metadata), requests, false).Ok?
    ensures var next := QueueBatch(WithMetadata(s.replica.mem, metadata), requests, false).value.store;
            Inv(s.(replica := s.replica.(disk := next)))
  {
    hide QueueBatch;
    var store := WithMetadata(s.replica.mem, metadata);
    var next := QueueBatch(store, requests, false).value.store;
    var t := s.(replica := s.replica.(disk := next));
    SameHistory(s.accepted, s.replica.identity, s.replica.mem, store, s.owner.mem);
    AcceptedDisk(s.accepted, store);
    BatchOnDisk(s.accepted, s.replica.identity, store, requests, s.owner.mem, s.replica.mem.sequence);
    SameWithin(s.replica.mem.records);
    hide OwnerStores, ReplicaStore, AcceptedOk, DiskOutboxOk, Authentic, Within, Below;
    DiskFrame(s, t);
  }

  lemma SameWithin(records: seq<Record>)
    ensures Within(records, records)
  {
  }

  lemma LocalChangeKeeps(
    s: System, requests: seq<Request>, metadata: Option<Metadata>, durability: Durability)
    requires Inv(s)
    ensures Inv(DoLocalChange(s, requests, metadata, durability))
  {
    hide Inv, QueueBatch, BatchOperations;
    if BatchStore(s.replica.mem, requests, metadata, false).Some? {
      if durability.Committed? {
        BatchCommitted(s, requests, metadata);
      } else if durability.Unconfirmed? {
        BatchUnconfirmed(s, requests, metadata);
      }
    }
  }

  lemma ReplicaAnnounceKeeps(s: System)
    requires Inv(s)
    ensures Inv(Next(s, ReplicaAnnounce))
  {
    hide OwnerStores, ReplicaStore, Authentic, AcceptedOk, DiskOutboxOk, DownlinkOk, Within;
    var t := Next(s, ReplicaAnnounce);
    assert Uplink(t) == Uplink(s) && Downlink(t) == Downlink(s);
    if s.replicaEnd.up {
      var items :| SessionOk(s, items);
      DownlinkFrame(s, t, items);
      hide Uplink, Downlink;
      assert SessionOk(t, items);
    }
  }

  /** The disk copy of the replica does not matter to the session. */
  lemma DiskFrame(s: System, t: System)
    requires Roles(s) && UplinkOk(s)
    requires s.replicaEnd.up ==> exists items :: SessionOk(s, items)
    requires t == s.(replica := s.replica.(disk := t.replica.disk))
    ensures UplinkOk(t)
    ensures t.replicaEnd.up ==> exists items :: SessionOk(t, items)
  {
    hide ItemOk, SnapshotsCover, ReceiptsHonoured, Continues;
    assert Uplink(t) == Uplink(s) && Downlink(t) == Downlink(s);
    if s.replicaEnd.up {
      var items :| SessionOk(s, items);
      OutboxFrame(s, t, items);
      assert SessionOk(t, items);
    }
  }

  // --------------------------------------------------------- session upkeep

  lemma ReplicaNoticeKeeps(s: System)
    requires Inv(s)
    ensures Inv(Next(s, ReplicaNotice))
  {
    hide OwnerStores, ReplicaStore, Authentic, AcceptedOk, DiskOutboxOk;
    var t := Next(s, ReplicaNotice);
    assert Uplink(t) == Uplink(s) && Downlink(t) == Downlink(s);
    if s.replicaEnd.up {
      var items :| SessionOk(s, items);
      DownlinkFrame(s, t, items);
      NoticeOutbox(s, t, items);
      hide DownlinkOk, OutboxMoving;
      assert SessionOk(t, items);
    }
  }

  lemma NoticeOutbox(s: System, t: System, items: seq<Item>)
    requires OutboxMoving(s, items)
    requires t == s.(replicaEnd := Notice(s.replicaEnd))
    ensures OutboxMoving(t, items)
  {
  }

  lemma ReplicaTransmitKeeps(s: System)
    requires Inv(s)
    ensures Inv(Next(s, ReplicaTransmit))
  {
    hide OwnerStores, ReplicaStore, Authentic, AcceptedOk, DiskOutboxOk, Within, UplinkEvent, SessionOk;
    TransmittedChannels(s);
    hide Uplink, Downlink;
    if s.replicaEnd.up {
      var items :| SessionOk(s, items);
      TransmittedSession(s, items);
    }
  }

  lemma TransmittedSession(s: System, items: seq<Item>)
    requires SessionOk(s, items)
    ensures SessionOk(Next(s, ReplicaTransmit), items)
  {
    var t := Next(s, ReplicaTransmit);
    TransmittedChannels(s);
    hide Uplink, Downlink, DownlinkOk, OutboxMoving, InSync;
    DownlinkFrame(s, t, items);
    TransmitOutbox(s, t, items);
    InSyncFrame(s, t, items);
  }

  lemma TransmittedChannels(s: System)
    ensures Downlink(Next(s, ReplicaTransmit)) == Downlink(s)
    ensures Uplink(Next(s, ReplicaTransmit)) == Uplink(s)
  {
  }

  lemma TransmitOutbox(s: System, t: System, items: seq<Item>)
    requires OutboxMoving(s, items)
    requires t == s.(toOwner := t.toOwner, replicaEnd := t.replicaEnd)
    requires t.replicaEnd.link == s.replicaEnd.link.(outgoing := t.replicaEnd.link.outgoing)
    requires forall e :: e in Uplink(s) ==> e in Uplink(t)
    ensures OutboxMoving(t, items)
  {
  }

  lemma ReplicaFillKeeps(s: System)
    requires Inv(s)
    ensures Inv(Next(s, ReplicaFill))
  {
    hide OwnerStores, ReplicaStore, Authentic, AcceptedOk, DiskOutboxOk, UplinkOk, DownlinkOk,
         OutboxMoving, Submits, LatestSequence, InSync;
    var t := Next(s, ReplicaFill);
    if CanFill(s.replicaEnd) {
      var added := Submits(s.replica.mem.pending, s.replicaEnd.link.sentThrough);
      assert Uplink(t) == Uplink(s) + added;
      assert Downlink(t) == Downlink(s);
      FilledUplink(s, t, added);
      var items :| SessionOk(s, items);
      FilledSent(s);
      DownlinkFrame(s, t, items);
      FilledOutbox(s, t, items, added);
      InSyncFrame(s, t, items);
      assert SessionOk(t, items);
    }
  }

  lemma InSyncFrame(s: System, t: System, items: seq<Item>)
    requires InSync(s, items)
    requires t.ownerEnd == s.ownerEnd && t.owner == s.owner && t.ownerOwes == s.ownerOwes
    requires t.replica.mem.records == s.replica.mem.records
    ensures InSync(t, items)
  {
  }

  lemma FilledSent(s: System)
    requires AcceptedOk(s.accepted, s.replica.mem)
    requires s.replicaEnd.link.sentThrough <= s.replica.mem.sequence
    ensures LatestSequence(s.replica.mem.pending, s.replicaEnd.link.sentThrough) <= s.replica.mem.sequence
  {
  }

  lemma FilledUplink(s: System, t: System, added: seq<Event>)
    requires UplinkOk(s) && AcceptedOk(s.accepted, s.replica.mem)
    requires Uplink(t) == Uplink(s) + added
    requires added == Submits(s.replica.mem.pending, s.replicaEnd.link.sentThrough)
    requires t.accepted == s.accepted
    requires t.owner.identity == s.owner.identity && t.ownerEnd == s.ownerEnd
    ensures UplinkOk(t)
  {
  }

  lemma FilledOutbox(s: System, t: System, items: seq<Item>, added: seq<Event>)
    requires OutboxMoving(s, items)
    requires t.ownerEnd.up == s.ownerEnd.up
    requires t.replica.mem == s.replica.mem
    requires t.replicaEnd.link.sentThrough
          == LatestSequence(s.replica.mem.pending, s.replicaEnd.link.sentThrough)
    requires added == Submits(s.replica.mem.pending, s.replicaEnd.link.sentThrough)
    requires Uplink(t) == Uplink(s) + added
    ensures OutboxMoving(t, items)
  {
  }

  // ------------------------------------------------------- crashes and links

  lemma ReplicaDropKeeps(s: System)
    requires Inv(s)
    ensures Inv(Next(s, ReplicaDrop))
  {
    hide OwnerStores, ReplicaStore, Authentic, AcceptedOk, DiskOutboxOk;
    assert Uplink(Next(s, ReplicaDrop)) == Uplink(s);
  }

  lemma ReloadAccepted(
    accepted: set<Operation>, replica: string, mem: StoreValue, disk: StoreValue, owner: StoreValue)
    requires AcceptedOk(accepted, mem) && ReplicaStore(accepted, replica, disk, owner)
    requires DiskOutboxOk(accepted, disk, mem.sequence)
    requires mem.localIdentity == disk.localIdentity
    ensures AcceptedOk(accepted + Pending(disk), disk)
  {
    hide Refusal, ValidRecords, KeysWithin, Authentic, AllCovered;
    var more := accepted + Pending(disk);
    forall o | o in more ensures OwnOperation(o, disk.localIdentity, disk.sequence) {
      if o in accepted { assert OwnOperation(o, mem.localIdentity, mem.sequence); }
    }
    forall a, b | a in more && b in more && a.sequence == b.sequence ensures a == b {
      if a in accepted { assert OwnOperation(a, mem.localIdentity, mem.sequence); }
      if b in accepted { assert OwnOperation(b, mem.localIdentity, mem.sequence); }
    }
  }

  lemma ReloadStore(accepted: set<Operation>, replica: string, disk: StoreValue, owner: StoreValue)
    requires ReplicaStore(accepted, replica, disk, owner)
    ensures accepted <= accepted + Pending(disk)
    ensures ReplicaStore(accepted + Pending(disk), replica, disk, owner)
  {
  }

  lemma ReplicaCrashKeeps(s: System)
    requires Inv(s)
    ensures Inv(Next(s, ReplicaCrash))
  {
    hide OwnerStores, ReplicaStore, Authentic, AcceptedOk, DiskOutboxOk, UplinkOk, Pending, SessionOk;
    var t := Next(s, ReplicaCrash);
    ReloadAccepted(s.accepted, s.replica.identity, s.replica.mem, s.replica.disk, s.owner.mem);
    ReloadStore(s.accepted, s.replica.identity, s.replica.disk, s.owner.mem);
    AuthenticGrows(s.accepted, t.accepted, s.replica.identity, s.owner.mem.records);
    AuthenticGrows(s.accepted, t.accepted, s.replica.identity, s.owner.disk.records);
    AcceptedDisk(t.accepted, s.replica.disk);
    assert Uplink(t) == Uplink(s);
    UplinkGrows(s, t);
  }

  lemma ConnectKeeps(s: System)
    requires Inv(s)
    ensures Inv(Next(s, Connect))
  {
    hide OwnerStores, ReplicaStore, Authentic, AcceptedOk, DiskOutboxOk, SnapshotOk, Within, SessionOk;
    var t := Next(s, Connect);
    ConnectSession(s);
    assert Uplink(t) == [Settings(s.owner.identity)];
    assert SessionOk(t, [Agreement(s.owner.identity)]);
  }

  lemma ConnectSession(s: System)
    requires Inv(s)
    ensures SessionOk(Next(s, Connect), [Agreement(s.owner.identity)])
  {
    forall i | 0 <= i < |s.replica.mem.pending| ensures s.replica.mem.pending[i].sequence > 0 {
      assert OwnOperation(s.replica.mem.pending[i], s.replica.identity, s.replica.mem.sequence);
    }
    hide StoresOk, UplinkOk, SessionOk;
    NewSession(s);
  }

  lemma NewSession(s: System)
    requires Roles(s)
    requires forall i :: 0 <= i < |s.replica.mem.pending| ==> s.replica.mem.pending[i].sequence > 0
    ensures SessionOk(Next(s, Connect), [Agreement(s.owner.identity)])
  {
    hide SnapshotOk, Within, Uplink, Unanswered, LastRecords, Honoured, PendingCovers, Subsumes;
    var items := [Agreement(s.owner.identity)];
    assert Flatten(items) == Events(items[0]) + Flatten(items[1..]);
    assert Downlink(Next(s, Connect)) == [Settings(s.owner.identity)];
  }
}
