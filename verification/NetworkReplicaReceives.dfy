/**
 The replica taking what the owner sent keeps the invariant, and the checks that guard the
 stream against malformed histories never fire.
 */
module NetworkReplicaReceives {
  import opened Types
  import opened StoreSpec
  import opened OverlayLaws
  import opened LinkSpec
  import opened Network
  import opened NetworkInvariant
  import opened NetworkReplicaSteps
  import NetworkOwnerReceives

  // -------------------------------------------------------- reading the stream

  /** Outside a snapshot, the next event starts the owner's next message. */
  lemma HeadOutside(items: seq<Item>, events: seq<Event>)
    requires Continues(items, None, events) && |events| > 0
    ensures |items| > 0
    ensures if items[0].Snapshot? then
              && events[0] == SnapshotStart(items[0].epoch)
              && Continues(items, Some(Staged(items[0].epoch, [])), events[1..])
            else
              && events == Events(items[0]) + events[1..]
              && Continues(items[1..], None, events[1..])
  {
    assert items != [];
    var head, rest := Events(items[0]), Flatten(items[1..]);
    assert events == head + rest;
    HeadOf(items[0]);
    hide Flatten, Events, Remainder;
    assert events[1..] == head[1..] + rest;
    if items[0].Snapshot? {
      assert items[0].records[..0] == [];
    } else {
      assert events[1..] == rest;
      assert head == [events[0]];
    }
  }

  lemma HeadOf(item: Item)
    ensures |Events(item)| > 0
    ensures if item.Snapshot? then
              Events(item)[0] == SnapshotStart(item.epoch) && Events(item)[1..] == Remainder(item.records, 0)
            else |Events(item)| == 1
  {
  }

  /** Inside a snapshot, the next event is its next record, or its end after the last one. */
  lemma HeadInside(items: seq<Item>, staged: Staged, events: seq<Event>)
    requires Continues(items, Some(staged), events) && |events| > 0
    ensures var got, all := staged.records, items[0].records;
            if |got| < |all| then
              && events[0] == SnapshotRecord(all[|got|])
              && Continues(items, Some(staged.(records := got + [all[|got|]])), events[1..])
            else
              && events[0] == SnapshotEnd
              && got == all
              && Continues(items[1..], None, events[1..])
  {
    hide Flatten, RecordEvents;
    var got, all := staged.records, items[0].records;
    var rest := Remainder(all, |got|);
    RemainderStep(all, |got|);
    assert events[1..] == rest[1..] + Flatten(items[1..]);
    if |got| < |all| {
      assert all[..|got| + 1] == got + [all[|got|]];
    }
  }

  lemma RemainderStep(records: seq<Record>, n: nat)
    requires n <= |records|
    ensures var rest := Remainder(records, n);
            |rest| > 0 && if n < |records| then
              rest[0] == SnapshotRecord(records[n]) && rest[1..] == Remainder(records, n + 1)
            else rest == [SnapshotEnd]
  {
  }

  lemma TailOk(
    items: seq<Item>, accepted: set<Operation>, replica: StoreValue, owner: StoreValue)
    requires |items| > 0
    requires forall i :: 0 <= i < |items| ==> ItemOk(items[i], accepted, replica, owner)
    requires SnapshotsCover(items, accepted, replica.pending)
    requires ReceiptsHonoured(items, replica.pending, owner.records)
    ensures forall i :: 0 <= i < |items[1..]| ==> ItemOk(items[1..][i], accepted, replica, owner)
    ensures SnapshotsCover(items[1..], accepted, replica.pending)
    ensures ReceiptsHonoured(items[1..], replica.pending, owner.records)
  {
  }

  lemma {:induction false} LastRecordsTail(items: seq<Item>, base: seq<Record>)
    requires |items| > 0
    ensures LastRecords(items, base)
         == LastRecords(items[1..], if items[0].Snapshot? then items[0].records else base)
  {
    var last := |items| - 1;
    if last > 0 && !items[last].Snapshot? {
      LastRecordsTail(items[..last], base);
      assert items[..last][1..] == items[1..][..last - 1];
    }
  }

  /** Either a snapshot on its way decides the outcome, or nothing changes what is there. */
  lemma {:induction false} LastRecordsBase(items: seq<Item>, base: seq<Record>, other: seq<Record>)
    ensures LastRecords(items, base) == LastRecords(items, other)
         || (LastRecords(items, base) == base && LastRecords(items, other) == other)
  {
    if |items| > 0 && !items[|items| - 1].Snapshot? {
      LastRecordsBase(items[..|items| - 1], base, other);
    }
  }

  // ------------------------------------------------- what arriving events mean

  lemma ReplicaIsNotOwner(s: System)
    requires Roles(s)
    ensures !IsCoordinator(s.replica)
  {
  }

  lemma DeliveredUplink(s: System, t: System)
    requires UplinkOk(s)
    requires Uplink(t) == Uplink(s) && t.accepted == s.accepted
    requires t.owner.identity == s.owner.identity && t.ownerEnd == s.ownerEnd
    ensures UplinkOk(t)
  {
  }

  /** A session moves on: memory unchanged, the stream advanced. */
  lemma StreamAdvances(s: System, t: System, items: seq<Item>, rest: seq<Item>)
    requires SessionOk(s, items)
    requires t == s.(replicaEnd := t.replicaEnd, toReplica := t.toReplica)
    requires t.replicaEnd.link
          == s.replicaEnd.link.(agreed := t.replicaEnd.link.agreed, staged := t.replicaEnd.link.staged)
    requires t.replicaEnd.link.agreed
    requires rest == items || (|items| > 0 && rest == items[1..] && !items[0].Snapshot?
                               && (items[0].Receipt? ==>
                                     SequenceIndex(s.replica.mem.pending, items[0].sequence) < 0))
    requires Continues(rest, t.replicaEnd.link.staged, Downlink(t))
    ensures SessionOk(t, rest)
  {
    hide Continues, ItemOk, SnapshotsCover, ReceiptsHonoured, Downlink;
    if rest != items {
      TailOk(items, s.accepted, s.replica.mem, s.owner.mem);
      LastRecordsTail(items, s.replica.mem.records);
    }
    assert Uplink(t) == Uplink(s);
    hide Uplink, LastRecords;
    forall i | t.ownerEnd.up && 0 <= i < |t.replica.mem.pending|
      ensures var p := t.replica.mem.pending[i];
              p.sequence > t.replicaEnd.link.sentThrough || Unanswered(t, rest, p)
    {
      var p := s.replica.mem.pending[i];
      if p.sequence <= s.replicaEnd.link.sentThrough {
        assert Unanswered(s, items, p);
        if rest != items && Receipt(p.sequence) in items {
          var k :| 0 <= k < |items| && items[k] == Receipt(p.sequence);
          assert k > 0;
          assert rest[k - 1] == Receipt(p.sequence);
        }
      }
    }
  }

  lemma LinkFrame(s: System, t: System)
    requires Roles(s) && StoresOk(s) && UplinkOk(s)
    requires t == s.(replicaEnd := t.replicaEnd, toReplica := t.toReplica)
    requires t.replicaEnd.link.outgoing == s.replicaEnd.link.outgoing
    ensures Roles(t) && StoresOk(t) && UplinkOk(t)
  {
    hide OwnerStores, ReplicaStore, Authentic, AcceptedOk, DiskOutboxOk;
    assert Uplink(t) == Uplink(s);
    DeliveredUplink(s, t);
  }

  lemma ReplicaTakesSettings(s: System, items: seq<Item>, durability: Durability)
    requires Inv(s) && s.replicaEnd.up && SessionOk(s, items)
    requires |s.toReplica| > 0 && |items| > 0
    requires s.toReplica[0].Settings?
    requires items[0] == Agreement(s.toReplica[0].coordinator)
    requires Continues(items[1..], None, Downlink(s)[1..]) && s.replicaEnd.link.staged.None?
    ensures Inv(DoReplicaDeliver(s, durability))
    ensures Receive(s.replica, s.replicaEnd.link, s.toReplica[0], durability).error.None?
  {
    hide AcceptedOk, DiskOutboxOk, Authentic, ValidStore, UplinkOk, Continues, Advances, StoresOk,
         InSync, OutboxMoving, SnapshotsCover, ReceiptsHonoured;
    var t := DoReplicaDeliver(s, durability);
    assert ItemOk(items[0], s.accepted, s.replica.mem, s.owner.mem);
    assert Downlink(t) == Downlink(s)[1..];
    hide SessionOk, Downlink;
    StreamAdvances(s, t, items, items[1..]);
    LinkFrame(s, t);
  }

  lemma ReplicaTakesStart(s: System, items: seq<Item>, durability: Durability)
    requires Inv(s) && s.replicaEnd.up && SessionOk(s, items)
    requires |s.toReplica| > 0 && |items| > 0 && items[0].Snapshot?
    requires s.toReplica[0] == SnapshotStart(items[0].epoch) && s.replicaEnd.link.staged.None?
    requires Continues(items, Some(Staged(items[0].epoch, [])), Downlink(s)[1..])
    ensures Inv(DoReplicaDeliver(s, durability))
    ensures Receive(s.replica, s.replicaEnd.link, s.toReplica[0], durability).error.None?
  {
    hide AcceptedOk, DiskOutboxOk, Authentic, ValidStore, UplinkOk, Continues, Advances;
    var t := DoReplicaDeliver(s, durability);
    assert ItemOk(items[0], s.accepted, s.replica.mem, s.owner.mem);
    ReplicaIsNotOwner(s);
    assert Downlink(t) == Downlink(s)[1..];
    hide StoresOk, SessionOk, Downlink;
    StreamAdvances(s, t, items, items);
    LinkFrame(s, t);
  }

  lemma RecordAccepted(hub: Hub, link: Link, records: seq<Record>, n: nat)
    requires ValidRecords(records) && n < |records|
    requires link.staged.Some? && link.staged.value.records == records[..n]
    ensures ReceiveRecord(hub, link, records[n])
         == Received(hub, link.(staged := Some(link.staged.value.(
                                  records := records[..n] + [records[n]]))), None)
  {
  }

  lemma ReplicaTakesRecord(s: System, items: seq<Item>, durability: Durability)
    requires Inv(s) && s.replicaEnd.up && SessionOk(s, items)
    requires |s.toReplica| > 0 && |items| > 0 && items[0].Snapshot?
    requires s.replicaEnd.link.staged.Some?
    requires var got, all := s.replicaEnd.link.staged.value.records, items[0].records;
             && |got| < |all|
             && s.toReplica[0] == SnapshotRecord(all[|got|])
             && Continues(items, Some(s.replicaEnd.link.staged.value.(records := got + [all[|got|]])),
                          Downlink(s)[1..])
    ensures Inv(DoReplicaDeliver(s, durability))
    ensures Receive(s.replica, s.replicaEnd.link, s.toReplica[0], durability).error.None?
  {
    hide StoresOk, UplinkOk, ValidRecords, Advances, Authentic, ReceiveRecord, Flatten;
    var t := DoReplicaDeliver(s, durability);
    assert ItemOk(items[0], s.accepted, s.replica.mem, s.owner.mem);
    RecordAccepted(s.replica, s.replicaEnd.link, items[0].records,
                   |s.replicaEnd.link.staged.value.records|);
    ReplicaIsNotOwner(s);
    assert Downlink(t) == Downlink(s)[1..];
    hide SessionOk, Continues, Downlink;
    StreamAdvances(s, t, items, items);
    LinkFrame(s, t);
  }

  // -------------------------------------------------------- new replica memory

  /** What the replica would store next is as good as what it has. */
  ghost predicate GoodNext(s: System, next: StoreValue) {
    && next.localIdentity == s.replica.identity
    && ReplicaStore(s.accepted, s.replica.identity, next, s.owner.mem)
    && AcceptedOk(s.accepted, next)
    && next.sequence == s.replica.mem.sequence
    && Within(s.replica.mem.records, next.records)
  }

  lemma StoredStores(s: System, t: System, next: StoreValue, durability: Durability)
    requires Roles(s) && StoresOk(s) && UplinkOk(s) && GoodNext(s, next)
    requires t == s.(replica := Commit(s.replica, next, durability),
                     replicaEnd := t.replicaEnd, toReplica := t.toReplica)
    requires t.replicaEnd.link.outgoing == s.replicaEnd.link.outgoing
    ensures Roles(t) && StoresOk(t) && UplinkOk(t)
  {
    hide OwnerStores, ReplicaStore, Authentic, AcceptedOk, DiskOutboxOk, Within;
    AcceptedDisk(s.accepted, next);
    SameWithin(next.records);
    assert Uplink(t) == Uplink(s);
    DeliveredUplink(s, t);
  }

  lemma SnapshotGoodNext(s: System, items: seq<Item>, next: StoreValue)
    requires Roles(s) && StoresOk(s) && DownlinkOk(s, items)
    requires |items| > 0 && items[0].Snapshot?
    requires next == s.replica.mem.(epoch := items[0].epoch, records := items[0].records)
    ensures GoodNext(s, next)
  {
    hide Continues, ReceiptsHonoured, DiskOutboxOk, Authentic, Subsumes, PendingCovers, ValidRecords,
         ValidOutbox, OwnOperation, Within;
    var owner := s.owner.mem.records;
    assert ItemOk(items[0], s.accepted, s.replica.mem, s.owner.mem);
    AdvancesWithin(next.records, owner);
    hide Advances, Lookup;
    forall op | op in s.accepted ensures Covered(op, next, owner) {
      if Subsumes(next.records, op) {
        AdvancesSubsumes(next.records, owner, op);
      }
    }
  }

  lemma ChainedTail(items: seq<Item>, records: seq<Record>)
    requires Chained(items, records) && |items| > 0
    ensures Chained(items[1..], if items[0].Snapshot? then items[0].records else records)
  {
    hide Within;
    var rest := items[1..];
    forall i | 0 <= i < |rest| && rest[i].Snapshot? && items[0].Snapshot?
      ensures Within(items[0].records, rest[i].records)
    {
      assert rest[i] == items[i + 1];
    }
  }

  /** Taking in an operation that is reflected elsewhere adds and dismisses nothing new there. */
  lemma AttemptWithin(records: seq<Record>, other: seq<Record>, sender: string, op: Operation)
    requires Within(records, other) && Subsumes(other, op) && Refusal(sender, op).None?
    ensures Within(Attempt(records, sender, op), other)
  {
    AttemptKeysWithin(records, other, sender, op);
    hide Refusal, Attempt, Lookup, KeysWithin;
    var after := Attempt(records, sender, op);
    forall key | Dead(Lookup(after, key)) ensures Dead(Lookup(other, key)) {
      AttemptLookup(records, sender, op, key);
    }
  }

  lemma SnapshotSession(s: System, t: System, items: seq<Item>, next: StoreValue)
    requires SessionOk(s, items) && |items| > 0 && items[0].Snapshot?
    requires next == s.replica.mem.(epoch := items[0].epoch, records := items[0].records)
    requires t == s.(replica := t.replica, replicaEnd := t.replicaEnd, toReplica := t.toReplica)
    requires t.replica.mem == next
    requires t.replicaEnd.link
          == s.replicaEnd.link.(changed := t.replicaEnd.link.changed, staged := None)
    requires s.replicaEnd.link.changed ==> t.replicaEnd.link.changed
    requires Continues(items[1..], None, Downlink(t))
    requires s.replicaEnd.link.agreed
    ensures SessionOk(t, items[1..])
  {
    hide Continues, SnapshotsCover, ReceiptsHonoured, Downlink, SnapshotOk, Chained;
    var rest := items[1..];
    ChainedTail(items, s.replica.mem.records);
    TailOk(items, s.accepted, s.replica.mem, s.owner.mem);
    LastRecordsTail(items, s.replica.mem.records);
    assert Uplink(t) == Uplink(s);
    forall i | 0 <= i < |rest| ensures ItemOk(rest[i], t.accepted, t.replica.mem, t.owner.mem) {
      assert ItemOk(rest[i], s.accepted, s.replica.mem, s.owner.mem);
    }
    hide Uplink, LastRecords, ItemOk;
    forall i | t.ownerEnd.up && 0 <= i < |t.replica.mem.pending|
      ensures var p := t.replica.mem.pending[i];
              if p.sequence > t.replicaEnd.link.sentThrough then
                t.replicaEnd.link.changed || t.replicaEnd.link.dirty || t.replicaOwes
              else Unanswered(t, rest, p)
    {
      var p := s.replica.mem.pending[i];
      if p.sequence <= s.replicaEnd.link.sentThrough {
        assert Unanswered(s, items, p);
        if Receipt(p.sequence) in items {
          var k :| 0 <= k < |items| && items[k] == Receipt(p.sequence);
          assert rest[k - 1] == Receipt(p.sequence);
        }
      }
    }
  }

  lemma ReplicaTakesEnd(s: System, items: seq<Item>, durability: Durability)
    requires Inv(s) && s.replicaEnd.up && SessionOk(s, items)
    requires |s.toReplica| > 0 && s.toReplica[0] == SnapshotEnd
    requires |items| > 0 && items[0].Snapshot?
    requires s.replicaEnd.link.staged == Some(Staged(items[0].epoch, items[0].records))
    requires Continues(items[1..], None, Downlink(s)[1..])
    ensures Inv(DoReplicaDeliver(s, durability))
    ensures var error := Receive(s.replica, s.replicaEnd.link, s.toReplica[0], durability).error;
            error.None? || error.value == PersistFailed
  {
    hide StoresOk, UplinkOk, Continues, SnapshotsCover, ReceiptsHonoured, ItemOk, InSync, OutboxMoving;
    var t := DoReplicaDeliver(s, durability);
    var mem := s.replica.mem;
    var next := mem.(epoch := items[0].epoch, records := items[0].records);
    ReplicaIsNotOwner(s);
    assert s.replicaEnd.link.agreed;
    assert Downlink(t) == Downlink(s)[1..];
    SnapshotGoodNext(s, items, next);
    hide DownlinkOk, Downlink, GoodNext;
    var same := mem.epoch == items[0].epoch && mem.records == items[0].records;
    if same {
      assert next == mem;
      SnapshotSession(s, t, items, next);
      LinkFrame(s, t);
    } else {
      StoredStores(s, t, next, durability);
      if durability.Committed? {
        SnapshotSession(s, t, items, next);
      }
    }
  }

  // ---------------------------------------------------------------- receipts

  /** The owner's history has room for everything it acknowledged, so the replica's has too. */
  lemma ReceiptHasRoom(records: seq<Record>, owner: seq<Record>, op: Operation)
    requires ValidRecords(records) && ValidRecords(owner)
    requires KeysWithin(records, owner) && Subsumes(owner, op)
    ensures IndexOf(records, op.key) >= 0 || |records| < MAX_RECORDS
  {
    hide ValidRecord;
    if IndexOf(records, op.key) < 0 {
      KeySetSize(records);
      KeySetSize(owner);
      forall k | k in KeySet(records) ensures k in KeySet(owner) - {op.key} {
        var i :| 0 <= i < |records| && records[i].key == k;
        assert owner[IndexOf(owner, k)].key == k;
      }
      assert owner[IndexOf(owner, op.key)].key == op.key;
      SubsetSize(KeySet(records), KeySet(owner) - {op.key});
    }
  }

  lemma ReceiptCover(
    pending: seq<Operation>, i: nat, op: Operation, records: seq<Record>)
    requires i < |pending|
    requires PendingCovers(pending, op)
    ensures PendingCovers(Removed(pending, i), op) || (Subsumes(records, pending[i]) ==> Subsumes(records, op))
  {
    var k :| 0 <= k < |pending| && Replaces(pending[k], op);
    if k == i {
      if Subsumes(records, pending[i]) {
        SubsumesOlder(records, op, pending[i]);
      }
    } else {
      var at := if k < i then k else k - 1;
      assert Removed(pending, i)[at] == pending[k];
    }
  }

  lemma AttemptKeysWithin(records: seq<Record>, owner: seq<Record>, sender: string, op: Operation)
    requires KeysWithin(records, owner) && Lookup(owner, op.key).Some?
    ensures KeysWithin(Attempt(records, sender, op), owner)
  {
  }

  /** The store after a receipt: the operation moved from the outbox into the records. */
  function AfterReceipt(store: StoreValue, i: nat): StoreValue
    requires i < |store.pending|
  {
    store.(pending := Removed(store.pending, i),
           records := Attempt(store.records, store.localIdentity, store.pending[i]))
  }

  lemma ReceiptGoodNext(s: System, i: nat)
    requires Roles(s) && StoresOk(s) && i < |s.replica.mem.pending|
    requires Subsumes(s.owner.mem.records, s.replica.mem.pending[i])
    requires Subsumes(AfterReceipt(s.replica.mem, i).records, s.replica.mem.pending[i])
    requires ValidOutbox(Removed(s.replica.mem.pending, i), s.replica.identity, s.replica.mem.sequence)
    requires Refusal(s.replica.mem.localIdentity, s.replica.mem.pending[i]).None?
    ensures GoodNext(s, AfterReceipt(s.replica.mem, i))
  {
    hide Refusal, OwnOperation, Attempt, OwnerStores, DiskOutboxOk, Removed, PendingCovers, ValidRecords,
         ValidOutbox, Authentic, KeysWithin, Within;
    var store, op := s.replica.mem, s.replica.mem.pending[i];
    var next := AfterReceipt(store, i);
    AttemptKeepsValid(store.records, store.localIdentity, op);
    AdvancesWithin(store.records, next.records);
    AttemptWithin(store.records, s.owner.mem.records, store.localIdentity, op);
    NetworkOwnerReceives.AcceptedAuthentic(s.accepted, s.replica.identity, store.records, store.localIdentity, op);
    hide Subsumes, Advances;
    forall o | o in s.accepted ensures Covered(o, next, s.owner.mem.records) {
      assert Covered(o, store, s.owner.mem.records);
      if PendingCovers(store.pending, o) {
        ReceiptCover(store.pending, i, o, next.records);
        ReceiptCover(store.pending, i, o, s.owner.mem.records);
      } else {
        AdvancesSubsumes(store.records, next.records, o);
      }
    }
    forall j | 0 <= j < |next.pending| ensures next.pending[j] in s.accepted {
      RemovedElement(store.pending, i, j);
    }
  }

  lemma RemovedElement(pending: seq<Operation>, i: nat, j: nat)
    requires i < |pending| && j < |Removed(pending, i)|
    ensures |Removed(pending, i)| == |pending| - 1
    ensures Removed(pending, i)[j] == pending[if j < i then j else j + 1]
  {
  }

  lemma ReceiptChain(s: System, items: seq<Item>, i: nat)
    requires DownlinkOk(s, items) && |items| > 0
    requires i < |s.replica.mem.pending| && items[0] == Receipt(s.replica.mem.pending[i].sequence)
    requires Refusal(s.replica.mem.localIdentity, s.replica.mem.pending[i]).None?
    ensures Chained(items[1..], AfterReceipt(s.replica.mem, i).records)
  {
    hide Continues, ItemOk, SnapshotsCover, Subsumes, Attempt, Removed, Within, Refusal;
    var store, op, rest := s.replica.mem, s.replica.mem.pending[i], items[1..];
    assert Honoured(items, 0, op, s.owner.mem.records);
    forall k | 0 <= k < |rest| && rest[k].Snapshot?
      ensures Within(AfterReceipt(store, i).records, rest[k].records)
    {
      assert rest[k] == items[k + 1];
      AttemptWithin(store.records, rest[k].records, store.localIdentity, op);
    }
  }

  lemma ReceiptStream(s: System, t: System, items: seq<Item>, i: nat)
    requires DownlinkOk(s, items) && |items| > 0
    requires i < |s.replica.mem.pending| && items[0] == Receipt(s.replica.mem.pending[i].sequence)
    requires t == s.(replica := t.replica, replicaEnd := t.replicaEnd, toReplica := t.toReplica)
    requires t.replica.mem == AfterReceipt(s.replica.mem, i)
    requires t.replicaEnd.link == s.replicaEnd.link.(changed := true)
    requires Continues(items[1..], s.replicaEnd.link.staged, Downlink(t))
    requires Refusal(s.replica.mem.localIdentity, s.replica.mem.pending[i]).None?
    ensures DownlinkOk(t, items[1..])
  {
    hide Continues, Downlink, SnapshotOk, Subsumes, PendingCovers, Attempt, Removed, Chained, Refusal;
    ReceiptChain(s, items, i);
    var rest, pending, later := items[1..], s.replica.mem.pending, t.replica.mem.pending;
    assert Honoured(items, 0, pending[i], s.owner.mem.records);
    TailOk(items, s.accepted, s.replica.mem, s.owner.mem);
    forall k | 0 <= k < |rest| ensures ItemOk(rest[k], t.accepted, t.replica.mem, t.owner.mem) {
      assert ItemOk(rest[k], s.accepted, s.replica.mem, s.owner.mem);
    }
    forall op, k | op in s.accepted && 0 <= k < |rest| && rest[k].Snapshot?
      ensures PendingCovers(later, op) || Subsumes(rest[k].records, op)
    {
      if PendingCovers(pending, op) {
        assert rest[k] == items[k + 1];
        ReceiptCover(pending, i, op, rest[k].records);
      }
    }
    forall k, j | 0 <= k < |rest| && 0 <= j < |later| && rest[k] == Receipt(later[j].sequence)
      ensures Honoured(rest, k, later[j], s.owner.mem.records)
    {
      RemovedElement(pending, i, j);
      var was := if j < i then j else j + 1;
      assert rest[k] == Receipt(pending[was].sequence);
    }
  }

  lemma ReceiptSync(s: System, t: System, items: seq<Item>, i: nat)
    requires InSync(s, items) && |items| > 0
    requires i < |s.replica.mem.pending| && items[0] == Receipt(s.replica.mem.pending[i].sequence)
    requires Refusal(s.replica.mem.localIdentity, s.replica.mem.pending[i]).None?
    requires Subsumes(s.owner.mem.records, s.replica.mem.pending[i])
    requires t.owner == s.owner && t.ownerEnd == s.ownerEnd && t.ownerOwes == s.ownerOwes
    requires t.replica.mem == AfterReceipt(s.replica.mem, i)
    ensures InSync(t, items[1..])
  {
    hide Refusal, Removed, Subsumes;
    var store := s.replica.mem;
    LastRecordsTail(items, store.records);
    LastRecordsBase(items[1..], store.records, t.replica.mem.records);
    if store.records == s.owner.mem.records {
      SubsumedIffUnchanged(store.records, store.localIdentity, store.pending[i]);
    }
  }

  lemma ReceiptOutbox(s: System, t: System, items: seq<Item>, i: nat)
    requires OutboxMoving(s, items) && |items| > 0
    requires i < |s.replica.mem.pending| && items[0] == Receipt(s.replica.mem.pending[i].sequence)
    requires forall j :: 0 <= j < |s.replica.mem.pending| && j != i ==>
      s.replica.mem.pending[j].sequence != s.replica.mem.pending[i].sequence
    requires t.ownerEnd == s.ownerEnd && Uplink(t) == Uplink(s)
    requires t.replica.mem == AfterReceipt(s.replica.mem, i)
    requires t.replicaEnd.link == s.replicaEnd.link.(changed := true)
    ensures OutboxMoving(t, items[1..])
  {
  }

  /** The owner honours what it acknowledges, and the replica's records have room for it. */
  lemma AckedOperation(s: System, items: seq<Item>, i: nat)
    requires Roles(s) && StoresOk(s) && DownlinkOk(s, items) && |items| > 0
    requires i < |s.replica.mem.pending| && items[0] == Receipt(s.replica.mem.pending[i].sequence)
    ensures var store, op := s.replica.mem, s.replica.mem.pending[i];
            && Refusal(store.localIdentity, op).None?
            && Subsumes(s.owner.mem.records, op)
            && Apply(store.records, store.localIdentity, op).Ok?
            && Subsumes(AfterReceipt(store, i).records, op)
  {
    hide AcceptedOk, DiskOutboxOk, Continues, ItemOk, SnapshotsCover, Authentic, AllCovered, Advances, Refusal,
         Removed, ValidRecords, Chained;
    var store, op := s.replica.mem, s.replica.mem.pending[i];
    assert Honoured(items, 0, op, s.owner.mem.records);
    assert OwnOperation(op, store.localIdentity, store.sequence);
    ReceiptHasRoom(store.records, s.owner.mem.records, op);
    hide Within, ReceiptsHonoured, Subsumes;
    assert Apply(store.records, store.localIdentity, op).Ok?;
    ApplySubsumes(store.records, store.localIdentity, op);
  }

  /** An acknowledged operation that is still queued moves into the records. */
  lemma AckOutcome(s: System, items: seq<Item>, i: nat, durability: Durability)
    requires Roles(s) && StoresOk(s) && DownlinkOk(s, items) && |items| > 0
    requires i < |s.replica.mem.pending| && items[0] == Receipt(s.replica.mem.pending[i].sequence)
    ensures var store, op := s.replica.mem, s.replica.mem.pending[i];
            var next := AfterReceipt(store, i);
            && Refusal(store.localIdentity, op).None?
            && Subsumes(s.owner.mem.records, op)
            && Subsumes(next.records, op)
            && ValidOutbox(next.pending, s.replica.identity, store.sequence)
            && (forall j :: 0 <= j < |store.pending| && j != i ==> store.pending[j].sequence != op.sequence)
            && ReceiveAck(s.replica, s.replicaEnd.link, op.sequence, durability)
                 == Store(s.replica, s.replicaEnd.link, next, durability)
  {
    AckedOperation(s, items, i);
    ReplicaMemory(s);
    hide StoresOk, DownlinkOk, Subsumes, Apply, Refusal, ValidRecords;
    var store, op := s.replica.mem, s.replica.mem.pending[i];
    WithoutSequenceIs(store.pending, store.localIdentity, store.sequence, i);
    assert SequenceIndex(store.pending, op.sequence) == i by { hide SequenceIndex; }
    hide Removed, WithoutSequence;
  }

  lemma ReplicaTakesAck(s: System, items: seq<Item>, sequence: nat, durability: Durability)
    requires Inv(s) && s.replicaEnd.up && SessionOk(s, items)
    requires |s.toReplica| > 0 && s.toReplica[0] == Ack(sequence) && s.replicaEnd.link.staged.None?
    requires |items| > 0 && items[0] == Receipt(sequence)
    requires Continues(items[1..], None, Downlink(s)[1..])
    ensures Inv(DoReplicaDeliver(s, durability))
    ensures var error := Receive(s.replica, s.replicaEnd.link, s.toReplica[0], durability).error;
            error.None? || error.value == PersistFailed
  {
    hide StoresOk, UplinkOk, Continues, SnapshotsCover, ReceiptsHonoured, ItemOk, InSync, OutboxMoving,
         ReceiveEnd, ReceiveRecord, ReceiveStart, ReceiveSubmit, Attempt, Removed, Subsumes, Refusal,
         ValidOutbox;
    var t := DoReplicaDeliver(s, durability);
    ReplicaIsNotOwner(s);
    assert s.replicaEnd.link.agreed;
    assert Downlink(t) == Downlink(s)[1..];
    hide Downlink;
    var i := SequenceIndex(s.replica.mem.pending, sequence);
    if i < 0 {
      hide DownlinkOk;
      StreamAdvances(s, t, items, items[1..]);
      LinkFrame(s, t);
    } else {
      AckOutcome(s, items, i, durability);
      hide ReceiveAck;
      ReceiptGoodNext(s, i);
      hide GoodNext, DownlinkOk;
      StoredStores(s, t, AfterReceipt(s.replica.mem, i), durability);
      if durability.Committed? {
        ReceiptStream(s, t, items, i);
        ReceiptSync(s, t, items, i);
        assert Uplink(t) == Uplink(s);
        ReceiptOutbox(s, t, items, i);
        assert SessionOk(t, items[1..]);
      }
    }
  }

  /**
   The only thing that can stop the replica from taking the owner's stream is its own disk:
   none of the ordering, authority, capacity, duplicate and validity checks can fail.
   */
  lemma ReplicaDeliverKeeps(s: System, durability: Durability)
    requires Inv(s)
    ensures Inv(DoReplicaDeliver(s, durability))
    ensures s.replicaEnd.up && s.toReplica != [] ==>
              var error := Receive(s.replica, s.replicaEnd.link, s.toReplica[0], durability).error;
              error.None? || error.value == PersistFailed
  {
    if s.replicaEnd.up && s.toReplica != [] {
      hide StoresOk, UplinkOk, InSync, OutboxMoving, ItemOk, SnapshotsCover, ReceiptsHonoured, Flatten,
           Remainder;
      var items :| SessionOk(s, items);
      var events, staged := Downlink(s), s.replicaEnd.link.staged;
      assert events[0] == s.toReplica[0];
      if staged.None? {
        HeadOutside(items, events);
        match items[0]
        case Agreement(coordinator) => ReplicaTakesSettings(s, items, durability);
        case Receipt(sequence) => ReplicaTakesAck(s, items, sequence, durability);
        case Snapshot(epoch, records) => ReplicaTakesStart(s, items, durability);
      } else {
        HeadInside(items, staged.value, events);
        if |staged.value.records| < |items[0].records| {
          ReplicaTakesRecord(s, items, durability);
        } else {
          ReplicaTakesEnd(s, items, durability);
        }
      }
    }
  }
}
