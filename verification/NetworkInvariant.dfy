/** What every reachable state of the owner/replica system satisfies. */
module NetworkInvariant {
  import opened Types
  import opened StoreSpec
  import opened LinkSpec
  import opened Network

  // ------------------------------------------------------------- operations

  /** The outbox still speaks for the operation: it, or a newer one on its key, is waiting. */
  ghost predicate PendingCovers(pending: seq<Operation>, op: Operation) {
    exists i :: 0 <= i < |pending| && Replaces(pending[i], op)
  }

  ghost predicate Replaces(newer: Operation, older: Operation) {
    && newer.key == older.key
    && newer.sequence >= older.sequence
    && (older.content.None? ==> newer.content.None?)
  }

  /** Not lost: waiting in the outbox, or reflected both here and by the owner. */
  ghost predicate Covered(op: Operation, store: StoreValue, ownerRecords: seq<Record>) {
    || PendingCovers(store.pending, op)
    || (Subsumes(store.records, op) && Subsumes(ownerRecords, op))
  }

  ghost predicate AllCovered(accepted: set<Operation>, store: StoreValue, ownerRecords: seq<Record>) {
    forall op :: op in accepted ==> Covered(op, store, ownerRecords)
  }

  /** What is shown live under the replica's name is something the replica accepted. */
  ghost predicate Authentic(accepted: set<Operation>, replica: string, records: seq<Record>) {
    forall i :: 0 <= i < |records| ==> AuthenticRecord(accepted, replica, records[i])
  }

  ghost predicate AuthenticRecord(accepted: set<Operation>, replica: string, record: Record) {
    record.key.origin == replica && record.content.Some? ==>
      Operation(record.sourceSequence, record.key, record.content) in accepted
  }

  ghost predicate AcceptedOk(accepted: set<Operation>, store: StoreValue) {
    && (forall op :: op in accepted ==> OwnOperation(op, store.localIdentity, store.sequence))
    && (forall a, b :: a in accepted && b in accepted && a.sequence == b.sequence ==> a == b)
    && (forall i :: 0 <= i < |store.pending| ==> store.pending[i] in accepted)
  }

  /** The disk may hold one write more than memory, never an unknown older operation. */
  ghost predicate DiskOutboxOk(accepted: set<Operation>, disk: StoreValue, sequence: nat) {
    && sequence <= disk.sequence
    && forall i :: 0 <= i < |disk.pending| ==>
         disk.pending[i] in accepted || disk.pending[i].sequence > sequence
  }

  ghost predicate KeysWithin(records: seq<Record>, ownerRecords: seq<Record>) {
    forall i :: 0 <= i < |records| ==> Lookup(ownerRecords, records[i].key).Some?
  }

  /** What is known in `a` is known in `b`, and what is dismissed there is dismissed in `b`. */
  ghost predicate Within(a: seq<Record>, b: seq<Record>) {
    && KeysWithin(a, b)
    && forall key :: Dead(Lookup(a, key)) ==> Dead(Lookup(b, key))
  }

  lemma AdvancesWithin(a: seq<Record>, b: seq<Record>)
    requires Advances(a, b)
    ensures Within(a, b)
  {
    hide Lookup, Dead;
    forall i | 0 <= i < |a| ensures Lookup(b, a[i].key).Some? {
      KeyKept(a, b, i);
    }
    hide Advances;
    forall key | Dead(Lookup(a, key)) ensures Dead(Lookup(b, key)) {
      TombstoneKept(a, b, key);
    }
  }

  lemma KeyKept(a: seq<Record>, b: seq<Record>, i: nat)
    requires Advances(a, b) && i < |a|
    ensures Lookup(b, a[i].key).Some?
  {
  }

  lemma KnownWithin(a: seq<Record>, b: seq<Record>, key: Key)
    requires KeysWithin(a, b) && Lookup(a, key).Some?
    ensures Lookup(b, key).Some?
  {
    assert a[IndexOf(a, key)].key == key;
  }

  lemma WithinTransitive(a: seq<Record>, b: seq<Record>, c: seq<Record>)
    requires Within(a, b) && Within(b, c)
    ensures Within(a, c)
  {
    hide Lookup, Dead;
    forall i | 0 <= i < |a| ensures Lookup(c, a[i].key).Some? {
      KnownWithin(b, c, a[i].key);
    }
  }

  // ----------------------------------------------------------------- stores

  ghost predicate Roles(s: System) {
    && s.owner.identity != s.replica.identity
    && s.owner.coordinator == s.owner.identity == s.replica.coordinator
    && s.owner.mem.localIdentity == s.owner.disk.localIdentity == s.owner.identity
    && s.replica.mem.localIdentity == s.replica.disk.localIdentity == s.replica.identity
    && s.ownerEnd.link.peer == s.replica.identity
  }

  ghost predicate OwnerStores(mem: StoreValue, disk: StoreValue) {
    && ValidStore(mem) && ValidStore(disk)
    && ValidEpoch(mem.epoch) && disk.epoch == mem.epoch
    && mem.pending == [] && disk.pending == []
    && Advances(mem.records, disk.records)
  }

  ghost predicate ReplicaStore(
    accepted: set<Operation>, replica: string, store: StoreValue, owner: StoreValue)
  {
    && ValidStore(store)
    && (store.epoch == "" || store.epoch == owner.epoch)
    && Within(store.records, owner.records)
    && Authentic(accepted, replica, store.records)
    && AllCovered(accepted, store, owner.records)
  }

  ghost predicate StoresOk(s: System) {
    && OwnerStores(s.owner.mem, s.owner.disk)
    && Authentic(s.accepted, s.replica.identity, s.owner.mem.records)
    && Authentic(s.accepted, s.replica.identity, s.owner.disk.records)
    && ReplicaStore(s.accepted, s.replica.identity, s.replica.mem, s.owner.mem)
    && ReplicaStore(s.accepted, s.replica.identity, s.replica.disk, s.owner.mem)
    && Within(s.replica.mem.records, s.replica.disk.records)
    && AcceptedOk(s.accepted, s.replica.mem)
    && DiskOutboxOk(s.accepted, s.replica.disk, s.replica.mem.sequence)
  }

  // ----------------------------------------------------------------- uplink

  function Uplink(s: System): seq<Event> {
    s.toOwner + s.replicaEnd.link.outgoing
  }

  ghost predicate UplinkEvent(event: Event, accepted: set<Operation>, owner: string) {
    match event
    case Settings(coordinator) => coordinator == owner
    case Submit(op) => op in accepted
    case _ => false
  }

  ghost predicate UplinkOk(s: System) {
    && (forall i :: 0 <= i < |Uplink(s)| ==>
          UplinkEvent(Uplink(s)[i], s.accepted, s.owner.identity))
    && (s.ownerEnd.up ==>
          s.ownerEnd.link.agreed || (|Uplink(s)| > 0 && Uplink(s)[0].Settings?))
  }

  // --------------------------------------------------------------- downlink

  /** The owner's stream in whole messages. */
  datatype Item =
    | Agreement(coordinator: string)
    | Receipt(sequence: nat)
    | Snapshot(epoch: string, records: seq<Record>)

  /** What is left of a snapshot after its first n records were received. */
  function Remainder(records: seq<Record>, n: nat): seq<Event>
    requires n <= |records|
  {
    RecordEvents(records[n..]) + [SnapshotEnd]
  }

  function Events(item: Item): seq<Event> {
    match item
    case Agreement(coordinator) => [Settings(coordinator)]
    case Receipt(sequence) => [Ack(sequence)]
    case Snapshot(epoch, records) => [SnapshotStart(epoch)] + Remainder(records, 0)
  }

  function Flatten(items: seq<Item>): seq<Event> {
    if |items| == 0 then [] else Events(items[0]) + Flatten(items[1..])
  }

  function Downlink(s: System): seq<Event> {
    s.toReplica + s.ownerEnd.link.outgoing
  }

  /** The events in flight continue what the replica has staged so far. */
  ghost predicate Continues(items: seq<Item>, staged: Option<Staged>, events: seq<Event>) {
    if staged.None? then events == Flatten(items)
    else
      && |items| > 0 && items[0].Snapshot?
      && staged.value.epoch == items[0].epoch
      && |staged.value.records| <= |items[0].records|
      && staged.value.records == items[0].records[..|staged.value.records|]
      && events == Remainder(items[0].records, |staged.value.records|) + Flatten(items[1..])
  }

  ghost predicate SnapshotOk(
    records: seq<Record>, accepted: set<Operation>, replica: string, ownerRecords: seq<Record>)
  {
    && ValidRecords(records)
    && Advances(records, ownerRecords)
    && Authentic(accepted, replica, records)
  }

  ghost predicate ItemOk(
    item: Item, accepted: set<Operation>, replica: StoreValue, owner: StoreValue)
  {
    match item
    case Agreement(coordinator) => coordinator == owner.localIdentity
    case Receipt(sequence) => sequence <= replica.sequence
    case Snapshot(epoch, records) =>
      && epoch == owner.epoch
      && SnapshotOk(records, accepted, replica.localIdentity, owner.records)
  }

  /** A snapshot on its way never hides an operation the replica no longer queues. */
  ghost predicate SnapshotsCover(items: seq<Item>, accepted: set<Operation>, pending: seq<Operation>) {
    forall op, i :: op in accepted && 0 <= i < |items| && items[i].Snapshot? ==>
      PendingCovers(pending, op) || Subsumes(items[i].records, op)
  }

  /** A receipt on its way is honoured by the owner and by every snapshot behind it. */
  ghost predicate ReceiptsHonoured(items: seq<Item>, pending: seq<Operation>, ownerRecords: seq<Record>) {
    forall i, j :: 0 <= i < |items| && 0 <= j < |pending| && items[i] == Receipt(pending[j].sequence) ==>
      Honoured(items, i, pending[j], ownerRecords)
  }

  ghost predicate Honoured(items: seq<Item>, i: nat, op: Operation, ownerRecords: seq<Record>) {
    && Subsumes(ownerRecords, op)
    && forall k :: i < k < |items| && items[k].Snapshot? ==> Subsumes(items[k].records, op)
  }

  /** Snapshots on their way keep all keys and dismissals of the ones before them and of the replica. */
  ghost predicate Chained(items: seq<Item>, records: seq<Record>) {
    && (forall i :: 0 <= i < |items| && items[i].Snapshot? ==> Within(records, items[i].records))
    && (forall i, j :: 0 <= i < j < |items| && items[i].Snapshot? && items[j].Snapshot? ==>
          Within(items[i].records, items[j].records))
  }

  ghost predicate DownlinkOk(s: System, items: seq<Item>) {
    && Continues(items, s.replicaEnd.link.staged, Downlink(s))
    && (forall i :: 0 <= i < |items| ==> ItemOk(items[i], s.accepted, s.replica.mem, s.owner.mem))
    && (s.replicaEnd.link.agreed || (|items| > 0 && items[0].Agreement?))
    && SnapshotsCover(items, s.accepted, s.replica.mem.pending)
    && ReceiptsHonoured(items, s.replica.mem.pending, s.owner.mem.records)
    && Chained(items, s.replica.mem.records)
  }

  // ------------------------------------------------------ progress of a session

  /** The records the replica ends up with once everything in flight has arrived. */
  function LastRecords(items: seq<Item>, base: seq<Record>): seq<Record> {
    if |items| == 0 then base
    else
      var last := |items| - 1;
      if items[last].Snapshot? then items[last].records else LastRecords(items[..last], base)
  }

  ghost predicate InSync(s: System, items: seq<Item>) {
    s.ownerEnd.up && !s.ownerEnd.link.changed && !s.ownerEnd.link.dirty && !s.ownerOwes ==>
      LastRecords(items, s.replica.mem.records) == s.owner.mem.records
  }

  ghost predicate Unanswered(s: System, items: seq<Item>, op: Operation) {
    || Submit(op) in Uplink(s)
    || Receipt(op.sequence) in items
  }

  ghost predicate OutboxMoving(s: System, items: seq<Item>) {
    s.ownerEnd.up ==>
      forall i :: 0 <= i < |s.replica.mem.pending| ==>
        var op := s.replica.mem.pending[i];
        if op.sequence > s.replicaEnd.link.sentThrough then
          s.replicaEnd.link.changed || s.replicaEnd.link.dirty || s.replicaOwes
        else Unanswered(s, items, op)
  }

  /** All of it, for some reading of the owner's stream. */
  ghost predicate SessionOk(s: System, items: seq<Item>) {
    && DownlinkOk(s, items)
    && InSync(s, items)
    && OutboxMoving(s, items)
    && s.replicaEnd.link.sentThrough <= s.replica.mem.sequence
  }

  ghost predicate Inv(s: System) {
    && Roles(s)
    && StoresOk(s)
    && UplinkOk(s)
    && (s.replicaEnd.up ==> exists items :: SessionOk(s, items))
  }
}
