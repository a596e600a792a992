/** One session's notification link: what each end sends and how it takes what arrives. */
module LinkSpec {
  import opened Types
  import opened StoreSpec

  datatype Event =
    | Settings(coordinator: string)
    | Submit(operation: Operation)
    | Ack(sequence: nat)
    | SnapshotStart(epoch: string)
    | SnapshotRecord(record: Record)
    | SnapshotEnd

  /**
   How an attempt to write the store ends. `Unconfirmed` is a failure reported after the
   new file already replaced the old one.
   */
  datatype Durability = Committed | NotWritten | Unconfirmed

  datatype Hub = Hub(identity: string, coordinator: string, mem: StoreValue, disk: StoreValue)

  datatype Staged = Staged(epoch: string, records: seq<Record>)

  datatype Link = Link(
    peer: string,
    agreed: bool,
    changed: bool,
    dirty: bool,
    sentThrough: nat,
    outgoing: seq<Event>,
    staged: Option<Staged>)

  predicate IsCoordinator(hub: Hub) {
    hub.identity == hub.coordinator
  }

  function NewLink(hub: Hub, peer: string): Link {
    Link(peer, false, true, false, 0, [Settings(hub.coordinator)], None)
  }

  /** Persist, then replace the state in memory only if the write is confirmed. */
  function Commit(hub: Hub, next: StoreValue, durability: Durability): Hub {
    match durability
    case Committed => hub.(mem := next, disk := next)
    case NotWritten => hub
    case Unconfirmed => hub.(disk := next)
  }

  // ---------------------------------------------------------------- sending

  function RecordEvents(records: seq<Record>): (events: seq<Event>)
    ensures |events| == |records|
    ensures forall i :: 0 <= i < |records| ==> events[i] == SnapshotRecord(records[i])
  {
    seq(|records|, i requires 0 <= i < |records| => SnapshotRecord(records[i]))
  }

  function SnapshotEvents(store: StoreValue): seq<Event> {
    [SnapshotStart(store.epoch)] + RecordEvents(store.records) + [SnapshotEnd]
  }

  function Submits(pending: seq<Operation>, sentThrough: nat): (events: seq<Event>)
    ensures forall e :: e in events <==>
      e.Submit? && e.operation in pending && e.operation.sequence > sentThrough
  {
    if |pending| == 0 then []
    else
      var rest := Submits(pending[1..], sentThrough);
      assert pending == [pending[0]] + pending[1..];
      if pending[0].sequence > sentThrough then [Submit(pending[0])] + rest else rest
  }

  function LatestSequence(pending: seq<Operation>, floor: nat): (latest: nat)
    ensures latest >= floor
    ensures forall op :: op in pending ==> op.sequence <= latest
    ensures latest == floor || exists op :: op in pending && op.sequence == latest
  {
    if |pending| == 0 then floor
    else
      var rest := LatestSequence(pending[1..], floor);
      assert pending == [pending[0]] + pending[1..];
      if pending[0].sequence > rest then pending[0].sequence else rest
  }

  /** Turns the noticed change into events: a full snapshot, or the operations not sent yet. */
  function Fill(hub: Hub, link: Link): Link {
    if IsCoordinator(hub) then
      link.(dirty := false, outgoing := link.outgoing + SnapshotEvents(hub.mem))
    else
      link.(dirty := false,
            outgoing := link.outgoing + Submits(hub.mem.pending, link.sentThrough),
            sentThrough := LatestSequence(hub.mem.pending, link.sentThrough))
  }

  // -------------------------------------------------------------- receiving

  datatype Received = Received(hub: Hub, link: Link, error: Option<Error>)

  /** The position of the first pending operation with this sequence number, or -1. */
  function SequenceIndex(pending: seq<Operation>, sequence: nat): (i: int)
    ensures -1 <= i < |pending|
    ensures i >= 0 ==> pending[i].sequence == sequence
    ensures forall j :: 0 <= j < (if i < 0 then |pending| else i) ==> pending[j].sequence != sequence
  {
    var wanted := (op: Operation) => op.sequence == sequence;
    var i := FirstIndex(pending, wanted);
    assert forall j :: 0 <= j < (if i < 0 then |pending| else i) ==> !wanted(pending[j]);
    i
  }

  /** Commits `next` and tells the link about it, or reports the failed write. */
  function Store(hub: Hub, link: Link, next: StoreValue, durability: Durability): Received {
    var after := Commit(hub, next, durability);
    if durability.Committed? then Received(after, link.(changed := true), None)
    else Received(after, link, Some(PersistFailed))
  }

  function ReceiveSubmit(hub: Hub, link: Link, op: Operation, durability: Durability): Received {
    var applied := Apply(hub.mem.records, link.peer, op);
    if applied.Err? then Received(hub, link, Some(applied.error))
    else
      var stored :=
        if applied.value.changed then
          Store(hub, link, hub.mem.(records := applied.value.records), durability)
        else Received(hub, link, None);
      if stored.error.Some? then stored
      else if |link.outgoing| < MAX_RECORDS + MAX_PENDING + 4 then
        stored.(link := stored.link.(outgoing := link.outgoing + [Ack(op.sequence)]))
      else stored.(error := Some(OutputQueueFull))
  }

  function ReceiveAck(hub: Hub, link: Link, sequence: nat, durability: Durability): Received {
    var i := SequenceIndex(hub.mem.pending, sequence);
    if i < 0 then Received(hub, link, None)
    else
      var applied := Apply(hub.mem.records, hub.identity, hub.mem.pending[i]);
      if applied.Err? then Received(hub, link, Some(applied.error))
      else
        Store(hub, link,
              hub.mem.(pending := WithoutSequence(hub.mem.pending, sequence),
                       records := applied.value.records),
              durability)
  }

  function ReceiveStart(hub: Hub, link: Link, epoch: string): Received {
    if !ValidEpoch(epoch) then Received(hub, link, Some(InvalidEpoch))
    else if hub.mem.epoch != "" && hub.mem.epoch != epoch then
      Received(hub, link, Some(AuthorityReset))
    else if link.staged.Some? then Received(hub, link, Some(NestedSnapshot))
    else Received(hub, link.(staged := Some(Staged(epoch, []))), None)
  }

  function ReceiveRecord(hub: Hub, link: Link, record: Record): Received {
    if !ValidOrigin(record.key.origin) then Received(hub, link, Some(InvalidOrigin))
    else if !ValidInstance(record.key.instance) then Received(hub, link, Some(InvalidInstance))
    else if record.content.Some? && !ValidContent(record.content.value) then
      Received(hub, link, Some(InvalidContent))
    else if link.staged.None? then Received(hub, link, Some(OutsideSnapshot))
    else
      var staged := link.staged.value;
      if |staged.records| < MAX_RECORDS && IndexOf(staged.records, record.key) < 0 then
        Received(hub, link.(staged := Some(staged.(records := staged.records + [record]))), None)
      else Received(hub, link, Some(SnapshotCapacity))
  }

  function ReceiveEnd(hub: Hub, link: Link, durability: Durability): Received {
    if link.staged.None? then Received(hub, link, Some(EndWithoutStart))
    else
      var staged, rest := link.staged.value, link.(staged := None);
      if hub.mem.epoch == staged.epoch && hub.mem.records == staged.records then
        Received(hub, rest, None)
      else
        Store(hub, rest, hub.mem.(epoch := staged.epoch, records := staged.records), durability)
  }

  function Receive(hub: Hub, link: Link, event: Event, durability: Durability): Received {
    if event.Settings? then
      if event.coordinator == hub.coordinator then Received(hub, link.(agreed := true), None)
      else Received(hub, link, Some(OwnerDiffers))
    else if !link.agreed then Received(hub, link, Some(OwnerUnconfirmed))
    else if IsCoordinator(hub) then
      if event.Submit? then ReceiveSubmit(hub, link, event.operation, durability)
      else Received(hub, link, Some(WrongAuthority))
    else
      match event
      case Ack(sequence) => ReceiveAck(hub, link, sequence, durability)
      case SnapshotStart(epoch) => ReceiveStart(hub, link, epoch)
      case SnapshotRecord(record) => ReceiveRecord(hub, link, record)
      case SnapshotEnd => ReceiveEnd(hub, link, durability)
      case _ => Received(hub, link, Some(WrongAuthority))
  }
}
