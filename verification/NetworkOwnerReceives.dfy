/** The owner taking what a replica sent keeps the invariant. */
module NetworkOwnerReceives {
  import opened Types
  import opened StoreSpec
  import opened LinkSpec
  import opened Network
  import opened NetworkInvariant
  import opened NetworkOwnerSteps

  /** An accepted submission is acknowledged only once memory and disk both reflect it. */
  lemma SubmitOutcome(hub: Hub, link: Link, op: Operation, durability: Durability)
    ensures var r := ReceiveSubmit(hub, link, op, durability);
            var next := hub.mem.(records := Attempt(hub.mem.records, link.peer, op));
            && (r.hub == hub || r.hub == Commit(hub, next, durability))
            && r.link == link.(changed := r.link.changed, outgoing := r.link.outgoing)
            && (link.changed ==> r.link.changed)
            && (r.hub.mem.records != hub.mem.records ==> r.link.changed)
            && (r.error.Some? ==> r.link.outgoing == link.outgoing)
            && (r.error.None? ==>
                  && r.link.outgoing == link.outgoing + [Ack(op.sequence)]
                  && Subsumes(r.hub.mem.records, op))
  {
    hide Refusal, Subsumes;
    if Apply(hub.mem.records, link.peer, op).Ok? {
      ApplySubsumes(hub.mem.records, link.peer, op);
    }
  }

  lemma AcceptedAuthentic(
    accepted: set<Operation>, replica: string, records: seq<Record>, sender: string, op: Operation)
    requires Authentic(accepted, replica, records) && op in accepted
    ensures Authentic(accepted, replica, Attempt(records, sender, op))
  {
  }

  lemma AttemptedStores(mem: StoreValue, disk: StoreValue, op: Operation, sender: string)
    requires OwnerStores(mem, disk)
    ensures var next := mem.(records := Attempt(mem.records, sender, op));
            OwnerStores(next, next) && OwnerStores(mem, next)
  {
    hide Attempt, ValidRecords;
    var next := mem.(records := Attempt(mem.records, sender, op));
    AttemptKeepsValid(mem.records, sender, op);
    AdvancesReflexive(next.records);
  }

  /** The system once the owner took the submission, before it leaves the channel. */
  function Taken(s: System, r: Received): System {
    s.(owner := r.hub,
       ownerEnd := End(r.error.None?, s.ownerEnd.link.(changed := r.link.changed)))
  }

  lemma TakenKeeps(s: System, op: Operation, durability: Durability)
    requires Inv(s) && s.ownerEnd.up && op in s.accepted
    ensures Inv(Taken(s, ReceiveSubmit(s.owner, s.ownerEnd.link, op, durability)))
  {
    var r := ReceiveSubmit(s.owner, s.ownerEnd.link, op, durability);
    var t := Taken(s, r);
    SubmitOutcome(s.owner, s.ownerEnd.link, op, durability);
    hide ReceiveSubmit, Attempt, ReplicaStore, AcceptedOk, DiskOutboxOk, UplinkOk, SessionOk, Authentic;
    AttemptedStores(s.owner.mem, s.owner.disk, op, s.ownerEnd.link.peer);
    AttemptAdvances(s.owner.mem, s.owner.disk, op, s.ownerEnd.link.peer);
    AcceptedAuthentic(s.accepted, s.replica.identity, s.owner.mem.records, s.ownerEnd.link.peer, op);
    hide OwnerStores, Advances;
    OwnerAdvances(s, t);
  }

  lemma AttemptAdvances(mem: StoreValue, disk: StoreValue, op: Operation, sender: string)
    requires OwnerStores(mem, disk)
    ensures Advances(mem.records, Attempt(mem.records, sender, op))
    ensures Advances(mem.records, mem.records)
  {
    hide Attempt, ValidRecords;
    AttemptKeepsValid(mem.records, sender, op);
    AdvancesReflexive(mem.records);
  }

  /** The submission leaves the channel and, if all went well, its receipt is queued. */
  lemma ReceiptKeeps(s: System, t: System, op: Operation, items: seq<Item>)
    requires Inv(s) && s.replicaEnd.up && SessionOk(s, items)
    requires |s.toOwner| > 0 && s.toOwner[0] == Submit(op) && s.ownerEnd.up
    requires Subsumes(s.owner.mem.records, op)
    requires t == s.(toOwner := s.toOwner[1..], emitted := t.emitted,
                     ownerEnd := s.ownerEnd.(link := s.ownerEnd.link.(
                                   outgoing := s.ownerEnd.link.outgoing + [Ack(op.sequence)])))
    ensures SessionOk(t, items + [Receipt(op.sequence)])
  {
    hide OwnerStores, ReplicaStore, DiskOutboxOk, Authentic;
    var item := Receipt(op.sequence);
    assert Uplink(s)[0] == Submit(op);
    assert op in s.accepted;
    assert OwnOperation(op, s.replica.identity, s.replica.mem.sequence);
    ReceiptDownlink(s, t, op, items);
    ReceiptOutbox(s, t, op, items);
  }

  lemma ReceiptDownlink(s: System, t: System, op: Operation, items: seq<Item>)
    requires DownlinkOk(s, items) && AcceptedOk(s.accepted, s.replica.mem)
    requires op in s.accepted && Subsumes(s.owner.mem.records, op)
    requires t == s.(toOwner := t.toOwner, emitted := t.emitted,
                     ownerEnd := s.ownerEnd.(link := s.ownerEnd.link.(
                                   outgoing := s.ownerEnd.link.outgoing + [Ack(op.sequence)])))
    ensures DownlinkOk(t, items + [Receipt(op.sequence)])
  {
    hide Subsumes, PendingCovers, SnapshotOk, Refusal, Chained;
    ChainedReceipt(items, op.sequence, s.replica.mem.records);
    var item, more, pending := Receipt(op.sequence), items + [Receipt(op.sequence)], s.replica.mem.pending;
    ContinuesAppend(items, s.replicaEnd.link.staged, Downlink(s), item);
    assert Downlink(t) == Downlink(s) + Events(item);
    hide Continues, Downlink;
    assert OwnOperation(op, s.replica.mem.localIdentity, s.replica.mem.sequence);
    forall i | 0 <= i < |more| ensures ItemOk(more[i], s.accepted, s.replica.mem, s.owner.mem) {
      if i < |items| { assert ItemOk(items[i], s.accepted, s.replica.mem, s.owner.mem); }
    }
    forall o, i | o in s.accepted && 0 <= i < |more| && more[i].Snapshot?
      ensures PendingCovers(pending, o) || Subsumes(more[i].records, o)
    {
      assert more[i] == items[i];
    }
    forall i, j | 0 <= i < |more| && 0 <= j < |pending| && more[i] == Receipt(pending[j].sequence)
      ensures Honoured(more, i, pending[j], s.owner.mem.records)
    {
      if i < |items| {
        assert items[i] == more[i];
        assert Honoured(items, i, pending[j], s.owner.mem.records);
      } else {
        assert pending[j] in s.accepted;
      }
    }
  }

  lemma ReceiptOutbox(s: System, t: System, op: Operation, items: seq<Item>)
    requires OutboxMoving(s, items) && InSync(s, items)
    requires |s.toOwner| > 0 && s.toOwner[0] == Submit(op) && s.ownerEnd.up
    requires t == s.(toOwner := s.toOwner[1..], emitted := t.emitted,
                     ownerEnd := s.ownerEnd.(link := s.ownerEnd.link.(
                                   outgoing := s.ownerEnd.link.outgoing + [Ack(op.sequence)])))
    ensures OutboxMoving(t, items + [Receipt(op.sequence)])
    ensures InSync(t, items + [Receipt(op.sequence)])
  {
  }

  lemma UplinkTail(s: System, t: System)
    requires UplinkOk(s) && |s.toOwner| > 0
    requires Uplink(t) == Uplink(s)[1..]
    requires t.accepted == s.accepted && t.owner.identity == s.owner.identity
    requires t.ownerEnd.up ==> t.ownerEnd.link.agreed
    ensures UplinkOk(t)
  {
  }

  lemma SubmitArrives(s: System, op: Operation)
    requires Inv(s) && s.ownerEnd.up
    requires |s.toOwner| > 0 && s.toOwner[0] == Submit(op)
    ensures op in s.accepted && s.ownerEnd.link.agreed
    ensures Refusal(s.ownerEnd.link.peer, op).None?
  {
  }

  lemma OwnerTakesSubmit(s: System, op: Operation, durability: Durability)
    requires Inv(s) && s.ownerEnd.up
    requires |s.toOwner| > 0 && s.toOwner[0] == Submit(op)
    ensures Inv(DoOwnerDeliver(s, durability))
    ensures var error := Receive(s.owner, s.ownerEnd.link, s.toOwner[0], durability).error;
            error.None? || error.value in {StoreFull, PersistFailed, OutputQueueFull}
  {
    hide StoresOk, UplinkOk, SessionOk, ReceiveSubmit, Subsumes, Refusal;
    SubmitArrives(s, op);
    SubmitErrors(s.owner, s.ownerEnd.link, op, durability);
    SubmitOutcome(s.owner, s.ownerEnd.link, op, durability);
    TakenKeeps(s, op, durability);
    SubmitLeaves(s, op, ReceiveSubmit(s.owner, s.ownerEnd.link, op, durability),
                 DoOwnerDeliver(s, durability));
  }

  lemma SubmitLeaves(s: System, op: Operation, r: Received, t: System)
    requires s.ownerEnd.up && s.ownerEnd.link.agreed && |s.toOwner| > 0 && s.toOwner[0] == Submit(op)
    requires Inv(Taken(s, r)) && UplinkOk(s) && r.hub.identity == s.owner.identity
    requires t == s.(owner := r.hub, ownerEnd := End(r.error.None?, r.link),
                     toOwner := s.toOwner[1..], emitted := t.emitted)
    requires r.link == s.ownerEnd.link.(changed := r.link.changed, outgoing := r.link.outgoing)
    requires r.error.Some? ==> r.link.outgoing == s.ownerEnd.link.outgoing
    requires r.error.None? ==>
               && r.link.outgoing == s.ownerEnd.link.outgoing + [Ack(op.sequence)]
               && Subsumes(r.hub.mem.records, op)
    ensures Inv(t)
  {
    hide OwnerStores, ReplicaStore, Authentic, AcceptedOk, DiskOutboxOk, Subsumes, SessionOk;
    var u := Taken(s, r);
    assert Uplink(t) == Uplink(s)[1..];
    UplinkTail(s, t);
    hide UplinkOk;
    if s.replicaEnd.up {
      var items :| SessionOk(u, items);
      if t.ownerEnd.up {
        ReceiptKeeps(u, t, op, items);
      } else {
        RefusedSession(u, t, items);
      }
    }
  }

  lemma RefusedSession(s: System, t: System, items: seq<Item>)
    requires SessionOk(s, items)
    requires t == s.(toOwner := t.toOwner, emitted := t.emitted, ownerEnd := t.ownerEnd)
    requires t.ownerEnd == End(false, s.ownerEnd.link)
    ensures SessionOk(t, items)
  {
  }

  lemma SubmitErrors(hub: Hub, link: Link, op: Operation, durability: Durability)
    requires Refusal(link.peer, op).None?
    ensures var error := ReceiveSubmit(hub, link, op, durability).error;
            error.None? || error.value in {StoreFull, PersistFailed, OutputQueueFull}
  {
    hide Refusal;
  }

  lemma OwnerTakesSettings(s: System, durability: Durability)
    requires Inv(s) && s.ownerEnd.up
    requires |s.toOwner| > 0 && s.toOwner[0].Settings?
    ensures Inv(DoOwnerDeliver(s, durability))
    ensures Receive(s.owner, s.ownerEnd.link, s.toOwner[0], durability).error.None?
  {
    hide OwnerStores, ReplicaStore, Authentic, AcceptedOk, DiskOutboxOk, DownlinkOk,
         ReceiveSubmit, ReceiveAck, ReceiveStart, ReceiveRecord, ReceiveEnd;
    var t := DoOwnerDeliver(s, durability);
    assert Uplink(s)[0] == s.toOwner[0];
    assert Uplink(t) == Uplink(s)[1..];
    UplinkTail(s, t);
    if s.replicaEnd.up {
      var items :| SessionOk(s, items);
      assert Downlink(t) == Downlink(s);
      DownlinkFrame(s, t, items);
      SettingsOutbox(s, t, items);
      assert SessionOk(t, items);
    }
  }

  lemma SettingsOutbox(s: System, t: System, items: seq<Item>)
    requires OutboxMoving(s, items)
    requires t.ownerEnd.up ==> s.ownerEnd.up
    requires t.replica.mem.pending == s.replica.mem.pending
    requires t.replicaEnd.link == s.replicaEnd.link && t.replicaOwes == s.replicaOwes
    requires |Uplink(s)| > 0 && Uplink(s)[0].Settings? && Uplink(t) == Uplink(s)[1..]
    ensures OutboxMoving(t, items)
  {
  }

  /** Whatever the replica sent, the owner refuses it only for lack of room or a failed write. */
  lemma OwnerDeliverKeeps(s: System, durability: Durability)
    requires Inv(s)
    ensures Inv(DoOwnerDeliver(s, durability))
    ensures s.ownerEnd.up && s.toOwner != [] ==>
              var error := Receive(s.owner, s.ownerEnd.link, s.toOwner[0], durability).error;
              error.None? || error.value in {StoreFull, PersistFailed, OutputQueueFull}
  {
    hide StoresOk, SessionOk;
    if s.ownerEnd.up && s.toOwner != [] {
      assert Uplink(s)[0] == s.toOwner[0];
      if s.toOwner[0].Submit? {
        OwnerTakesSubmit(s, s.toOwner[0].operation, durability);
      } else {
        OwnerTakesSettings(s, durability);
      }
    }
  }
}
