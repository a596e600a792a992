/** The shape of everything an owner's link end ever queues, and who may send when. */
module NetworkStream {
  import opened Types
  import opened StoreSpec
  import opened LinkSpec
  import opened Network
  import opened NetworkInvariant
  import opened NetworkRuns
  import NetworkOwnerSteps
  import NetworkOwnerReceives

  ghost predicate HistoryItem(item: Item, epoch: string) {
    match item
    case Agreement(_) => false
    case Receipt(_) => true
    case Snapshot(e, records) => e == epoch && ValidRecords(records)
  }

  /** First the owner's settings, then receipts and whole valid snapshots in any order. */
  ghost predicate WellFormed(items: seq<Item>, owner: string, epoch: string) {
    && |items| > 0 && items[0] == Agreement(owner)
    && forall i :: 1 <= i < |items| ==> HistoryItem(items[i], epoch)
  }

  ghost predicate Suffix(part: seq<Event>, whole: seq<Event>) {
    |part| <= |whole| && whole[|whole| - |part|..] == part
  }

  ghost predicate Formed(s: System, items: seq<Item>) {
    && WellFormed(items, s.owner.identity, s.owner.mem.epoch)
    && s.emitted == Flatten(items)
    && Suffix(Downlink(s), s.emitted)
    && (|items| > 1 ==> s.ownerEnd.link.agreed)
  }

  ghost predicate StreamFormed(s: System) {
    s.ownerEnd.up || s.replicaEnd.up ==> exists items :: Formed(s, items)
  }

  lemma SuffixAppend(part: seq<Event>, whole: seq<Event>, more: seq<Event>)
    requires Suffix(part, whole)
    ensures Suffix(part + more, whole + more)
  {
  }

  lemma SuffixTail(part: seq<Event>, whole: seq<Event>)
    requires Suffix(part, whole) && |part| > 0
    ensures Suffix(part[1..], whole)
  {
  }

  lemma FormedFrame(s: System, t: System, items: seq<Item>)
    requires Formed(s, items)
    requires t.owner.identity == s.owner.identity && t.owner.mem.epoch == s.owner.mem.epoch
    requires t.emitted == s.emitted && Downlink(t) == Downlink(s)
    requires s.ownerEnd.link.agreed ==> t.ownerEnd.link.agreed
    ensures Formed(t, items)
  {
    hide Downlink, Flatten, WellFormed;
  }

  lemma FormedAppend(s: System, t: System, items: seq<Item>, item: Item)
    requires Formed(s, items) && HistoryItem(item, s.owner.mem.epoch)
    requires t.owner.identity == s.owner.identity && t.owner.mem.epoch == s.owner.mem.epoch
    requires t.emitted == s.emitted + Events(item)
    requires Downlink(t) == Downlink(s) + Events(item)
    requires t.ownerEnd.link.agreed
    ensures Formed(t, items + [item])
  {
    hide Downlink, Flatten, HistoryItem, Suffix, Events;
    NetworkOwnerSteps.FlattenAppend(items, item);
    SuffixAppend(Downlink(s), s.emitted, Events(item));
  }

  lemma ConnectFormed(s: System)
    requires Inv(s)
    ensures StreamFormed(Next(s, Connect))
  {
    hide StoresOk, UplinkOk, SessionOk;
    var t := Next(s, Connect);
    var items := [Agreement(s.owner.identity)];
    assert Flatten(items) == Events(items[0]) + Flatten(items[1..]);
    assert Downlink(t) == t.emitted && t.emitted[0..] == t.emitted;
    assert Formed(t, items);
  }

  lemma FillFormed(s: System)
    requires Inv(s) && StreamFormed(s)
    ensures StreamFormed(Next(s, OwnerFill))
  {
    hide ReplicaStore, AcceptedOk, DiskOutboxOk, UplinkOk, SessionOk, Authentic, Advances, ValidRecords,
         SnapshotEvents, Flatten, Suffix;
    if CanFill(s.ownerEnd) {
      var t, item := Next(s, OwnerFill), Snapshot(s.owner.mem.epoch, s.owner.mem.records);
      var items :| Formed(s, items);
      NetworkOwnerSteps.SnapshotIsItem(s.owner.mem);
      assert Downlink(t) == Downlink(s) + Events(item);
      FormedAppend(s, t, items, item);
    }
  }

  lemma DeliverFormed(s: System, durability: Durability)
    requires Inv(s) && StreamFormed(s)
    ensures StreamFormed(DoOwnerDeliver(s, durability))
  {
    hide StoresOk, SessionOk, ReceiveSubmit, Flatten, Suffix, Subsumes, WellFormed, Attempt;
    if s.ownerEnd.up && s.toOwner != [] {
      var t := DoOwnerDeliver(s, durability);
      var items :| Formed(s, items);
      assert Uplink(s)[0] == s.toOwner[0];
      if s.toOwner[0].Submit? {
        var op := s.toOwner[0].operation;
        NetworkOwnerReceives.SubmitOutcome(s.owner, s.ownerEnd.link, op, durability);
        if t.ownerEnd.up {
          assert t.emitted == s.emitted + [Ack(op.sequence)];
          assert Downlink(t) == Downlink(s) + [Ack(op.sequence)];
          FormedAppend(s, t, items, Receipt(op.sequence));
        } else {
          assert s.ownerEnd.link.outgoing[|s.ownerEnd.link.outgoing|..] == [];
          FormedFrame(s, t, items);
        }
      } else {
        assert s.ownerEnd.link.outgoing[|s.ownerEnd.link.outgoing|..] == [];
        assert t.emitted == s.emitted;
        FormedFrame(s, t, items);
      }
    }
  }

  lemma NextFormed(s: System, step: Step)
    requires Inv(s) && StreamFormed(s)
    ensures StreamFormed(Next(s, step))
  {
    hide UplinkOk, SessionOk, ReplicaStore, AcceptedOk, DiskOutboxOk, Authentic, StreamFormed,
         DoOwnerDeliver;
    if step.Connect? {
      ConnectFormed(s);
    } else if step.OwnerFill? {
      FillFormed(s);
    } else if step.OwnerDeliver? {
      DeliverFormed(s, step.durability);
    } else {
      OtherFormed(s, step);
    }
  }

  predicate QueuesNothing(step: Step) {
    !step.Connect? && !step.OwnerFill? && !step.OwnerDeliver?
  }

  /** Steps that queue nothing on the owner's side leave its history's name and its agreement alone. */
  lemma OtherOwner(s: System, step: Step)
    requires s.owner.disk.epoch == s.owner.mem.epoch && QueuesNothing(step)
    ensures var t := Next(s, step);
            && t.emitted == s.emitted
            && (t.ownerEnd.up ==> s.ownerEnd.up) && (t.replicaEnd.up ==> s.replicaEnd.up)
            && t.owner.identity == s.owner.identity && t.owner.mem.epoch == s.owner.mem.epoch
            && (s.ownerEnd.link.agreed ==> t.ownerEnd.link.agreed)
  {
    hide Receive, BatchStore, AllAccepted, Replay, Fill, BatchOperations, DoOwnerLocal;
    if step.OwnerLocal? {
      LocalStream(s, step.requests, step.metadata, step.durability);
    }
  }

  /** And what is in flight to the replica, but for the event it takes. */
  lemma OtherDownlink(s: System, step: Step)
    requires QueuesNothing(step)
    ensures Downlink(Next(s, step)) == (if step.ReplicaDeliver? && s.replicaEnd.up && s.toReplica != []
                                        then Downlink(s)[1..] else Downlink(s))
  {
    hide Receive, BatchStore, AllAccepted, Replay, Fill, BatchOperations, DoOwnerLocal, Commit;
    if step.OwnerLocal? {
      LocalStream(s, step.requests, step.metadata, step.durability);
    } else if step.OwnerTransmit? {
      TransmittedDownlink(s);
    }
  }

  lemma TransmittedDownlink(s: System)
    ensures Downlink(Next(s, OwnerTransmit)) == Downlink(s)
  {
  }

  lemma LocalStream(s: System, requests: seq<Request>, metadata: Option<Metadata>, durability: Durability)
    ensures var t := DoOwnerLocal(s, requests, metadata, durability);
            && t == s.(owner := t.owner, ownerOwes := t.ownerOwes)
            && t.owner.identity == s.owner.identity && t.owner.mem.epoch == s.owner.mem.epoch
  {
    hide QueueBatch;
    if BatchStore(s.owner.mem, requests, metadata, true).Some? {
      BatchFrame(WithMetadata(s.owner.mem, metadata), requests, true);
    }
  }

  lemma OtherFormed(s: System, step: Step)
    requires StreamFormed(s) && s.owner.disk.epoch == s.owner.mem.epoch && QueuesNothing(step)
    ensures StreamFormed(Next(s, step))
  {
    hide Next, Flatten, WellFormed, Suffix, Downlink;
    var t := Next(s, step);
    OtherOwner(s, step);
    OtherDownlink(s, step);
    if t.ownerEnd.up || t.replicaEnd.up {
      var items :| Formed(s, items);
      if step.ReplicaDeliver? && s.replicaEnd.up && s.toReplica != [] {
        DownlinkNotEmpty(s);
        SuffixTail(Downlink(s), s.emitted);
        assert Formed(t, items);
      } else {
        FormedFrame(s, t, items);
      }
    }
  }

  lemma DownlinkNotEmpty(s: System)
    requires s.toReplica != []
    ensures |Downlink(s)| > 0
  {
  }

  /**
   At every point of every run, what the owner's link end has queued so far is its settings
   followed by receipts and complete snapshots with unique keys and bounded length, with
   nothing but the settings until the replica's settings matched; what is still in flight
   is the end of that stream.
   */
  lemma {:induction false} StreamAlwaysFormed(s: System, steps: seq<Step>)
    requires Init(s)
    ensures StreamFormed(Run(s, steps))
  {
    hide Init, Inv, StreamFormed, Next;
    if |steps| == 0 {
      InitFormed(s);
    } else {
      var front := steps[..|steps| - 1];
      StreamAlwaysFormed(s, front);
      InitHolds(s);
      RunKeeps(s, front);
      NextFormed(Run(s, front), steps[|steps| - 1]);
    }
  }

  lemma InitFormed(s: System)
    requires Init(s)
    ensures StreamFormed(s)
  {
  }

  // ------------------------------------------------------- who may send when

  /** The replica's link end has queued nothing but settings before it saw the owner's. */
  ghost predicate ReplicaWaits(s: System) {
    s.replicaEnd.up && !s.replicaEnd.link.agreed ==>
      OnlySettings(Uplink(s))
  }

  ghost predicate OnlySettings(events: seq<Event>) {
    forall i :: 0 <= i < |events| ==> events[i].Settings?
  }

  lemma {:induction false} ReplicaAlwaysWaits(s: System, steps: seq<Step>)
    requires Init(s)
    ensures ReplicaWaits(Run(s, steps))
  {
    hide Init, Next;
    if |steps| == 0 {
      InitWaits(s);
    } else {
      ReplicaAlwaysWaits(s, steps[..|steps| - 1]);
      NextWaits(Run(s, steps[..|steps| - 1]), steps[|steps| - 1]);
    }
  }

  lemma InitWaits(s: System)
    requires Init(s)
    ensures ReplicaWaits(s)
  {
  }

  /** Only matching settings make a link end agree, and nothing makes it forget. */
  lemma AgreementBySettings(hub: Hub, link: Link, event: Event, durability: Durability)
    ensures Receive(hub, link, event, durability).link.agreed
        <==> link.agreed || event == Settings(hub.coordinator)
    ensures !link.agreed && event != Settings(hub.coordinator) ==>
              Receive(hub, link, event, durability)
                == Received(hub, link, Some(if event.Settings? then OwnerDiffers else OwnerUnconfirmed))
  {
    hide Apply, WithoutSequence, SequenceIndex, ValidEpoch, ValidOrigin, ValidInstance, ValidContent;
  }

  lemma WaitsFrame(s: System, t: System)
    requires ReplicaWaits(s)
    requires t.replicaEnd.up ==> s.replicaEnd.up && (s.replicaEnd.link.agreed ==> t.replicaEnd.link.agreed)
    requires Uplink(t) == Uplink(s)
    ensures ReplicaWaits(t)
  {
    hide Uplink;
  }

  lemma DeliveredWaits(s: System, durability: Durability)
    requires ReplicaWaits(s)
    ensures ReplicaWaits(Next(s, OwnerDeliver(durability)))
  {
    hide Receive;
    if s.ownerEnd.up && s.toOwner != [] {
      assert Uplink(Next(s, OwnerDeliver(durability))) == Uplink(s)[1..];
    }
  }

  lemma TakenWaits(s: System, durability: Durability)
    requires ReplicaWaits(s)
    ensures ReplicaWaits(Next(s, ReplicaDeliver(durability)))
  {
    hide Receive;
    if s.toReplica != [] {
      AgreementBySettings(s.replica, s.replicaEnd.link, s.toReplica[0], durability);
    }
  }

  lemma TransmittedWaits(s: System)
    requires ReplicaWaits(s)
    ensures ReplicaWaits(Next(s, ReplicaTransmit))
  {
    assert Uplink(Next(s, ReplicaTransmit)) == Uplink(s);
  }

  lemma ConnectedWaits(s: System)
    ensures ReplicaWaits(Next(s, Connect))
  {
  }

  lemma NextWaits(s: System, step: Step)
    requires ReplicaWaits(s)
    ensures ReplicaWaits(Next(s, step))
  {
    hide QueueBatch, BatchOperations, AllAccepted, Replay, Receive, ReplicaWaits, SnapshotEvents, Submits;
    if step.OwnerDeliver? {
      DeliveredWaits(s, step.durability);
    } else if step.ReplicaDeliver? {
      TakenWaits(s, step.durability);
    } else if step.ReplicaTransmit? {
      TransmittedWaits(s);
    } else if step.Connect? {
      ConnectedWaits(s);
    } else if step.ReplicaFill? {
      FilledWaits(s);
    } else {
      WaitsFrame(s, Next(s, step));
    }
  }

  lemma FilledWaits(s: System)
    requires ReplicaWaits(s)
    ensures ReplicaWaits(Next(s, ReplicaFill))
  {
  }
}
