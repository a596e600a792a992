/** The hub and its session links as objects: clone, mutate, persist, then publish. */
module LinkObject {
  import opened Types
  import Spec = StoreSpec
  import opened LinkSpec
  import StoreObject

  class NotificationHub {
    const identity: string
    const coordinator: string
    var state: StoreObject.Store
    var disk: Spec.StoreValue
    var generation: nat

    ghost function Value(): Hub
      reads this, state
    {
      Hub(identity, coordinator, state.Value(), disk)
    }

    constructor (identity: string, coordinator: string, state: StoreObject.Store)
      ensures Value() == Hub(identity, coordinator, state.Value(), state.Value())
      ensures this.state == state && this.identity == identity && this.coordinator == coordinator
    {
      this.identity := identity;
      this.coordinator := coordinator;
      this.state := state;
      disk := Spec.StoreValue(state.coordinator, state.epoch, state.localIdentity, state.sequence,
                              state.records, state.pending, state.phoneInstances, state.importedPhones);
      generation := 0;
    }

    /** Writes a copy of the store; the outcome of the write is the environment's. */
    method Persist(next: StoreObject.Store, durability: Durability) returns (confirmed: bool)
      modifies this`disk
      ensures confirmed <==> durability.Committed?
      ensures disk == if durability.NotWritten? then old(disk) else next.Value()
    {
      if !durability.NotWritten? {
        disk := Spec.StoreValue(next.coordinator, next.epoch, next.localIdentity, next.sequence,
                                next.records, next.pending, next.phoneInstances, next.importedPhones);
      }
      confirmed := durability.Committed?;
    }

    /** Persists a candidate and, only once that is confirmed, makes it current and publishes it. */
    method Replace(next: StoreObject.Store, durability: Durability) returns (confirmed: bool)
      requires next != state
      modifies this
      ensures Value() == Commit(old(Value()), old(next.Value()), durability)
      ensures confirmed <==> durability.Committed?
      ensures generation == old(generation) + (if confirmed then 1 else 0)
      ensures state == if confirmed then next else old(state)
    {
      confirmed := Persist(next, durability);
      if confirmed {
        state := next;
        generation := generation + 1;
      }
    }

    /** A local post or dismissal: nothing is shown or announced before it is on disk. */
    method Local(key: Key, content: Option<Content>, durability: Durability) returns (error: Option<Error>)
      modifies this
      ensures var queued := Spec.QueueLocal(old(state.Value()), key, content, identity == coordinator);
              if queued.Ok? && queued.value.changed then
                && Value() == Commit(old(Value()), queued.value.store, durability)
                && error == (if durability.Committed? then None else Some(PersistFailed))
                && generation == old(generation) + (if durability.Committed? then 1 else 0)
              else
                && Value() == old(Value())
                && generation == old(generation)
                && error == (if queued.Ok? then None else Some(queued.error))
    {
      var next := new StoreObject.Store.Clone(state);
      var queued := next.QueueLocal(key, content, identity == coordinator);
      if queued.Err? {
        return Some(queued.error);
      }
      if !queued.value {
        return None;
      }
      var confirmed := Replace(next, durability);
      error := if confirmed then None else Some(PersistFailed);
    }
  }

  /** What a link end hands to the wire next, and the link afterwards; None while it waits. */
  function NextEvent(hub: Hub, link: Link): (Option<Event>, Link)
    decreases (if link.dirty then 1 else 0) + (if link.changed then 1 else 0)
  {
    if link.outgoing != [] then (Some(link.outgoing[0]), link.(outgoing := link.outgoing[1..]))
    else if !link.agreed || (!link.dirty && !link.changed) then (None, link)
    else NextEvent(hub, Fill(hub, link.(changed := link.dirty && link.changed)))
  }

  class NotificationLink {
    const hub: NotificationHub
    const peer: string
    var agreed: bool
    var seen: int
    var dirty: bool
    var sentThrough: nat
    var outgoing: seq<Event>
    var staged: Option<Staged>

    ghost predicate Valid()
      reads this, hub
    {
      seen <= hub.generation
    }

    ghost function Value(): Link
      reads this, hub
    {
      Link(peer, agreed, hub.generation != seen, dirty, sentThrough, outgoing, staged)
    }

    constructor (hub: NotificationHub, peer: string)
      ensures Valid() && this.hub == hub
      ensures Value() == NewLink(hub.Value(), peer)
    {
      this.hub := hub;
      this.peer := peer;
      agreed, seen, dirty, sentThrough := false, -1, false, 0;
      outgoing := [Settings(hub.coordinator)];
      staged := None;
    }

    /** Queues a snapshot, or the operations not sent yet, for the change just noticed. */
    method FillOutgoing()
      modifies this`dirty, this`outgoing, this`sentThrough
      ensures Value() == Fill(hub.Value(), old(Value()))
    {
      dirty := false;
      if hub.identity == hub.coordinator {
        outgoing := outgoing + [SnapshotStart(hub.state.epoch)];
        outgoing := outgoing + RecordEvents(hub.state.records);
        outgoing := outgoing + [SnapshotEnd];
        assert outgoing == old(outgoing) + SnapshotEvents(hub.state.Value());
      } else {
        var pending := hub.state.pending;
        ghost var before := outgoing;
        var i := |pending|;
        var added: seq<Event> := [];
        var latest := sentThrough;
        while i > 0
          invariant 0 <= i <= |pending|
          invariant added == Submits(pending[i..], sentThrough)
          invariant latest == LatestSequence(pending[i..], sentThrough)
          invariant outgoing == before && dirty == false
        {
          i := i - 1;
          assert pending[i..][1..] == pending[i + 1..];
          if pending[i].sequence > sentThrough {
            added := [Submit(pending[i])] + added;
          }
          if pending[i].sequence > latest {
            latest := pending[i].sequence;
          }
        }
        assert pending[0..] == pending;
        outgoing := outgoing + added;
        sentThrough := latest;
      }
    }

    method Next() returns (event: Option<Event>)
      requires Valid()
      modifies this
      ensures Valid()
      ensures (event, Value()) == NextEvent(hub.Value(), old(Value()))
    {
      while outgoing == []
        invariant Valid()
        invariant NextEvent(hub.Value(), Value()) == NextEvent(hub.Value(), old(Value()))
        decreases (if dirty then 1 else 0) + (if hub.generation != seen then 1 else 0), |outgoing|
      {
        if !agreed {
          return None;
        }
        if !dirty {
          if hub.generation == seen {
            return None;
          }
          seen := hub.generation;
          dirty := true;
        }
        FillOutgoing();
      }
      event := Some(outgoing[0]);
      outgoing := outgoing[1..];
    }

    method ReceiveSubmit(op: Operation, durability: Durability) returns (error: Option<Error>)
      requires Valid()
      modifies this`outgoing, hub
      ensures Valid()
      ensures Received(hub.Value(), Value(), error)
           == LinkSpec.ReceiveSubmit(old(hub.Value()), old(Value()), op, durability)
    {
      hide Spec.Apply;
      var next := new StoreObject.Store.Clone(hub.state);
      var applied := next.Apply(peer, op);
      if applied.Err? {
        return Some(applied.error);
      }
      if applied.value {
        var confirmed := hub.Replace(next, durability);
        if !confirmed {
          return Some(PersistFailed);
        }
      }
      if |outgoing| >= MAX_RECORDS + MAX_PENDING + 4 {
        return Some(OutputQueueFull);
      }
      outgoing := outgoing + [Ack(op.sequence)];
      error := None;
    }

    method ReceiveAck(sequence: nat, durability: Durability) returns (error: Option<Error>)
      requires Valid()
      modifies hub
      ensures Valid()
      ensures Received(hub.Value(), Value(), error)
           == LinkSpec.ReceiveAck(old(hub.Value()), old(Value()), sequence, durability)
    {
      hide Spec.Apply, Spec.WithoutSequence;
      var pending := hub.state.pending;
      var i := 0;
      while i < |pending| && pending[i].sequence != sequence
        invariant 0 <= i <= |pending|
        invariant forall j :: 0 <= j < i ==> pending[j].sequence != sequence
      {
        i := i + 1;
      }
      if i == |pending| {
        return None;
      }
      assert SequenceIndex(pending, sequence) == i;
      var next := new StoreObject.Store.Clone(hub.state);
      next.pending := Spec.WithoutSequence(pending, sequence);
      var applied := next.Apply(hub.identity, pending[i]);
      if applied.Err? {
        return Some(applied.error);
      }
      var confirmed := hub.Replace(next, durability);
      error := if confirmed then None else Some(PersistFailed);
    }

    method ReceiveStart(epoch: string) returns (error: Option<Error>)
      modifies this`staged
      ensures Received(hub.Value(), Value(), error)
           == LinkSpec.ReceiveStart(old(hub.Value()), old(Value()), epoch)
    {
      hide ValidEpoch;
      if !ValidEpoch(epoch) {
        return Some(InvalidEpoch);
      }
      if hub.state.epoch != "" && hub.state.epoch != epoch {
        return Some(AuthorityReset);
      }
      if staged.Some? {
        return Some(NestedSnapshot);
      }
      staged := Some(Staged(epoch, []));
      error := None;
    }

    method ReceiveRecord(record: Record) returns (error: Option<Error>)
      modifies this`staged
      ensures Received(hub.Value(), Value(), error)
           == LinkSpec.ReceiveRecord(old(hub.Value()), old(Value()), record)
    {
      hide Spec.IndexOf, ValidOrigin, ValidInstance, ValidContent;
      if !ValidOrigin(record.key.origin) {
        return Some(InvalidOrigin);
      }
      if !ValidInstance(record.key.instance) {
        return Some(InvalidInstance);
      }
      if record.content.Some? && !ValidContent(record.content.value) {
        return Some(InvalidContent);
      }
      if staged.None? {
        return Some(OutsideSnapshot);
      }
      var sofar := staged.value.records;
      if |sofar| >= MAX_RECORDS || Spec.IndexOf(sofar, record.key) >= 0 {
        return Some(SnapshotCapacity);
      }
      staged := Some(staged.value.(records := sofar + [record]));
      error := None;
    }

    /** The end of a snapshot replaces the records at once, unless nothing differs. */
    method ReceiveEnd(durability: Durability) returns (error: Option<Error>)
      requires Valid()
      modifies this`staged, hub
      ensures Valid()
      ensures Received(hub.Value(), Value(), error)
           == LinkSpec.ReceiveEnd(old(hub.Value()), old(Value()), durability)
    {
      if staged.None? {
        return Some(EndWithoutStart);
      }
      var done := staged.value;
      staged := None;
      if hub.state.epoch == done.epoch && hub.state.records == done.records {
        return None;
      }
      var next := new StoreObject.Store.Clone(hub.state);
      next.epoch := done.epoch;
      next.records := done.records;
      var confirmed := hub.Replace(next, durability);
      error := if confirmed then None else Some(PersistFailed);
    }

    /** Takes one event from the peer; an error ends the session. */
    method Receive(event: Event, durability: Durability) returns (error: Option<Error>)
      requires Valid()
      modifies this, hub
      ensures Valid()
      ensures Received(hub.Value(), Value(), error)
           == LinkSpec.Receive(old(hub.Value()), old(Value()), event, durability)
    {
      hide LinkSpec.ReceiveSubmit, LinkSpec.ReceiveAck, LinkSpec.ReceiveStart, LinkSpec.ReceiveRecord,
           LinkSpec.ReceiveEnd;
      if event.Settings? {
        if event.coordinator != hub.coordinator {
          return Some(OwnerDiffers);
        }
        agreed := true;
        return None;
      }
      if !agreed {
        return Some(OwnerUnconfirmed);
      }
      if hub.identity == hub.coordinator {
        if event.Submit? {
          error := ReceiveSubmit(event.operation, durability);
        } else {
          error := Some(WrongAuthority);
        }
      } else if event.Ack? {
        error := ReceiveAck(event.sequence, durability);
      } else if event.SnapshotStart? {
        error := ReceiveStart(event.epoch);
      } else if event.SnapshotRecord? {
        error := ReceiveRecord(event.record);
      } else if event.SnapshotEnd? {
        error := ReceiveEnd(durability);
      } else {
        error := Some(WrongAuthority);
      }
    }
  }
}
