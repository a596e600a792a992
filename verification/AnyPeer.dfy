/** What a link end does with whatever a peer sends, in any order: each answer, and what stays safe. */
module AnyPeer {
  import opened Types
  import opened StoreSpec
  import opened OverlayLaws
  import opened LinkSpec
  import LinkObject

  // --------------------------------------------------- when an event is taken

  lemma SettingsTakenExactlyWhen(hub: Hub, link: Link, coordinator: string, durability: Durability)
    ensures var r := Receive(hub, link, Settings(coordinator), durability);
            if coordinator == hub.coordinator then r == Received(hub, link.(agreed := true), None)
            else r == Received(hub, link, Some(OwnerDiffers))
  {
  }

  /** Who may send what: an owner only takes operations, a replica only receipts and history. */
  lemma WrongAuthorityExactlyWhen(hub: Hub, link: Link, event: Event, durability: Durability)
    requires link.agreed
    ensures (if IsCoordinator(hub) then !event.Submit? && !event.Settings? else event.Submit?) ==>
              Receive(hub, link, event, durability) == Received(hub, link, Some(WrongAuthority))
  {
    hide Apply;
  }

  /** A snapshot begins only under a well-formed epoch that is this history's, and not inside another. */
  lemma StartTakenExactlyWhen(hub: Hub, link: Link, epoch: string, durability: Durability)
    requires !IsCoordinator(hub) && link.agreed
    ensures var r := Receive(hub, link, SnapshotStart(epoch), durability);
            if ValidEpoch(epoch) && (hub.mem.epoch == "" || epoch == hub.mem.epoch) && link.staged.None? then
              r == Received(hub, link.(staged := Some(Staged(epoch, []))), None)
            else
              r == Received(hub, link, Some(
                     if !ValidEpoch(epoch) then InvalidEpoch
                     else if hub.mem.epoch != "" && hub.mem.epoch != epoch then AuthorityReset
                     else NestedSnapshot))
  {
    hide ValidEpoch;
  }

  /** A record is staged only when it is valid, inside a snapshot, within the limit and on a new key. */
  lemma RecordTakenExactlyWhen(hub: Hub, link: Link, record: Record, durability: Durability)
    requires !IsCoordinator(hub) && link.agreed
    ensures var r := Receive(hub, link, SnapshotRecord(record), durability);
            var valid := ValidKey(record.key) && (record.content.Some? ==> ValidContent(record.content.value));
            var fits := link.staged.Some? && |link.staged.value.records| < MAX_RECORDS
                        && Lookup(link.staged.value.records, record.key).None?;
            && r.hub == hub
            && (r.error.None? <==> valid && fits)
            && (r.error.None? ==>
                  var staged := link.staged.value;
                  r.link == link.(staged := Some(Staged(staged.epoch, staged.records + [record]))))
            && (r.error.Some? ==> r.link == link)
            && (valid && link.staged.None? ==> r.error == Some(OutsideSnapshot))
            && (valid && link.staged.Some? && !fits ==> r.error == Some(SnapshotCapacity))
  {
    hide ValidOrigin, ValidInstance, ValidContent;
  }

  /** The end replaces epoch and records at once, and writes nothing when they agree already. */
  lemma EndOutcome(hub: Hub, link: Link, durability: Durability)
    requires !IsCoordinator(hub) && link.agreed
    ensures var r := Receive(hub, link, SnapshotEnd, durability);
            if link.staged.None? then r == Received(hub, link, Some(EndWithoutStart))
            else
              var staged := link.staged.value;
              var next := hub.mem.(epoch := staged.epoch, records := staged.records);
              && r.link.staged.None?
              && (if next == hub.mem then r.hub == hub && r.error.None?
                  else
                    && r.hub.mem == (if durability.Committed? then next else hub.mem)
                    && r.hub.disk == (if durability.NotWritten? then hub.disk else next)
                    && r.error == if durability.Committed? then None else Some(PersistFailed))
  {
  }

  /** A receipt for nothing that is queued changes nothing and needs no write. */
  lemma UnknownReceipt(hub: Hub, link: Link, sequence: nat, durability: Durability)
    requires !IsCoordinator(hub) && link.agreed
    requires forall op :: op in hub.mem.pending ==> op.sequence != sequence
    ensures Receive(hub, link, Ack(sequence), durability) == Received(hub, link, None)
  {
    hide Apply;
  }

  /** An operation is acknowledged exactly when it is accepted, written if it changed anything, and there is room. */
  lemma SubmitAcknowledgedExactlyWhen(hub: Hub, link: Link, op: Operation, durability: Durability)
    requires IsCoordinator(hub) && link.agreed
    ensures var r := Receive(hub, link, Submit(op), durability);
            var accepted := && ValidKey(op.key) && op.sequence > 0
                            && (op.content.Some? ==> op.key.origin == link.peer && ValidContent(op.content.value))
                            && (Lookup(hub.mem.records, op.key).Some? || |hub.mem.records| < MAX_RECORDS);
            var after := Attempt(hub.mem.records, link.peer, op);
            && (r.error.None? <==> accepted && |link.outgoing| < MAX_RECORDS + MAX_PENDING + 4
                                   && (after == hub.mem.records || durability.Committed?))
            && (r.error.None? ==> r.link.outgoing == link.outgoing + [Ack(op.sequence)]
                                  && r.hub.mem.records == after)
            && (r.error.Some? ==> r.link.outgoing == link.outgoing)
            && (after == hub.mem.records ==> r.hub == hub)
  {
    AppliedExactlyWhen(hub.mem.records, link.peer, op);
    if Apply(hub.mem.records, link.peer, op).Ok? {
      ChangedMeansDifferent(hub.mem.records, link.peer, op);
    }
    hide Attempt, Apply;
    hide ValidOrigin, ValidInstance, ValidContent, Refusal;
  }

  lemma ChangedMeansDifferent(records: seq<Record>, sender: string, op: Operation)
    requires Apply(records, sender, op).Ok?
    ensures Apply(records, sender, op).value.changed <==> Attempt(records, sender, op) != records
  {
    hide Refusal;
  }

  // ------------------------------------------------------------- whatever arrives

  /** Unique valid keys with valid content, within the limit. */
  ghost predicate Sound(records: seq<Record>) {
    && |records| <= MAX_RECORDS && UniqueKeys(records)
    && forall i :: 0 <= i < |records| ==>
         ValidKey(records[i].key) && (records[i].content.Some? ==> ValidContent(records[i].content.value))
  }

  ghost predicate SoundStaged(link: Link, epoch: string) {
    link.staged.Some? ==>
      && Sound(link.staged.value.records) && ValidEpoch(link.staged.value.epoch)
      && (epoch == "" || link.staged.value.epoch == epoch)
  }

  /** One end and its hub: the memory's history and the disk's are of one epoch once there is one. */
  ghost predicate SoundEnd(hub: Hub, link: Link) {
    && Sound(hub.mem.records) && Sound(hub.disk.records)
    && (hub.mem.epoch != "" ==> hub.disk.epoch == hub.mem.epoch)
    && (forall op :: op in hub.mem.pending ==> Refusal(hub.identity, op).None?)
    && SoundStaged(link, hub.mem.epoch)
  }

  lemma AttemptSound(records: seq<Record>, sender: string, op: Operation)
    requires Sound(records)
    ensures Sound(Attempt(records, sender, op))
  {
  }

  lemma OneArrives(hub: Hub, link: Link, event: Event, durability: Durability)
    requires SoundEnd(hub, link)
    ensures var r := Receive(hub, link, event, durability);
            && SoundEnd(r.hub, r.link)
            && r.hub.identity == hub.identity && r.hub.coordinator == hub.coordinator
            && (hub.mem.epoch != "" ==> r.hub.mem.epoch == hub.mem.epoch)
            && (IsCoordinator(hub) ==> r.hub.mem.epoch == hub.mem.epoch && r.hub.mem.pending == hub.mem.pending)
  {
    hide Sound, ValidEpoch, Refusal;
    if !link.agreed || event.Settings? {
    } else if event.Submit? && IsCoordinator(hub) {
      AttemptSound(hub.mem.records, link.peer, event.operation);
      SubmitArrives(hub, link, event.operation, durability);
    } else if event.Ack? && !IsCoordinator(hub) {
      AckArrives(hub, link, event.sequence, durability);
    } else if event.SnapshotStart? && !IsCoordinator(hub) {
      NothingSound();
    } else if event.SnapshotRecord? && !IsCoordinator(hub) {
      RecordArrives(hub, link, event.record);
    } else {
      hide Apply;
    }
  }

  lemma NothingSound()
    ensures Sound([])
  {
  }

  lemma SubmitArrives(hub: Hub, link: Link, op: Operation, durability: Durability)
    requires SoundEnd(hub, link) && Sound(Attempt(hub.mem.records, link.peer, op))
    ensures var r := ReceiveSubmit(hub, link, op, durability);
            && SoundEnd(r.hub, r.link) && r.hub.mem.epoch == hub.mem.epoch && r.hub.mem.pending == hub.mem.pending
            && r.hub.identity == hub.identity && r.hub.coordinator == hub.coordinator
  {
    hide Sound, Refusal, ValidEpoch;
  }

  lemma AckArrives(hub: Hub, link: Link, sequence: nat, durability: Durability)
    requires SoundEnd(hub, link)
    ensures var r := ReceiveAck(hub, link, sequence, durability);
            && SoundEnd(r.hub, r.link) && r.hub.mem.epoch == hub.mem.epoch
            && r.hub.identity == hub.identity && r.hub.coordinator == hub.coordinator
  {
    hide Sound, Refusal, ValidEpoch, WithoutSequence;
    var i := SequenceIndex(hub.mem.pending, sequence);
    if i >= 0 {
      AttemptSound(hub.mem.records, hub.identity, hub.mem.pending[i]);
      RetainedOf(hub.mem.pending, (op: Operation) => op.sequence != sequence);
      assert WithoutSequence(hub.mem.pending, sequence)
          == Retain(hub.mem.pending, (op: Operation) => op.sequence != sequence)
      by {
        RetainIs(hub.mem.pending, sequence);
      }
    }
  }

  lemma RetainIs(pending: seq<Operation>, sequence: nat)
    ensures WithoutSequence(pending, sequence) == Retain(pending, (op: Operation) => op.sequence != sequence)
  {
  }

  lemma {:induction false} RetainedOf(pending: seq<Operation>, keep: Operation -> bool)
    ensures forall op :: op in Retain(pending, keep) ==> op in pending
  {
    if |pending| > 0 {
      RetainedOf(pending[1..], keep);
    }
  }

  lemma RecordArrives(hub: Hub, link: Link, record: Record)
    requires SoundEnd(hub, link)
    ensures var r := ReceiveRecord(hub, link, record);
            r.hub == hub && SoundEnd(r.hub, r.link)
  {
    hide ValidOrigin, ValidInstance, ValidContent, ValidEpoch, Refusal;
  }

  datatype Arrival = Arrival(event: Event, durability: Durability)

  /** Everything a peer sends, taken in turn, whatever was answered to it. */
  function TakeAll(hub: Hub, link: Link, arrivals: seq<Arrival>): Received {
    if |arrivals| == 0 then Received(hub, link, None)
    else
      var last := arrivals[|arrivals| - 1];
      var before := TakeAll(hub, link, arrivals[..|arrivals| - 1]);
      Receive(before.hub, before.link, last.event, last.durability)
  }

  /**
   Whatever a peer sends, in whatever order and with whatever writes failing: records stay
   unique, valid and within the limit, in memory, on disk and in the staged snapshot, and a
   history once begun is never replaced by one of another epoch.
   */
  lemma {:induction false} WhateverArrives(hub: Hub, link: Link, arrivals: seq<Arrival>)
    requires SoundEnd(hub, link)
    ensures var r := TakeAll(hub, link, arrivals);
            && SoundEnd(r.hub, r.link) && r.hub.identity == hub.identity && r.hub.coordinator == hub.coordinator
            && (hub.mem.epoch != "" ==> r.hub.mem.epoch == hub.mem.epoch && r.hub.disk.epoch == hub.mem.epoch)
  {
    hide SoundEnd, Receive;
    if |arrivals| > 0 {
      var front, last := arrivals[..|arrivals| - 1], arrivals[|arrivals| - 1];
      WhateverArrives(hub, link, front);
      var before := TakeAll(hub, link, front);
      OneArrives(before.hub, before.link, last.event, last.durability);
      EpochOnDisk(before.hub, before.link, last.event, last.durability);
    } else {
      EpochOnDiskNow(hub, link);
    }
  }

  lemma EpochOnDiskNow(hub: Hub, link: Link)
    requires SoundEnd(hub, link)
    ensures hub.mem.epoch != "" ==> hub.disk.epoch == hub.mem.epoch
  {
  }

  lemma EpochOnDisk(hub: Hub, link: Link, event: Event, durability: Durability)
    requires SoundEnd(hub, link)
    ensures var r := Receive(hub, link, event, durability);
            r.hub.mem.epoch != "" ==> r.hub.disk.epoch == r.hub.mem.epoch
  {
    hide SoundEnd, Receive;
    OneArrives(hub, link, event, durability);
    var r := Receive(hub, link, event, durability);
    EpochOnDiskNow(r.hub, r.link);
  }

  // --------------------------------------------------------------- what an owner lets in

  /** Nobody can put words into another machine's mouth: foreign keys are left alone or dismissed. */
  lemma OnlyOwnContent(hub: Hub, link: Link, event: Event, durability: Durability, key: Key)
    requires IsCoordinator(hub) && UniqueKeys(hub.mem.records) && key.origin != link.peer
    ensures var r := Receive(hub, link, event, durability);
            var before, after := Lookup(hub.mem.records, key), Lookup(r.hub.mem.records, key);
            after == before || Dead(after)
  {
    hide Refusal, Attempt, Lookup, ReceiveSubmit, ReceiveAck, ReceiveStart, ReceiveRecord, ReceiveEnd;
    if event.Submit? && link.agreed {
      SubmitRecords(hub, link, event.operation, durability);
      ForeignAttempt(hub.mem.records, link.peer, event.operation, key);
    }
  }

  lemma SubmitRecords(hub: Hub, link: Link, op: Operation, durability: Durability)
    ensures var after := ReceiveSubmit(hub, link, op, durability).hub.mem.records;
            after == hub.mem.records || after == Attempt(hub.mem.records, link.peer, op)
  {
    hide Refusal;
  }

  lemma ForeignAttempt(records: seq<Record>, sender: string, op: Operation, key: Key)
    requires UniqueKeys(records) && key.origin != sender
    ensures var before, after := Lookup(records, key), Lookup(Attempt(records, sender, op), key);
            after == before || Dead(after)
  {
    hide ValidOrigin, ValidInstance, ValidContent;
    if Refusal(sender, op).None? {
      AttemptLookup(records, sender, op, key);
      hide Lookup, Attempt;
    }
  }

  /** Until the owner is agreed on, an end hands over its settings and nothing else. */
  lemma NothingBeforeAgreement(hub: Hub, peer: string, now: Hub, changed: bool)
    ensures var (first, waiting) := LinkObject.NextEvent(hub, NewLink(hub, peer));
            && first == Some(Settings(hub.coordinator))
            && LinkObject.NextEvent(now, waiting.(changed := changed)) == (None, waiting.(changed := changed))
  {
  }
}
