/** What holds over whole runs of the owner/replica system. */
module NetworkRuns {
  import opened Types
  import opened StoreSpec
  import opened OverlayLaws
  import opened LinkSpec
  import opened Network
  import opened NetworkInvariant
  import opened NetworkOwnerSteps
  import opened NetworkReplicaSteps
  import NetworkOwnerReceives
  import NetworkReplicaReceives
  import JoinLaws

  // ------------------------------------------------------------ reachability

  lemma InitHolds(s: System)
    requires Init(s)
    ensures Inv(s)
  {
    hide Refusal, ValidRecord;
    var store := s.replica.mem;
    assert AcceptedOk(s.accepted, store) by {
      forall op | op in s.accepted ensures OwnOperation(op, store.localIdentity, store.sequence) {
        assert op in store.pending;
      }
    }
    forall op | op in s.accepted ensures Covered(op, store, s.owner.mem.records) {
      var i :| 0 <= i < |store.pending| && store.pending[i] == op;
      assert Replaces(store.pending[i], op);
    }
    AdvancesReflexive(s.owner.mem.records);
  }

  lemma NextKeeps(s: System, step: Step)
    requires Inv(s)
    ensures Inv(Next(s, step))
  {
    hide Inv, DoOwnerDeliver, DoReplicaDeliver, DoLocalChange, DoOwnerLocal, DoOwnerCommit;
    match step
    case LocalChange(requests, metadata, durability) => LocalChangeKeeps(s, requests, metadata, durability);
    case OwnerLocal(requests, metadata, durability) => OwnerLocalKeeps(s, requests, metadata, durability);
    case OwnerCommit(submissions, durability) => SubmissionsKeep(s, submissions, durability);
    case OwnerAnnounce => OwnerAnnounceKeeps(s);
    case ReplicaAnnounce => ReplicaAnnounceKeeps(s);
    case OwnerNotice => OwnerNoticeKeeps(s);
    case ReplicaNotice => ReplicaNoticeKeeps(s);
    case OwnerFill => OwnerFillKeeps(s);
    case ReplicaFill => ReplicaFillKeeps(s);
    case OwnerTransmit => OwnerTransmitKeeps(s);
    case ReplicaTransmit => ReplicaTransmitKeeps(s);
    case OwnerDeliver(durability) => NetworkOwnerReceives.OwnerDeliverKeeps(s, durability);
    case ReplicaDeliver(durability) => NetworkReplicaReceives.ReplicaDeliverKeeps(s, durability);
    case OwnerCrash => OwnerCrashKeeps(s);
    case ReplicaCrash => ReplicaCrashKeeps(s);
    case OwnerDrop => OwnerDropKeeps(s);
    case ReplicaDrop => ReplicaDropKeeps(s);
    case Connect => ConnectKeeps(s);
  }

  lemma {:induction false} RunKeeps(s: System, steps: seq<Step>)
    requires Inv(s)
    ensures Inv(Run(s, steps))
  {
    hide Inv, Next;
    if |steps| > 0 {
      RunKeeps(s, steps[..|steps| - 1]);
      NextKeeps(Run(s, steps[..|steps| - 1]), steps[|steps| - 1]);
    }
  }

  lemma RunNone(s: System)
    ensures Run(s, []) == s
  {
  }

  lemma RunOne(s: System, step: Step)
    ensures Run(s, [step]) == Next(s, step)
  {
    hide Next;
    assert [step][..0] == [];
  }

  lemma {:induction false} RunConcat(s: System, first: seq<Step>, more: seq<Step>)
    ensures Run(s, first + more) == Run(Run(s, first), more)
  {
    hide Next;
    if |more| == 0 {
      assert first + more == first;
    } else {
      var last := |more| - 1;
      RunConcat(s, first, more[..last]);
      assert (first + more)[..|first + more| - 1] == first + more[..last];
    }
  }

  lemma AcceptedStays(s: System, step: Step)
    ensures s.accepted <= Next(s, step).accepted
  {
    hide BatchStore, BatchOperations, Receive;
  }

  lemma {:induction false} AcceptedForever(s: System, steps: seq<Step>)
    ensures s.accepted <= Run(s, steps).accepted
  {
    hide Next;
    if |steps| > 0 {
      AcceptedForever(s, steps[..|steps| - 1]);
      AcceptedStays(Run(s, steps[..|steps| - 1]), steps[|steps| - 1]);
    }
  }

  lemma Reached(s: System, steps: seq<Step>, more: seq<Step>)
    requires Init(s)
    ensures Inv(Run(s, steps + more))
    ensures Run(s, steps).accepted <= Run(s, steps + more).accepted
  {
    hide Inv, Init, Next;
    InitHolds(s);
    RunKeeps(s, steps + more);
    RunConcat(s, steps, more);
    AcceptedForever(Run(s, steps), more);
  }

  // ---------------------------------------------------------- nothing is lost

  /** Reflected in the owner's memory and on the owner's disk. */
  ghost predicate Durable(s: System, op: Operation) {
    Subsumes(s.owner.mem.records, op) && Subsumes(s.owner.disk.records, op)
  }

  /**
   An operation the replica accepted at any point of a run is, at every later point, still
   represented in the outbox by itself or a newer operation on its key, or durable at the
   owner, whatever links dropped, nodes crashed and writes failed in between.
   */
  lemma NoOperationLost(s: System, steps: seq<Step>, more: seq<Step>, op: Operation)
    requires Init(s)
    requires op in Run(s, steps).accepted
    ensures var t := Run(s, steps + more);
            PendingCovers(t.replica.mem.pending, op) || Durable(t, op)
  {
    hide Init, Run;
    Reached(s, steps, more);
    CoveredIsDurable(Run(s, steps + more), op);
  }

  lemma CoveredIsDurable(t: System, op: Operation)
    requires Inv(t) && op in t.accepted
    ensures PendingCovers(t.replica.mem.pending, op) || Durable(t, op)
    ensures PendingCovers(t.replica.disk.pending, op) || Durable(t, op)
  {
    hide UplinkOk, SessionOk, Subsumes, PendingCovers, Authentic, AcceptedOk, DiskOutboxOk, ValidStore,
         KeysWithin, Advances;
    assert Covered(op, t.replica.mem, t.owner.mem.records);
    assert Covered(op, t.replica.disk, t.owner.mem.records);
    if Subsumes(t.owner.mem.records, op) {
      AdvancesSubsumes(t.owner.mem.records, t.owner.disk.records, op);
    }
  }

  /**
   What durable means for a post: the owner shows it, dismissed, or with the content of an
   accepted operation at least as new. Nobody else can put content under the replica's name.
   */
  lemma DurablePostIsShown(t: System, op: Operation)
    requires Inv(t) && op in t.accepted && op.content.Some?
    requires Durable(t, op)
    ensures var record := Lookup(t.owner.mem.records, op.key);
            || Dead(record)
            || (&& Live(record)
                && record.value.sourceSequence >= op.sequence
                && Operation(record.value.sourceSequence, op.key, record.value.content) in t.accepted
                && (record.value.sourceSequence == op.sequence ==> record.value.content == op.content))
  {
  }

  // -------------------------------------------------- what the replica shows

  lemma PendingCoversIndex(store: StoreValue, op: Operation)
    requires ValidStore(store) && PendingCovers(store.pending, op)
    ensures var i := PendingIndex(store.pending, op.key);
            && i >= 0 && Replaces(store.pending[i], op)
            && Lookup(View(store), op.key)
                 == Merge(Lookup(store.records, op.key), store.pending[i],
                          |Overlay(store.records, store.localIdentity, store.pending[..i])| < MAX_RECORDS)
  {
    hide ValidRecords, Refusal, Overlay, Lookup;
    var k :| 0 <= k < |store.pending| && Replaces(store.pending[k], op);
    PendingIndexUnique(store.pending, store.localIdentity, store.sequence, store.pending[k]);
    OverlayAt(store.records, store.localIdentity, store.pending, store.sequence,
              PendingIndex(store.pending, op.key));
  }

  lemma ViewWithoutPending(store: StoreValue, key: Key)
    requires ValidStore(store) && PendingIndex(store.pending, key) < 0
    ensures Lookup(View(store), key) == Lookup(store.records, key)
  {
    hide Refusal, Overlay, Lookup, ValidRecords;
    forall i | 0 <= i < |store.pending| ensures Refusal(store.localIdentity, store.pending[i]).None? {
      assert OwnOperation(store.pending[i], store.localIdentity, store.sequence);
    }
    OverlayElsewhere(store.records, store.localIdentity, store.pending, key);
  }

  lemma ViewWithPending(store: StoreValue, key: Key)
    requires ValidStore(store) && PendingIndex(store.pending, key) >= 0
    ensures var i := PendingIndex(store.pending, key);
            Lookup(View(store), key)
              == Merge(Lookup(store.records, key), store.pending[i],
                       |Overlay(store.records, store.localIdentity, store.pending[..i])| < MAX_RECORDS)
  {
    hide Refusal, Overlay, Lookup, ValidRecords;
    OverlayAt(store.records, store.localIdentity, store.pending, store.sequence,
              PendingIndex(store.pending, key));
  }

  lemma CoveredRemovalHidden(store: StoreValue, ownerRecords: seq<Record>, op: Operation)
    requires ValidStore(store) && Covered(op, store, ownerRecords) && op.content.None?
    ensures !Live(Lookup(View(store), op.key))
  {
    hide ValidStore, View;
    if PendingCovers(store.pending, op) {
      PendingCoversIndex(store, op);
    } else if PendingIndex(store.pending, op.key) >= 0 {
      ViewWithPending(store, op.key);
    } else {
      ViewWithoutPending(store, op.key);
    }
  }

  /**
   Once the replica has accepted a dismissal, nothing that happens later makes its view, or
   the view it would come back with after a crash, show the entry again.
   */
  lemma DismissalIsFinal(s: System, steps: seq<Step>, more: seq<Step>, op: Operation)
    requires Init(s)
    requires op in Run(s, steps).accepted && op.content.None?
    ensures var t := Run(s, steps + more);
            && !Live(Lookup(View(t.replica.mem), op.key))
            && !Live(Lookup(View(t.replica.disk), op.key))
  {
    hide Init, Run;
    Reached(s, steps, more);
    var t := Run(s, steps + more);
    hide UplinkOk, SessionOk, Subsumes, PendingCovers, Authentic, AcceptedOk, DiskOutboxOk, ValidStore,
         KeysWithin, OwnerStores, View;
    CoveredRemovalHidden(t.replica.mem, t.owner.mem.records, op);
    CoveredRemovalHidden(t.replica.disk, t.owner.mem.records, op);
  }

  lemma {:induction false} OverlayAuthentic(
    accepted: set<Operation>, replica: string, records: seq<Record>, sender: string, pending: seq<Operation>)
    requires Authentic(accepted, replica, records)
    requires forall i :: 0 <= i < |pending| ==> pending[i] in accepted
    ensures Authentic(accepted, replica, Overlay(records, sender, pending))
  {
    hide Attempt, Authentic;
    if |pending| > 0 {
      var last := |pending| - 1;
      OverlayAuthentic(accepted, replica, records, sender, pending[..last]);
      NetworkOwnerReceives.AcceptedAuthentic(
        accepted, replica, Overlay(records, sender, pending[..last]), sender, pending[last]);
    }
  }

  lemma CoveredIsVisible(store: StoreValue, ownerRecords: seq<Record>, op: Operation)
    requires ValidStore(store) && Covered(op, store, ownerRecords)
    requires |KeySet(store.records) + PendingKeys(store.pending)| <= MAX_RECORDS
    ensures Subsumes(View(store), op)
  {
    hide ValidStore, View, PendingIndex, KeySet, PendingKeys;
    if PendingCovers(store.pending, op) {
      PendingCoversIndex(store, op);
      WithinCapacityNotCrowded(store, op.key);
    } else if PendingIndex(store.pending, op.key) >= 0 {
      ViewWithPending(store, op.key);
    } else {
      ViewWithoutPending(store, op.key);
    }
  }

  /**
   A post the replica accepted is never shown older than posted: its view has the entry,
   dismissed or with the content of an accepted operation at least as new, as long as the
   records and the outbox together name at most MAX_RECORDS keys.
   */
  lemma ReadYourWrites(s: System, steps: seq<Step>, more: seq<Step>, op: Operation)
    requires Init(s)
    requires op in Run(s, steps).accepted && op.content.Some?
    requires var t := Run(s, steps + more);
             |KeySet(t.replica.mem.records) + PendingKeys(t.replica.mem.pending)| <= MAX_RECORDS
    ensures var t := Run(s, steps + more);
            var record := Lookup(View(t.replica.mem), op.key);
            || Dead(record)
            || (&& Live(record)
                && record.value.sourceSequence >= op.sequence
                && Operation(record.value.sourceSequence, op.key, record.value.content) in t.accepted)
  {
    hide Init, Run;
    Reached(s, steps, more);
    VisibleIsAccepted(Run(s, steps + more), op);
  }

  lemma VisibleIsAccepted(t: System, op: Operation)
    requires Inv(t) && op in t.accepted && op.content.Some?
    requires |KeySet(t.replica.mem.records) + PendingKeys(t.replica.mem.pending)| <= MAX_RECORDS
    ensures var record := Lookup(View(t.replica.mem), op.key);
            || Dead(record)
            || (&& Live(record)
                && record.value.sourceSequence >= op.sequence
                && Operation(record.value.sourceSequence, op.key, record.value.content) in t.accepted)
  {
    hide UplinkOk, SessionOk, PendingCovers, DiskOutboxOk, ValidStore, KeysWithin, OwnerStores, Overlay,
         KeySet, PendingKeys;
    var view := View(t.replica.mem);
    CoveredIsVisible(t.replica.mem, t.owner.mem.records, op);
    OverlayAuthentic(t.accepted, t.replica.identity, t.replica.mem.records, t.replica.identity,
                     t.replica.mem.pending);
    assert OwnOperation(op, t.replica.identity, t.replica.mem.sequence);
    var i := IndexOf(view, op.key);
    assert AuthenticRecord(t.accepted, t.replica.identity, view[i]);
  }

  /** In every reachable state the replica's counter is ahead of its own live records. */
  lemma ReplicaCounterAhead(s: System, steps: seq<Step>)
    requires Init(s)
    ensures ValidStore(Run(s, steps).replica.mem) && CounterAhead(Run(s, steps).replica.mem)
  {
    hide Init, Run;
    assert steps + [] == steps;
    Reached(s, steps, []);
    var t := Run(s, steps);
    hide UplinkOk, SessionOk, ValidStore, AllCovered, OwnerStores, DiskOutboxOk, Refusal;
    forall i | 0 <= i < |t.replica.mem.records|
      ensures var r := t.replica.mem.records[i];
              r.key.origin == t.replica.identity && r.content.Some? ==>
                r.sourceSequence <= t.replica.mem.sequence
    {
      var r := t.replica.mem.records[i];
      assert AuthenticRecord(t.accepted, t.replica.identity, r);
      if r.key.origin == t.replica.identity && r.content.Some? {
        assert OwnOperation(Operation(r.sourceSequence, r.key, r.content), t.replica.identity,
                            t.replica.mem.sequence);
      }
    }
  }

  // -------------------------------------------------------------- convergence

  /** A link end with nothing to look at and nothing to send, of a hub that owes it no announcement. */
  predicate Idle(end: End, owes: bool) {
    end.up && !owes && !end.link.changed && !end.link.dirty && end.link.outgoing == []
  }

  predicate Quiescent(s: System) {
    Idle(s.ownerEnd, s.ownerOwes) && Idle(s.replicaEnd, s.replicaOwes) && s.toReplica == [] && s.toOwner == []
  }

  lemma EmptyStream(items: seq<Item>, staged: Option<Staged>)
    requires Continues(items, staged, [])
    ensures staged.None? && items == []
  {
  }

  /** An owner with nothing left to send has the replica's committed records equal its own. */
  lemma DrainedMeansSame(s: System, steps: seq<Step>)
    requires Init(s)
    requires var t := Run(s, steps);
             Idle(t.ownerEnd, t.ownerOwes) && t.replicaEnd.up && t.toReplica == []
    ensures var t := Run(s, steps);
            && t.replica.mem.records == t.owner.mem.records
            && t.replicaEnd.link.staged.None? && t.replicaEnd.link.agreed
  {
    hide Init, Run;
    assert steps + [] == steps;
    Reached(s, steps, []);
    var t := Run(s, steps);
    hide StoresOk, UplinkOk, OutboxMoving;
    var items :| SessionOk(t, items);
    assert Downlink(t) == [];
    EmptyStream(items, t.replicaEnd.link.staged);
  }

  /**
   A session that has gone quiet has delivered everything: the outbox is empty, the records
   are the owner's, record for record and in the same order, and both sides show the same.
   */
  lemma QuiescentMeansConverged(s: System, steps: seq<Step>)
    requires Init(s)
    requires Quiescent(Run(s, steps))
    ensures var t := Run(s, steps);
            && t.replica.mem.pending == []
            && t.replica.mem.records == t.owner.mem.records
            && View(t.replica.mem) == View(t.owner.mem)
            && forall op :: op in t.accepted ==> Durable(t, op)
  {
    hide Init, Run;
    DrainedMeansSame(s, steps);
    assert steps + [] == steps;
    Reached(s, steps, []);
    var t := Run(s, steps);
    OutboxEmpty(t);
    OwnerOutboxEmpty(t);
    forall op | op in t.accepted ensures Durable(t, op) {
      CoveredIsDurable(t, op);
    }
  }

  lemma OwnerOutboxEmpty(t: System)
    requires Inv(t)
    ensures t.owner.mem.pending == []
  {
  }

  lemma OutboxEmpty(t: System)
    requires Inv(t)
    requires Quiescent(t)
    ensures t.replica.mem.pending == []
  {
    hide StoresOk, UplinkOk, InSync;
    var items :| SessionOk(t, items);
    assert Downlink(t) == [] && Uplink(t) == [];
    EmptyStream(items, t.replicaEnd.link.staged);
    if |t.replica.mem.pending| > 0 {
      OutboxHasWork(t, items);
      assert false;
    }
  }

  /** A waiting operation is noticed, on its way, or answered on its way back. */
  lemma OutboxHasWork(t: System, items: seq<Item>)
    requires OutboxMoving(t, items) && t.ownerEnd.up
    requires |t.replica.mem.pending| > 0
    ensures t.replicaEnd.link.changed || t.replicaEnd.link.dirty || t.replicaOwes
         || |Uplink(t)| > 0 || |items| > 0
  {
    var op := t.replica.mem.pending[0];
    assert op.sequence > t.replicaEnd.link.sentThrough || Unanswered(t, items, op);
  }

  // ------------------------------------------------------ the owner's history

  /** No step, not even a crash, takes anything out of the owner's history. */
  lemma OwnerOnlyAdvances(s: System, step: Step)
    requires Inv(s)
    ensures Advances(s.owner.mem.records, Next(s, step).owner.mem.records)
  {
    hide ReplicaStore, AcceptedOk, DiskOutboxOk, Authentic, UplinkOk, SessionOk, Replay, AllAccepted,
         QueueBatch, Attempt, ValidRecords, Within, ReceiveAck, ReceiveStart, ReceiveRecord, ReceiveEnd,
         ReceiveSubmit;
    var mem := s.owner.mem;
    AdvancesReflexive(mem.records);
    match step
    case OwnerCommit(submissions, durability) =>
      JoinLaws.ReplayKeepsValid(mem.records, submissions);
    case OwnerLocal(requests, metadata, durability) =>
      OwnerLocalAdvances(s, requests, metadata);
    case OwnerDeliver(durability) =>
      if s.ownerEnd.up && s.toOwner != [] && s.toOwner[0].Submit? {
        var op := s.toOwner[0].operation;
        NetworkOwnerReceives.SubmitOutcome(s.owner, s.ownerEnd.link, op, durability);
        AttemptKeepsValid(mem.records, s.ownerEnd.link.peer, op);
      } else {
        hide Advances;
      }
    case _ => hide Receive; hide Advances;
  }

  lemma OwnerLocalAdvances(s: System, requests: seq<Request>, metadata: Option<Metadata>)
    requires Inv(s)
    ensures var next := BatchStore(s.owner.mem, requests, metadata, true);
            next.Some? ==> Advances(s.owner.mem.records, next.value.records)
  {
    hide Inv, QueueBatch, ValidStore, Authentic, Advances;
    if BatchStore(s.owner.mem, requests, metadata, true).Some? {
      OwnerRecords(s);
      MetadataValid(s.owner.mem, metadata);
      OwnerBatch(s.accepted, s.replica.identity, WithMetadata(s.owner.mem, metadata), requests);
    }
  }

  lemma {:induction false} OwnerHistoryAdvances(s: System, steps: seq<Step>)
    requires Inv(s)
    ensures Advances(s.owner.mem.records, Run(s, steps).owner.mem.records)
  {
    hide Inv, Next, Advances;
    if |steps| == 0 {
      AdvancesReflexive(s.owner.mem.records);
    } else {
      var before := Run(s, steps[..|steps| - 1]);
      RunKeeps(s, steps[..|steps| - 1]);
      OwnerHistoryAdvances(s, steps[..|steps| - 1]);
      OwnerOnlyAdvances(before, steps[|steps| - 1]);
      AdvancesTransitive(s.owner.mem.records, before.owner.mem.records,
                         Run(s, steps).owner.mem.records);
    }
  }

  /** A dismissal the owner committed, by anyone, stays: no later operation revives the key. */
  lemma OwnerTombstonesStay(s: System, steps: seq<Step>, more: seq<Step>, key: Key)
    requires Init(s)
    requires Dead(Lookup(Run(s, steps).owner.mem.records, key))
    ensures Dead(Lookup(Run(s, steps + more).owner.mem.records, key))
  {
    hide Init, Run, Advances;
    assert steps + [] == steps;
    Reached(s, steps, []);
    RunConcat(s, steps, more);
    OwnerHistoryAdvances(Run(s, steps), more);
    TombstoneKept(Run(s, steps).owner.mem.records, Run(s, steps + more).owner.mem.records, key);
  }

  // ----------------------------------------------------------- stream checks

  /**
   In no run does either end see a malformed history. The replica stops only when its own
   write fails; the owner only when its history is full, its write fails or its queue overflows.
   */
  lemma NoProtocolErrors(s: System, steps: seq<Step>, durability: Durability)
    requires Init(s)
    ensures var t := Run(s, steps);
            && (t.replicaEnd.up && t.toReplica != [] ==>
                  var error := Receive(t.replica, t.replicaEnd.link, t.toReplica[0], durability).error;
                  error.None? || error.value == PersistFailed)
            && (t.ownerEnd.up && t.toOwner != [] ==>
                  var error := Receive(t.owner, t.ownerEnd.link, t.toOwner[0], durability).error;
                  error.None? || error.value in {StoreFull, PersistFailed, OutputQueueFull})
  {
    hide Init, Run, Inv, Receive;
    assert steps + [] == steps;
    Reached(s, steps, []);
    NetworkReplicaReceives.ReplicaDeliverKeeps(Run(s, steps), durability);
    NetworkOwnerReceives.OwnerDeliverKeeps(Run(s, steps), durability);
  }
}
