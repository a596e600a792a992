/** What a machine queued before its owner was chosen survives becoming the owner. */
module FirstSetup {
  import opened Types
  import opened StoreSpec
  import opened OverlayLaws
  import opened OwnerChange
  import opened NetworkInvariant
  import NetworkReplicaSteps
  import NetworkRuns

  /** A store in which nothing has been shared yet. */
  ghost predicate Untouched(store: StoreValue) {
    store.epoch == "" && store.records == [] && store.pending == []
  }

  ghost predicate OnOwnKeys(requests: seq<Request>, identity: string) {
    forall i :: 0 <= i < |requests| ==> requests[i].key.origin == identity
  }

  ghost predicate AllOwn(pending: seq<Operation>, identity: string) {
    forall i :: 0 <= i < |pending| ==> pending[i].key.origin == identity
  }

  /** Every number given out is still spoken for, and all on own keys. */
  ghost predicate Holds(blank: StoreValue, store: StoreValue, accepted: set<Operation>) {
    && ValidStore(store) && AllOwn(store.pending, store.localIdentity)
    && store == blank.(sequence := store.sequence, pending := store.pending)
    && forall op :: op in accepted ==> op.sequence <= store.sequence && PendingCovers(store.pending, op)
  }

  lemma OneMoreHolds(
    blank: StoreValue, store: StoreValue, accepted: set<Operation>, op: Operation, next: StoreValue)
    requires Holds(blank, store, accepted) && op.key.origin == store.localIdentity
    requires QueueLocal(store, op.key, op.content, false) == Ok(Queued(next, true))
    requires QueuedBy(store, op, false, next)
    ensures Holds(blank, next, accepted + {op})
  {
    hide QueueLocal, Refusal, WithoutKey, PendingCovers;
    ReplicaQueueValid(store, op, next);
    NetworkReplicaSteps.NewestCovered(next.pending, op);
    forall older | older in accepted ensures PendingCovers(next.pending, older) {
      NetworkReplicaSteps.QueueKeepsCover(store, op, next, older);
    }
    forall i | 0 <= i < |next.pending| ensures next.pending[i].key.origin == store.localIdentity {
      NetworkReplicaSteps.QueueElements(store, op, next, i);
    }
    hide ValidStore;
  }

  lemma {:induction false} BatchHolds(blank: StoreValue, requests: seq<Request>)
    requires ValidStore(blank) && Untouched(blank) && OnOwnKeys(requests, blank.localIdentity)
    requires QueueBatch(blank, requests, false).Ok?
    ensures Holds(blank, QueueBatch(blank, requests, false).value.store, BatchOperations(blank, requests, false))
  {
    hide QueueLocal, ValidStore;
    if |requests| > 0 {
      var front, last := requests[..|requests| - 1], requests[|requests| - 1];
      BatchHolds(blank, front);
      var middle := QueueBatch(blank, front, false).value.store;
      var queued := QueueLocal(middle, last.key, last.content, false).value;
      QueueCases(middle, last.key, last.content, false);
      if queued.changed {
        var op := Operation(middle.sequence + 1, last.key, last.content);
        QueuedNumber(middle, op, queued.store);
        OneMoreHolds(blank, middle, BatchOperations(blank, front, false), op, queued.store);
      } else {
        assert BatchOperations(blank, requests, false) == BatchOperations(blank, front, false);
      }
    }
  }

  lemma QueuedNumber(store: StoreValue, op: Operation, next: StoreValue)
    requires QueuedBy(store, op, false, next)
    ensures next.sequence == op.sequence
  {
    hide Refusal, WithoutKey;
  }

  /**
   However many posts and dismissals of its own a machine queued before its owner was
   chosen, it can still become the owner itself, and then its history reflects every one of
   them and its outbox is empty.
   */
  lemma FirstSetupKeepsEverything(blank: StoreValue, requests: seq<Request>, epoch: string)
    requires ValidStore(blank) && Untouched(blank) && blank.coordinator != blank.localIdentity
    requires OnOwnKeys(requests, blank.localIdentity) && QueueBatch(blank, requests, false).Ok?
    ensures var queued := QueueBatch(blank, requests, false).value.store;
            var started := StartUnder(queued, queued.localIdentity, epoch);
            && started.Ok?
            && started.value.epoch == epoch && started.value.pending == []
            && started.value.coordinator == blank.localIdentity
            && forall op :: op in BatchOperations(blank, requests, false) ==>
                 Subsumes(started.value.records, op)
  {
    BatchHolds(blank, requests);
    hide QueueBatch, BatchOperations, StartUnder, Refusal, Subsumes;
    var queued := QueueBatch(blank, requests, false).value.store;
    CorrectionRefusedExactlyWhen(queued, queued.localIdentity, epoch);
    assert forall op :: op in queued.pending ==> op.key.origin == queued.localIdentity;
    CorrectionKeepsView(queued, queued.localIdentity, epoch);
    BecomesOwner(queued, epoch);
    OutboxFits(queued);
    forall op | op in BatchOperations(blank, requests, false) ensures Subsumes(View(queued), op) {
      NetworkRuns.CoveredIsVisible(queued, [], op);
    }
  }

  lemma BecomesOwner(store: StoreValue, epoch: string)
    requires store.coordinator != store.localIdentity && StartUnder(store, store.localIdentity, epoch).Ok?
    ensures StartUnder(store, store.localIdentity, epoch).value.epoch == epoch
  {
    hide Drain, CoordinatorLocked;
  }

  lemma OutboxFits(store: StoreValue)
    requires ValidStore(store) && store.records == []
    ensures |KeySet(store.records) + PendingKeys(store.pending)| <= MAX_RECORDS
  {
    PendingKeysSize(store.pending);
    assert KeySet([]) + PendingKeys(store.pending) == PendingKeys(store.pending);
  }
}
