/**
 What the outbox overlay shows, key by key, and what queueing a local change does to it.
 */
module OverlayLaws {
  import opened Types
  import opened StoreSpec

  lemma {:induction false} OverlayKeepsValid(records: seq<Record>, sender: string, pending: seq<Operation>)
    requires ValidRecords(records)
    ensures ValidRecords(Overlay(records, sender, pending))
    ensures Advances(records, Overlay(records, sender, pending))
    ensures |Overlay(records, sender, pending)| <= |records| + |pending|
  {
    if |pending| > 0 {
      var last := |pending| - 1;
      OverlayKeepsValid(records, sender, pending[..last]);
      var before := Overlay(records, sender, pending[..last]);
      AttemptKeepsValid(before, sender, pending[last]);
      AdvancesTransitive(records, before, Attempt(before, sender, pending[last]));
    }
  }

  /** Operations on other keys leave a key's record alone. */
  lemma {:induction false} OverlayElsewhere(
    records: seq<Record>, sender: string, pending: seq<Operation>, key: Key)
    requires forall i :: 0 <= i < |pending| ==> Refusal(sender, pending[i]).None?
    requires PendingIndex(pending, key) < 0
    ensures Lookup(Overlay(records, sender, pending), key) == Lookup(records, key)
  {
    if |pending| > 0 {
      var last := |pending| - 1;
      OverlayElsewhere(records, sender, pending[..last], key);
      AttemptLookup(Overlay(records, sender, pending[..last]), sender, pending[last], key);
    }
  }

  /** The overlay shows the one pending operation on its key merged into the committed record. */
  lemma {:induction false} OverlayAt(
    records: seq<Record>, sender: string, pending: seq<Operation>, sequence: nat, i: nat)
    requires ValidOutbox(pending, sender, sequence) && i < |pending|
    ensures Lookup(Overlay(records, sender, pending), pending[i].key)
         == Merge(Lookup(records, pending[i].key), pending[i],
                  |Overlay(records, sender, pending[..i])| < MAX_RECORDS)
    decreases |pending|
  {
    hide Refusal, Lookup, Attempt, Merge;
    var last, key := |pending| - 1, pending[i].key;
    var before := Overlay(records, sender, pending[..last]);
    AttemptLookup(before, sender, pending[last], key);
    if i == last {
      OverlayElsewhere(records, sender, pending[..last], key);
    } else {
      assert pending[..last][..i] == pending[..i];
      OverlayAt(records, sender, pending[..last], sequence, i);
    }
  }

  // ------------------------------------------------------------------ capacity

  function KeySet(records: seq<Record>): set<Key> {
    set i | 0 <= i < |records| :: records[i].key
  }

  function PendingKeys(pending: seq<Operation>): set<Key> {
    set i | 0 <= i < |pending| :: pending[i].key
  }

  lemma {:induction false} KeySetSize(records: seq<Record>)
    requires UniqueKeys(records)
    ensures |KeySet(records)| == |records|
  {
    if |records| > 0 {
      var last := |records| - 1;
      KeySetSize(records[..last]);
      assert KeySet(records) == KeySet(records[..last]) + {records[last].key};
    }
  }

  lemma {:induction false} PendingKeysSize(pending: seq<Operation>)
    ensures |PendingKeys(pending)| <= |pending|
  {
    if |pending| > 0 {
      var last := |pending| - 1;
      PendingKeysSize(pending[..last]);
      assert PendingKeys(pending) == PendingKeys(pending[..last]) + {pending[last].key};
    }
  }

  lemma SubsetSize(a: set<Key>, b: set<Key>)
    requires a <= b
    ensures |a| <= |b|
  {
    assert b == a + (b - a);
  }

  lemma AttemptKeys(records: seq<Record>, sender: string, op: Operation)
    ensures KeySet(Attempt(records, sender, op)) <= KeySet(records) + {op.key}
  {
  }

  lemma {:induction false} OverlayKeys(records: seq<Record>, sender: string, pending: seq<Operation>)
    ensures KeySet(Overlay(records, sender, pending)) <= KeySet(records) + PendingKeys(pending)
  {
    hide Attempt, KeySet;
    if |pending| > 0 {
      var last := |pending| - 1;
      OverlayKeys(records, sender, pending[..last]);
      AttemptKeys(Overlay(records, sender, pending[..last]), sender, pending[last]);
      assert PendingKeys(pending[..last]) <= PendingKeys(pending);
      assert pending[last].key in PendingKeys(pending);
    }
  }

  /** Within capacity, an operation on a new key always finds room in the overlay. */
  lemma OverlayHasRoom(store: StoreValue, i: nat)
    requires ValidStore(store) && i < |store.pending|
    requires |KeySet(store.records) + PendingKeys(store.pending)| <= MAX_RECORDS
    requires Lookup(store.records, store.pending[i].key).None?
    ensures |Overlay(store.records, store.localIdentity, store.pending[..i])| < MAX_RECORDS
  {
    var sender, key := store.localIdentity, store.pending[i].key;
    var before := Overlay(store.records, sender, store.pending[..i]);
    OverlayKeepsValid(store.records, sender, store.pending[..i]);
    OverlayKeys(store.records, sender, store.pending[..i]);
    KeySetSize(before);
    var named := KeySet(store.records) + PendingKeys(store.pending);
    assert key !in KeySet(before);
    assert PendingKeys(store.pending[..i]) <= PendingKeys(store.pending);
    SubsetSize(KeySet(before), named - {key});
  }

  /** The view lacks room for the outbox operation on a key that is not committed yet. */
  ghost predicate Crowded(store: StoreValue, key: Key) {
    var i := PendingIndex(store.pending, key);
    && i >= 0
    && Lookup(store.records, key).None?
    && |Overlay(store.records, store.localIdentity, store.pending[..i])| >= MAX_RECORDS
  }

  lemma RecordOfIsMerge(store: StoreValue, key: Key)
    requires ValidStore(store) && PendingIndex(store.pending, key) >= 0
    ensures RecordOf(store, key)
         == Merge(Lookup(store.records, key), store.pending[PendingIndex(store.pending, key)], true)
  {
  }

  /** The single-key lookup agrees with the full view exactly when the view is not crowded there. */
  lemma RecordMatchesView(store: StoreValue, key: Key)
    requires ValidStore(store)
    ensures RecordOf(store, key) == Lookup(View(store), key) <==> !Crowded(store, key)
  {
    hide PendingIndex, Lookup, Overlay, Refusal, Attempt;
    var i := PendingIndex(store.pending, key);
    if i < 0 {
      forall j | 0 <= j < |store.pending| ensures Refusal(store.localIdentity, store.pending[j]).None? {
        assert OwnOperation(store.pending[j], store.localIdentity, store.sequence);
      }
      OverlayElsewhere(store.records, store.localIdentity, store.pending, key);
    } else {
      OverlayAt(store.records, store.localIdentity, store.pending, store.sequence, i);
      RecordOfIsMerge(store, key);
    }
  }

  lemma WithinCapacityNotCrowded(store: StoreValue, key: Key)
    requires ValidStore(store)
    requires |KeySet(store.records) + PendingKeys(store.pending)| <= MAX_RECORDS
    ensures !Crowded(store, key)
  {
    var i := PendingIndex(store.pending, key);
    if i >= 0 && Lookup(store.records, key).None? {
      OverlayHasRoom(store, i);
    }
  }

  // ------------------------------------------------------------- the outbox rule

  lemma PendingIndexUnique(pending: seq<Operation>, sender: string, sequence: nat, op: Operation)
    requires ValidOutbox(pending, sender, sequence) && op in pending
    ensures PendingIndex(pending, op.key) >= 0 && pending[PendingIndex(pending, op.key)] == op
  {
  }

  function Removed(pending: seq<Operation>, i: nat): seq<Operation>
    requires i < |pending|
  {
    pending[..i] + pending[i + 1..]
  }

  lemma {:induction false} RetainAll(pending: seq<Operation>, keep: Operation -> bool)
    requires forall j :: 0 <= j < |pending| ==> keep(pending[j])
    ensures Retain(pending, keep) == pending
  {
    if |pending| > 0 {
      RetainAll(pending[1..], keep);
    }
  }

  /** Retaining all but one operation cuts it out and keeps the order of the rest. */
  lemma {:induction false} RetainAllButOne(pending: seq<Operation>, keep: Operation -> bool, i: nat)
    requires i < |pending| && !keep(pending[i])
    requires forall j :: 0 <= j < |pending| && j != i ==> keep(pending[j])
    ensures Retain(pending, keep) == Removed(pending, i)
  {
    if i == 0 {
      RetainAll(pending[1..], keep);
    } else {
      RetainAllButOne(pending[1..], keep, i - 1);
      assert Removed(pending, i) == [pending[0]] + Removed(pending[1..], i - 1);
    }
  }

  lemma OthersDiffer(pending: seq<Operation>, sender: string, sequence: nat, i: nat)
    requires ValidOutbox(pending, sender, sequence) && i < |pending|
    ensures forall j :: 0 <= j < |pending| && j != i ==>
              pending[j].key != pending[i].key && pending[j].sequence != pending[i].sequence
  {
    hide OwnOperation;
  }

  lemma RemovedKeepsOutbox(pending: seq<Operation>, sender: string, sequence: nat, i: nat)
    requires ValidOutbox(pending, sender, sequence) && i < |pending|
    ensures ValidOutbox(Removed(pending, i), sender, sequence)
  {
    hide OwnOperation;
  }

  lemma WithoutKeyIs(pending: seq<Operation>, sender: string, sequence: nat, key: Key)
    requires ValidOutbox(pending, sender, sequence)
    ensures var i := PendingIndex(pending, key);
            WithoutKey(pending, key) == if i < 0 then pending else Removed(pending, i)
    ensures ValidOutbox(WithoutKey(pending, key), sender, sequence)
  {
    hide OwnOperation, ValidOutbox, Removed;
    var i := PendingIndex(pending, key);
    var keep := (op: Operation) => op.key != key;
    if i < 0 {
      RetainAll(pending, keep);
    } else {
      OthersDiffer(pending, sender, sequence, i);
      RetainAllButOne(pending, keep, i);
      RemovedKeepsOutbox(pending, sender, sequence, i);
    }
  }

  lemma WithoutSequenceIs(pending: seq<Operation>, sender: string, sequence: nat, i: nat)
    requires ValidOutbox(pending, sender, sequence) && i < |pending|
    ensures WithoutSequence(pending, pending[i].sequence) == Removed(pending, i)
    ensures ValidOutbox(WithoutSequence(pending, pending[i].sequence), sender, sequence)
  {
    hide OwnOperation, ValidOutbox, Removed;
    OthersDiffer(pending, sender, sequence, i);
    RetainAllButOne(pending, (op: Operation) => op.sequence != pending[i].sequence, i);
    RemovedKeepsOutbox(pending, sender, sequence, i);
  }

  /** What an accepted request leaves in the store. */
  ghost predicate QueuedBy(
    store: StoreValue, op: Operation, coordinator: bool, next: StoreValue)
  {
    && op.sequence == store.sequence + 1
    && Refusal(store.localIdentity, op).None?
    && if coordinator then
         && Apply(store.records, store.localIdentity, op).Ok?
         && next == store.(sequence := op.sequence,
                           records := Attempt(store.records, store.localIdentity, op))
       else
         var rest := WithoutKey(store.pending, op.key);
         && |rest| < MAX_PENDING
         && |store.records| + |rest| < MAX_RECORDS
         && next == store.(sequence := op.sequence, pending := rest + [op])
  }

  lemma QueueCases(store: StoreValue, key: Key, content: Option<Content>, coordinator: bool)
    requires QueueLocal(store, key, content, coordinator).Ok?
    ensures var queued := QueueLocal(store, key, content, coordinator).value;
            var current := Lookup(View(store), key);
            if queued.changed then
              && QueuedBy(store, Operation(store.sequence + 1, key, content), coordinator, queued.store)
              && !(current.Some? && (current.value.content.None? || current.value.content == content))
            else
              && queued.store == store
              && current.Some? && (current.value.content.None? || current.value.content == content)
  {
    hide View, Lookup, ValidOrigin, ValidInstance, ValidContent;
  }

  lemma {:induction false} RetainKeeps(pending: seq<Operation>, keep: Operation -> bool)
    ensures forall i :: 0 <= i < |Retain(pending, keep)| ==> keep(Retain(pending, keep)[i])
  {
    if |pending| > 0 {
      RetainKeeps(pending[1..], keep);
    }
  }

  lemma WithoutKeyFree(pending: seq<Operation>, key: Key)
    ensures forall i :: 0 <= i < |WithoutKey(pending, key)| ==> WithoutKey(pending, key)[i].key != key
    ensures PendingIndex(WithoutKey(pending, key), key) < 0
  {
    RetainKeeps(pending, (op: Operation) => op.key != key);
  }

  lemma AddedKeepsOutbox(rest: seq<Operation>, op: Operation, sender: string, sequence: nat)
    requires ValidOutbox(rest, sender, sequence) && |rest| < MAX_PENDING
    requires Refusal(sender, op).None? && op.sequence == sequence + 1
    requires forall i :: 0 <= i < |rest| ==> rest[i].key != op.key
    ensures ValidOutbox(rest + [op], sender, op.sequence)
  {
  }

  lemma ReplicaQueueValid(store: StoreValue, op: Operation, next: StoreValue)
    requires ValidStore(store)
    requires QueuedBy(store, op, false, next)
    ensures ValidStore(next)
    ensures next.pending == WithoutKey(store.pending, op.key) + [op]
    ensures PendingIndex(WithoutKey(store.pending, op.key), op.key) < 0
  {
    hide Refusal, Apply, Lookup, View, ValidRecords, ValidOutbox, WithoutKey, PendingIndex, Removed;
    WithoutKeyIs(store.pending, store.localIdentity, store.sequence, op.key);
    WithoutKeyFree(store.pending, op.key);
    AddedKeepsOutbox(WithoutKey(store.pending, op.key), op, store.localIdentity, store.sequence);
  }

  /** A queued change keeps the store valid. */
  lemma QueueKeepsValid(store: StoreValue, key: Key, content: Option<Content>, coordinator: bool)
    requires ValidStore(store)
    requires QueueLocal(store, key, content, coordinator).Ok?
    ensures ValidStore(QueueLocal(store, key, content, coordinator).value.store)
  {
    hide QueueLocal, Refusal, Lookup, View;
    QueueCases(store, key, content, coordinator);
    var queued := QueueLocal(store, key, content, coordinator).value;
    if queued.changed {
      var op := Operation(store.sequence + 1, key, content);
      if coordinator {
        AttemptKeepsValid(store.records, store.localIdentity, op);
      } else {
        ReplicaQueueValid(store, op, queued.store);
      }
    }
  }

  /**
   Queueing a change shows exactly the requested content under its key, changes no other
   key of the view, and consumes one sequence number; a redundant request leaves the whole
   store alone, and is one whose key is dismissed or already shows that content.
   */
  lemma QueueShowsRequest(
    store: StoreValue, key: Key, content: Option<Content>, coordinator: bool, other: Key)
    requires ValidStore(store) && CounterAhead(store)
    requires coordinator ==> store.pending == []
    requires QueueLocal(store, key, content, coordinator).Ok?
    ensures var queued := QueueLocal(store, key, content, coordinator).value;
            var before, after := View(store), View(queued.store);
            && (queued.changed ==>
                  && queued.store.sequence == store.sequence + 1
                  && Lookup(after, key).Some? && Lookup(after, key).value.content == content
                  && (other != key ==> Lookup(after, other) == Lookup(before, other)))
            && (!queued.changed ==>
                  && queued.store == store
                  && Lookup(before, key).Some?
                  && (Dead(Lookup(before, key)) || Lookup(before, key).value.content == content))
            && ValidStore(queued.store)
            && CounterAhead(queued.store)
  {
    hide QueueLocal;
    QueueKeepsValid(store, key, content, coordinator);
    QueueCases(store, key, content, coordinator);
    var queued := QueueLocal(store, key, content, coordinator).value;
    if queued.changed {
      var op := Operation(store.sequence + 1, key, content);
      if coordinator {
        CoordinatorQueueShows(store, op, queued.store, other);
      } else {
        ReplicaQueueShows(store, op, queued.store, other);
      }
    }
  }

  lemma NewerThanOwn(store: StoreValue, op: Operation)
    requires CounterAhead(store) && op.sequence == store.sequence + 1
    requires Refusal(store.localIdentity, op).None?
    ensures var current := Lookup(store.records, op.key);
            op.content.Some? && Live(current) ==> current.value.sourceSequence < op.sequence
  {
    hide ValidOrigin, ValidInstance, ValidContent;
  }

  lemma CoordinatorQueueShows(store: StoreValue, op: Operation, next: StoreValue, other: Key)
    requires ValidStore(store) && CounterAhead(store) && store.pending == []
    requires QueuedBy(store, op, true, next)
    requires var current := Lookup(View(store), op.key);
             !(current.Some? && (current.value.content.None? || current.value.content == op.content))
    ensures View(store) == store.records && View(next) == next.records
    ensures Lookup(next.records, op.key).Some? && Lookup(next.records, op.key).value.content == op.content
    ensures other != op.key ==> Lookup(next.records, other) == Lookup(store.records, other)
    ensures CounterAhead(next)
  {
    hide Refusal, ValidRecord;
    AttemptLookup(store.records, store.localIdentity, op, op.key);
    AttemptLookup(store.records, store.localIdentity, op, other);
    NewerThanOwn(store, op);
  }

  lemma ReplicaQueueShows(store: StoreValue, op: Operation, next: StoreValue, other: Key)
    requires ValidStore(store) && CounterAhead(store)
    requires QueuedBy(store, op, false, next)
    requires var current := Lookup(View(store), op.key);
             !(current.Some? && (current.value.content.None? || current.value.content == op.content))
    ensures Lookup(View(next), op.key).Some? && Lookup(View(next), op.key).value.content == op.content
    ensures other != op.key ==> Lookup(View(next), other) == Lookup(View(store), other)
    ensures CounterAhead(next)
  {
    hide Refusal, ValidRecord, Lookup, Attempt, Overlay, QueuedBy;
    ReplicaQueueRoom(store, op, next);
    ReplicaQueueShowsKey(store, op, next);
    if other != op.key {
      ReplicaQueueKeepsOther(store, op, next, other);
    }
  }

  /** An accepted request leaves room for every pending operation in the overlay. */
  lemma ReplicaQueueRoom(store: StoreValue, op: Operation, next: StoreValue)
    requires ValidStore(store)
    requires QueuedBy(store, op, false, next)
    ensures next.records == store.records && next.localIdentity == store.localIdentity
    ensures next.sequence == store.sequence + 1
    ensures forall i :: 0 <= i < |next.pending| ==>
      |Overlay(store.records, store.localIdentity, next.pending[..i])| < MAX_RECORDS
    ensures forall i :: 0 <= i < |store.pending| ==>
      |Overlay(store.records, store.localIdentity, store.pending[..i])| < MAX_RECORDS
  {
    hide Refusal, Lookup, Attempt, Overlay;
    ReplicaQueueValid(store, op, next);
    WithoutKeyIs(store.pending, store.localIdentity, store.sequence, op.key);
    forall i | 0 <= i < |next.pending|
      ensures |Overlay(store.records, store.localIdentity, next.pending[..i])| < MAX_RECORDS
    {
      OverlayKeepsValid(store.records, store.localIdentity, next.pending[..i]);
    }
    forall i | 0 <= i < |store.pending|
      ensures |Overlay(store.records, store.localIdentity, store.pending[..i])| < MAX_RECORDS
    {
      OverlayKeepsValid(store.records, store.localIdentity, store.pending[..i]);
    }
  }

  lemma ReplicaQueueShowsKey(store: StoreValue, op: Operation, next: StoreValue)
    requires ValidStore(store) && CounterAhead(store)
    requires QueuedBy(store, op, false, next)
    requires var current := Lookup(View(store), op.key);
             !(current.Some? && (current.value.content.None? || current.value.content == op.content))
    ensures Lookup(View(next), op.key).Some? && Lookup(View(next), op.key).value.content == op.content
  {
    hide Refusal, Attempt, Overlay;
    ReplicaQueueValid(store, op, next);
    ReplicaQueueRoom(store, op, next);
    NewerThanOwn(store, op);
    var last := |next.pending| - 1;
    assert next.pending[last] == op;
    OverlayAt(store.records, store.localIdentity, next.pending, next.sequence, last);
    var i := PendingIndex(store.pending, op.key);
    if i >= 0 {
      OverlayAt(store.records, store.localIdentity, store.pending, store.sequence, i);
    } else {
      OverlayElsewhere(store.records, store.localIdentity, store.pending, op.key);
    }
  }

  /** Outboxes that agree on a key show the same record under it, given room. */
  lemma ReplicaQueueKeepsOther(store: StoreValue, op: Operation, next: StoreValue, other: Key)
    requires ValidStore(store)
    requires QueuedBy(store, op, false, next)
    requires other != op.key
    ensures Lookup(View(next), other) == Lookup(View(store), other)
  {
    hide Refusal, Attempt, Overlay, Lookup;
    ReplicaQueueValid(store, op, next);
    ReplicaQueueRoom(store, op, next);
    var i, j := PendingIndex(store.pending, other), PendingIndex(next.pending, other);
    RetainedElsewhere(store.pending, op.key, other);
    AppendedElsewhere(WithoutKey(store.pending, op.key), op, other);
    if i < 0 {
      OverlayElsewhere(store.records, store.localIdentity, store.pending, other);
      OverlayElsewhere(store.records, store.localIdentity, next.pending, other);
    } else {
      OverlayAt(store.records, store.localIdentity, store.pending, store.sequence, i);
      OverlayAt(store.records, store.localIdentity, next.pending, next.sequence, j);
    }
  }

  function PendingOn(pending: seq<Operation>, key: Key): Option<Operation> {
    var i := PendingIndex(pending, key);
    if i < 0 then None else Some(pending[i])
  }

  lemma {:induction false} RetainedElsewhere(pending: seq<Operation>, key: Key, other: Key)
    requires other != key
    ensures PendingOn(WithoutKey(pending, key), other) == PendingOn(pending, other)
  {
    if |pending| > 0 {
      RetainedElsewhere(pending[1..], key, other);
      if pending[0].key != key {
        assert WithoutKey(pending, key) == [pending[0]] + WithoutKey(pending[1..], key);
      } else {
        assert WithoutKey(pending, key) == WithoutKey(pending[1..], key);
      }
    }
  }

  lemma {:induction false} AppendedElsewhere(pending: seq<Operation>, op: Operation, other: Key)
    requires other != op.key
    ensures PendingOn(pending + [op], other) == PendingOn(pending, other)
  {
    if |pending| > 0 {
      AppendedElsewhere(pending[1..], op, other);
      assert (pending + [op])[1..] == pending[1..] + [op];
    } else {
      assert pending + [op] == [op];
    }
  }

  /** A removal waiting in the outbox is never replaced by new content. */
  lemma RemovalNeverReplaced(store: StoreValue, removal: Operation, content: Content)
    requires ValidStore(store)
    requires removal in store.pending && removal.content.None?
    ensures var queued := QueueLocal(store, removal.key, Some(content), false);
            queued.Err? || !queued.value.changed
  {
    hide Refusal, QueueLocal, OwnOperation, Attempt, Overlay;
    var i := PendingIndex(store.pending, removal.key);
    PendingIndexUnique(store.pending, store.localIdentity, store.sequence, removal);
    OverlayAt(store.records, store.localIdentity, store.pending, store.sequence, i);
    OverlayKeepsValid(store.records, store.localIdentity, store.pending[..i]);
    WithoutKeyIs(store.pending, store.localIdentity, store.sequence, removal.key);
    var queued := QueueLocal(store, removal.key, Some(content), false);
    if queued.Ok? {
      QueueCases(store, removal.key, Some(content), false);
    }
  }

  // ------------------------------------------------------- what is accepted, and why not

  /** A change the view does not show yet. */
  predicate IsNews(store: StoreValue, key: Key, content: Option<Content>) {
    var current := Lookup(View(store), key);
    !(current.Some? && (current.value.content.None? || current.value.content == content))
  }

  /** Room for one more operation: for an owner in the records, otherwise in the outbox. */
  predicate RoomFor(store: StoreValue, key: Key, coordinator: bool) {
    if coordinator then Lookup(store.records, key).Some? || |store.records| < MAX_RECORDS
    else
      var rest := WithoutKey(store.pending, key);
      |rest| < MAX_PENDING && |store.records| + |rest| < MAX_RECORDS
  }

  /** A removal of any key, or valid content under the machine's own name. */
  predicate MayQueue(store: StoreValue, key: Key, content: Option<Content>) {
    ValidKey(key) && (content.Some? ==> ValidContent(content.value) && key.origin == store.localIdentity)
  }

  /** The first thing that is wrong with a change. */
  function WhyRefused(store: StoreValue, key: Key, content: Option<Content>, coordinator: bool): Error {
    if store.sequence >= MAX_U64 then SequenceExhausted
    else if !ValidOrigin(key.origin) then InvalidOrigin
    else if !ValidInstance(key.instance) then InvalidInstance
    else if content.Some? && !ValidContent(content.value) then InvalidContent
    else if content.Some? && key.origin != store.localIdentity then InvalidLocalOrigin
    else if coordinator then StoreFull
    else OutboxFull
  }

  /**
   A post, an update or a dismissal is never refused without need. What the view shows
   already is accepted without a trace; anything else is accepted, under the next number,
   exactly when the counter, the key, the content, the name and the room allow it.
   */
  lemma ChangeAcceptedExactlyWhen(store: StoreValue, key: Key, content: Option<Content>, coordinator: bool)
    ensures var r := QueueLocal(store, key, content, coordinator);
            if !IsNews(store, key, content) then r == Ok(Queued(store, false))
            else
              && (r.Ok? <==> store.sequence < MAX_U64 && MayQueue(store, key, content)
                             && RoomFor(store, key, coordinator))
              && (r.Ok? ==> r.value.changed && r.value.store.sequence == store.sequence + 1)
              && (r.Err? ==> r.error == WhyRefused(store, key, content, coordinator))
  {
    hide Overlay, WithoutKey, ValidOrigin, ValidInstance, ValidContent;
  }

  /** The first thing that is wrong with an operation that reached the records. */
  function WhyNotApplied(sender: string, op: Operation): Error {
    if !ValidOrigin(op.key.origin) then InvalidOrigin
    else if !ValidInstance(op.key.instance) then InvalidInstance
    else if op.sequence == 0 then ZeroSequence
    else if op.content.Some? && op.key.origin != sender then Impersonation
    else if op.content.Some? && !ValidContent(op.content.value) then InvalidContent
    else StoreFull
  }

  /**
   An operation from a peer is accepted exactly when it is valid, shows content only under
   the peer's own name, and is on a known key or finds room for a new one: anyone may dismiss.
   */
  lemma AppliedExactlyWhen(records: seq<Record>, sender: string, op: Operation)
    ensures var r := Apply(records, sender, op);
            && (r.Ok? <==>
                  && ValidKey(op.key) && op.sequence > 0
                  && (op.content.Some? ==> op.key.origin == sender && ValidContent(op.content.value))
                  && (Lookup(records, op.key).Some? || |records| < MAX_RECORDS))
            && (r.Err? ==> r.error == WhyNotApplied(sender, op))
  {
    hide ValidOrigin, ValidInstance, ValidContent;
  }
}
