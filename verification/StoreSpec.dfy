/**
 The durable notification store as a value: what applying an operation, queueing
 a local one and overlaying the outbox mean, and the laws the protocol relies on.
 */
module StoreSpec {
  import opened Types

  datatype PhoneInstance = PhoneInstance(instance: string, present: bool)

  datatype StoreValue = StoreValue(
    coordinator: string,
    epoch: string,
    localIdentity: string,
    sequence: nat,
    records: seq<Record>,
    pending: seq<Operation>,
    phoneInstances: map<string, PhoneInstance>,
    importedPhones: map<string, string>)

  /** The position of the first element that satisfies a predicate, or -1. */
  function FirstIndex<T>(elements: seq<T>, wanted: T -> bool): (i: int)
    ensures -1 <= i < |elements|
    ensures i >= 0 ==> wanted(elements[i])
    ensures forall j :: 0 <= j < (if i < 0 then |elements| else i) ==> !wanted(elements[j])
  {
    if |elements| == 0 then -1
    else if wanted(elements[0]) then 0
    else
      var rest := FirstIndex(elements[1..], wanted);
      if rest < 0 then -1 else rest + 1
  }

  function IndexOf(records: seq<Record>, key: Key): (i: int)
    ensures -1 <= i < |records|
    ensures i >= 0 ==> records[i].key == key
    ensures forall j :: 0 <= j < (if i < 0 then |records| else i) ==> records[j].key != key
  {
    var wanted := (record: Record) => record.key == key;
    var i := FirstIndex(records, wanted);
    assert forall j :: 0 <= j < (if i < 0 then |records| else i) ==> !wanted(records[j]);
    i
  }

  function Lookup(records: seq<Record>, key: Key): Option<Record> {
    var i := IndexOf(records, key);
    if i < 0 then None else Some(records[i])
  }

  predicate Live(record: Option<Record>) {
    record.Some? && record.value.content.Some?
  }

  predicate Dead(record: Option<Record>) {
    record.Some? && record.value.content.None?
  }

  /** Why the hub refuses an operation from this sender before looking at its records. */
  function Refusal(sender: string, op: Operation): Option<Error> {
    if !ValidOrigin(op.key.origin) then Some(InvalidOrigin)
    else if !ValidInstance(op.key.instance) then Some(InvalidInstance)
    else if op.sequence == 0 then Some(ZeroSequence)
    else if op.content.Some? && op.key.origin != sender then Some(Impersonation)
    else if op.content.Some? && !ValidContent(op.content.value) then Some(InvalidContent)
    else None
  }

  datatype Applied = Applied(records: seq<Record>, changed: bool)

  function Apply(records: seq<Record>, sender: string, op: Operation): Result<Applied> {
    if Refusal(sender, op).Some? then Err(Refusal(sender, op).value)
    else
      var i := IndexOf(records, op.key);
      if i >= 0 then
        var record := records[i];
        if record.content.None? then Ok(Applied(records, false))
        else if op.content.None? then Ok(Applied(records[i := record.(content := None)], true))
        else if op.sequence > record.sourceSequence then
          Ok(Applied(records[i := Record(op.key, op.sequence, op.content)], true))
        else Ok(Applied(records, false))
      else if |records| < MAX_RECORDS then
        Ok(Applied(records + [Record(op.key, op.sequence, op.content)], true))
      else Err(StoreFull)
  }

  /** The records after an attempt to apply, which leaves them alone when it fails. */
  function Attempt(records: seq<Record>, sender: string, op: Operation): seq<Record> {
    var applied := Apply(records, sender, op);
    if applied.Ok? then applied.value.records else records
  }

  /** An operation together with the authenticated peer that sent it. */
  datatype Submission = Submission(sender: string, operation: Operation)

  /** The records after attempting a list of submissions in order. */
  function Replay(records: seq<Record>, submissions: seq<Submission>): seq<Record> {
    if |submissions| == 0 then records
    else
      var last := |submissions| - 1;
      Attempt(Replay(records, submissions[..last]),
              submissions[last].sender, submissions[last].operation)
  }

  /** The records a user sees: the outbox replayed over the committed ones, errors ignored. */
  function Overlay(records: seq<Record>, sender: string, pending: seq<Operation>): seq<Record> {
    if |pending| == 0 then records
    else
      var last := |pending| - 1;
      Attempt(Overlay(records, sender, pending[..last]), sender, pending[last])
  }

  function View(store: StoreValue): seq<Record> {
    Overlay(store.records, store.localIdentity, store.pending)
  }

  function Retain(pending: seq<Operation>, keep: Operation -> bool): seq<Operation> {
    if |pending| == 0 then []
    else if keep(pending[0]) then [pending[0]] + Retain(pending[1..], keep)
    else Retain(pending[1..], keep)
  }

  function WithoutKey(pending: seq<Operation>, key: Key): seq<Operation> {
    Retain(pending, (op: Operation) => op.key != key)
  }

  function WithoutSequence(pending: seq<Operation>, sequence: nat): seq<Operation> {
    Retain(pending, (op: Operation) => op.sequence != sequence)
  }

  datatype Queued = Queued(store: StoreValue, changed: bool)

  /** Accepts a local change: directly into a coordinator's records, else into the outbox. */
  function QueueLocal(
    store: StoreValue, key: Key, content: Option<Content>, coordinator: bool): Result<Queued>
  {
    var current := Lookup(View(store), key);
    if current.Some? && (current.value.content.None? || current.value.content == content) then
      Ok(Queued(store, false))
    else if store.sequence >= MAX_U64 then Err(SequenceExhausted)
    else
      var op := Operation(store.sequence + 1, key, content);
      if !ValidOrigin(key.origin) then Err(InvalidOrigin)
      else if !ValidInstance(key.instance) then Err(InvalidInstance)
      else if content.Some? && !ValidContent(content.value) then Err(InvalidContent)
      else if content.Some? && key.origin != store.localIdentity then Err(InvalidLocalOrigin)
      else if coordinator then
        var applied := Apply(store.records, store.localIdentity, op);
        if applied.Err? then Err(applied.error)
        else Ok(Queued(store.(sequence := op.sequence, records := applied.value.records), true))
      else
        var rest := WithoutKey(store.pending, key);
        if |rest| < MAX_PENDING && |store.records| + |rest| < MAX_RECORDS then
          Ok(Queued(store.(sequence := op.sequence, pending := rest + [op]), true))
        else Err(OutboxFull)
  }

  /** One change a machine makes to its own history. */
  datatype Request = Request(key: Key, content: Option<Content>)

  /** Accepts changes in order, for one write; the first refusal stops them all. */
  function QueueBatch(store: StoreValue, requests: seq<Request>, coordinator: bool): Result<Queued> {
    if |requests| == 0 then Ok(Queued(store, false))
    else
      var last := |requests| - 1;
      var before := QueueBatch(store, requests[..last], coordinator);
      if before.Err? then before
      else
        var queued := QueueLocal(before.value.store, requests[last].key, requests[last].content, coordinator);
        if queued.Err? then queued
        else Ok(Queued(queued.value.store, before.value.changed || queued.value.changed))
  }

  /** A batch touches the counter, the records and the outbox only. */
  lemma {:induction false} BatchFrame(store: StoreValue, requests: seq<Request>, coordinator: bool)
    requires QueueBatch(store, requests, coordinator).Ok?
    ensures var next := QueueBatch(store, requests, coordinator).value.store;
            next == store.(sequence := next.sequence, records := next.records, pending := next.pending)
  {
    hide Lookup, View, Apply, WithoutKey, ValidOrigin, ValidInstance, ValidContent;
    if |requests| > 0 {
      BatchFrame(store, requests[..|requests| - 1], coordinator);
    }
  }

  /** The operations a batch gives sequence numbers to. */
  function BatchOperations(store: StoreValue, requests: seq<Request>, coordinator: bool): set<Operation> {
    if |requests| == 0 then {}
    else
      var last := |requests| - 1;
      var before := QueueBatch(store, requests[..last], coordinator);
      if before.Err? then {}
      else
        var queued := QueueLocal(before.value.store, requests[last].key, requests[last].content, coordinator);
        BatchOperations(store, requests[..last], coordinator)
          + if queued.Ok? && queued.value.changed
            then {Operation(queued.value.store.sequence, requests[last].key, requests[last].content)} else {}
  }

  /** What a machine keeps about its phones beside the history. */
  datatype Metadata = Metadata(phones: map<string, PhoneInstance>, imported: map<string, string>)

  function WithMetadata(store: StoreValue, metadata: Option<Metadata>): StoreValue {
    if metadata.None? then store
    else store.(phoneInstances := metadata.value.phones, importedPhones := metadata.value.imported)
  }

  /** A batch together with phone metadata; nothing to write when neither changes anything. */
  function BatchStore(
    store: StoreValue, requests: seq<Request>, metadata: Option<Metadata>, coordinator: bool): Option<StoreValue>
  {
    var queued := QueueBatch(WithMetadata(store, metadata), requests, coordinator);
    if queued.Err? || (metadata.None? && !queued.value.changed) then None else Some(queued.value.store)
  }

  /** The fast single-key view. */
  function RecordOf(store: StoreValue, key: Key): Option<Record> {
    var current := Lookup(store.records, key);
    var i := PendingIndex(store.pending, key);
    if i < 0 then current
    else
      var seed := if current.Some? then [current.value] else [];
      var overlaid := Attempt(seed, store.localIdentity, store.pending[i]);
      if |overlaid| == 0 then None else Some(overlaid[|overlaid| - 1])
  }

  /** The position of the first pending operation on a key, or -1. */
  function PendingIndex(pending: seq<Operation>, key: Key): (i: int)
    ensures -1 <= i < |pending|
    ensures i >= 0 ==> pending[i].key == key
    ensures forall j :: 0 <= j < (if i < 0 then |pending| else i) ==> pending[j].key != key
  {
    var wanted := (op: Operation) => op.key == key;
    var i := FirstIndex(pending, wanted);
    assert forall j :: 0 <= j < (if i < 0 then |pending| else i) ==> !wanted(pending[j]);
    i
  }

  predicate CoordinatorLocked(store: StoreValue) {
    || store.epoch != ""
    || store.records != []
    || exists i :: 0 <= i < |store.pending| && store.pending[i].key.origin != store.localIdentity
  }

  // ---------------------------------------------------------------- invariants

  ghost predicate UniqueKeys(records: seq<Record>) {
    forall i, j :: 0 <= i < j < |records| ==> records[i].key != records[j].key
  }

  ghost predicate ValidRecord(record: Record) {
    && ValidKey(record.key)
    && record.sourceSequence > 0
    && (record.content.Some? ==> ValidContent(record.content.value))
  }

  ghost predicate ValidRecords(records: seq<Record>) {
    && |records| <= MAX_RECORDS
    && UniqueKeys(records)
    && forall i :: 0 <= i < |records| ==> ValidRecord(records[i])
  }

  ghost predicate OwnOperation(op: Operation, sender: string, sequence: nat) {
    Refusal(sender, op).None? && op.sequence <= sequence
  }

  /** An outbox: one valid own operation per key, in strictly increasing sequence order. */
  ghost predicate ValidOutbox(pending: seq<Operation>, sender: string, sequence: nat) {
    && |pending| <= MAX_PENDING
    && (forall i :: 0 <= i < |pending| ==> OwnOperation(pending[i], sender, sequence))
    && (forall i, j :: 0 <= i < j < |pending| ==>
          pending[i].key != pending[j].key && pending[i].sequence < pending[j].sequence)
  }

  ghost predicate ValidStore(store: StoreValue) {
    && ValidRecords(store.records)
    && ValidOutbox(store.pending, store.localIdentity, store.sequence)
  }

  /** Live records of the store's own origin never run ahead of its counter. */
  ghost predicate CounterAhead(store: StoreValue) {
    forall i :: 0 <= i < |store.records| ==>
      store.records[i].key.origin == store.localIdentity && store.records[i].content.Some? ==>
        store.records[i].sourceSequence <= store.sequence
  }

  /** The records already reflect the operation: applying it again changes nothing. */
  ghost predicate Subsumes(records: seq<Record>, op: Operation) {
    var record := Lookup(records, op.key);
    && record.Some?
    && (record.value.content.None?
        || (op.content.Some? && record.value.sourceSequence >= op.sequence))
  }

  /** `b` is a later history than `a`: same keys in place, no revival, no older content. */
  ghost predicate Advances(a: seq<Record>, b: seq<Record>) {
    && |a| <= |b|
    && forall i :: 0 <= i < |a| ==>
         && a[i].key == b[i].key
         && (a[i].content.None? ==> b[i].content.None?)
         && (b[i].content.Some? ==> a[i].sourceSequence <= b[i].sourceSequence)
  }

  // --------------------------------------------------------- lookups and apply

  /** What one operation does to the record of its own key. */
  function Merge(current: Option<Record>, op: Operation, room: bool): Option<Record> {
    if current.None? then
      if room then Some(Record(op.key, op.sequence, op.content)) else None
    else if current.value.content.None? then current
    else if op.content.None? then Some(current.value.(content := None))
    else if op.sequence > current.value.sourceSequence then
      Some(Record(op.key, op.sequence, op.content))
    else current
  }

  /** Apply changes the record of the operation's key as Merge says and no other record. */
  lemma AttemptLookup(records: seq<Record>, sender: string, op: Operation, key: Key)
    requires Refusal(sender, op).None?
    ensures Lookup(Attempt(records, sender, op), key)
         == if key == op.key then Merge(Lookup(records, key), op, |records| < MAX_RECORDS)
            else Lookup(records, key)
  {
    var after := Attempt(records, sender, op);
    var i, j := IndexOf(records, key), IndexOf(after, key);
    if i >= 0 {
      assert after[i].key == key;
      assert j == i;
    } else if key == op.key && |records| < MAX_RECORDS {
      assert after[|records|].key == key;
      assert j == |records|;
    } else {
      assert forall k :: 0 <= k < |after| ==> after[k].key != key;
      assert j < 0;
    }
  }

  lemma AttemptKeepsValid(records: seq<Record>, sender: string, op: Operation)
    requires ValidRecords(records)
    ensures ValidRecords(Attempt(records, sender, op))
    ensures Advances(records, Attempt(records, sender, op))
  {
    var i := IndexOf(records, op.key);
    var after := Attempt(records, sender, op);
    forall a, b | 0 <= a < b < |after| ensures after[a].key != after[b].key {
      if b < |records| { assert records[a].key != records[b].key; }
    }
  }

  lemma ApplySubsumes(records: seq<Record>, sender: string, op: Operation)
    requires Apply(records, sender, op).Ok?
    ensures Subsumes(Apply(records, sender, op).value.records, op)
  {
    AttemptLookup(records, sender, op, op.key);
  }

  /** An operation the records already reflect is accepted and changes nothing, and conversely. */
  lemma SubsumedIffUnchanged(records: seq<Record>, sender: string, op: Operation)
    requires Refusal(sender, op).None?
    ensures Subsumes(records, op) <==> Apply(records, sender, op) == Ok(Applied(records, false))
  {
  }

  lemma AdvancesSubsumes(a: seq<Record>, b: seq<Record>, op: Operation)
    requires Advances(a, b) && Subsumes(a, op)
    ensures Subsumes(b, op)
  {
  }

  lemma AdvancesTransitive(a: seq<Record>, b: seq<Record>, c: seq<Record>)
    requires Advances(a, b) && Advances(b, c)
    ensures Advances(a, c)
  {
  }

  lemma TombstoneKept(a: seq<Record>, b: seq<Record>, key: Key)
    requires Advances(a, b) && Dead(Lookup(a, key))
    ensures Dead(Lookup(b, key))
  {
  }

  /** Reflecting a newer operation on a key means reflecting the one it replaced. */
  lemma SubsumesOlder(records: seq<Record>, older: Operation, newer: Operation)
    requires Subsumes(records, newer)
    requires older.key == newer.key && older.sequence <= newer.sequence
    requires older.content.None? ==> newer.content.None?
    ensures Subsumes(records, older)
  {
  }
}
