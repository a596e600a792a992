/** The store as the hub updates it in place. */
module StoreObject {
  import opened Types
  import Spec = StoreSpec

  class Store {
    var coordinator: string
    var epoch: string
    var localIdentity: string
    var sequence: nat
    var records: seq<Record>
    var pending: seq<Operation>
    var phoneInstances: map<string, Spec.PhoneInstance>
    var importedPhones: map<string, string>

    ghost function Value(): Spec.StoreValue
      reads this
    {
      Spec.StoreValue(coordinator, epoch, localIdentity, sequence, records, pending,
                      phoneInstances, importedPhones)
    }

    constructor Clone(other: Store)
      ensures Value() == old(other.Value())
    {
      coordinator := other.coordinator;
      epoch := other.epoch;
      localIdentity := other.localIdentity;
      sequence := other.sequence;
      records := other.records;
      pending := other.pending;
      phoneInstances := other.phoneInstances;
      importedPhones := other.importedPhones;
    }

    /** A store holding some records and nothing else. */
    constructor Holding(records: seq<Record>)
      ensures this.records == records
    {
      coordinator := "";
      epoch := "";
      localIdentity := "";
      sequence := 0;
      this.records := records;
      pending := [];
      phoneInstances := map[];
      importedPhones := map[];
    }

    method Find(key: Key) returns (i: int)
      ensures i == Spec.IndexOf(records, key)
    {
      i := 0;
      while i < |records|
        invariant 0 <= i <= |records|
        invariant forall j :: 0 <= j < i ==> records[j].key != key
      {
        if records[i].key == key {
          return;
        }
        i := i + 1;
      }
      i := -1;
    }

    /** Merges one operation; says whether the records changed. */
    method Apply(sender: string, op: Operation) returns (result: Result<bool>)
      modifies this`records
      ensures var applied := Spec.Apply(old(records), sender, op);
              if applied.Ok? then
                result == Ok(applied.value.changed) && records == applied.value.records
              else result == Err(applied.error) && records == old(records)
    {
      if !ValidOrigin(op.key.origin) {
        return Err(InvalidOrigin);
      }
      if !ValidInstance(op.key.instance) {
        return Err(InvalidInstance);
      }
      if op.sequence == 0 {
        return Err(ZeroSequence);
      }
      if op.content.Some? {
        if op.key.origin != sender {
          return Err(Impersonation);
        }
        if !ValidContent(op.content.value) {
          return Err(InvalidContent);
        }
      }
      var i := Find(op.key);
      if i >= 0 {
        if records[i].content.None? {
          return Ok(false);
        }
        if op.content.None? || op.sequence > records[i].sourceSequence {
          var record := records[i].(content := op.content);
          if op.content.Some? {
            record := record.(sourceSequence := op.sequence);
          }
          records := records[i := record];
        } else {
          return Ok(false);
        }
      } else {
        if |records| >= MAX_RECORDS {
          return Err(StoreFull);
        }
        records := records + [Record(op.key, op.sequence, op.content)];
      }
      result := Ok(true);
    }

    /** The committed records with the outbox replayed over a copy of them. */
    method View() returns (view: seq<Record>)
      ensures view == Spec.View(Value())
    {
      var overlay := new Store.Clone(this);
      var i := 0;
      while i < |pending|
        invariant 0 <= i <= |pending|
        invariant unchanged(this)
        invariant fresh(overlay)
        invariant overlay.records == Spec.Overlay(records, localIdentity, pending[..i])
      {
        assert pending[..i + 1][..i] == pending[..i];
        var ignored := overlay.Apply(localIdentity, pending[i]);
        i := i + 1;
      }
      assert pending[..i] == pending;
      view := overlay.records;
    }

    /** One key's record as the view shows it, without building the view. */
    method RecordOf(key: Key) returns (record: Option<Record>)
      ensures record == Spec.RecordOf(Value(), key)
    {
      var at := Find(key);
      var current := if at < 0 then None else Some(records[at]);
      var i := 0;
      while i < |pending| && pending[i].key != key
        invariant 0 <= i <= |pending|
        invariant forall j :: 0 <= j < i ==> pending[j].key != key
      {
        i := i + 1;
      }
      if i == |pending| {
        return current;
      }
      assert Spec.PendingIndex(pending, key) == i;
      var overlay := new Store.Holding(if current.Some? then [current.value] else []);
      var ignored := overlay.Apply(localIdentity, pending[i]);
      record := if |overlay.records| == 0 then None else Some(overlay.records[|overlay.records| - 1]);
    }

    /**
     Accepts a local change. A refused change may leave this copy half updated: callers
     work on a clone and drop it.
     */
    method QueueLocal(key: Key, content: Option<Content>, coordinator: bool) returns (result: Result<bool>)
      modifies this
      ensures var queued := Spec.QueueLocal(old(Value()), key, content, coordinator);
              if queued.Ok? then result == Ok(queued.value.changed) && Value() == queued.value.store
              else result == Err(queued.error) && records == old(records)
    {
      hide Spec.View, Spec.Apply, ValidOrigin, ValidInstance, ValidContent;
      var view := View();
      var i := 0;
      while i < |view| && view[i].key != key
        invariant 0 <= i <= |view|
        invariant forall j :: 0 <= j < i ==> view[j].key != key
      {
        i := i + 1;
      }
      if i < |view| {
        assert Spec.IndexOf(view, key) == i;
        if view[i].content.None? || view[i].content == content {
          return Ok(false);
        }
      }
      if sequence >= MAX_U64 {
        return Err(SequenceExhausted);
      }
      sequence := sequence + 1;
      var op := Operation(sequence, key, content);
      if !ValidOrigin(key.origin) {
        return Err(InvalidOrigin);
      }
      if !ValidInstance(key.instance) {
        return Err(InvalidInstance);
      }
      if content.Some? {
        if !ValidContent(content.value) {
          return Err(InvalidContent);
        }
        if key.origin != localIdentity {
          return Err(InvalidLocalOrigin);
        }
      }
      if coordinator {
        var applied := Apply(localIdentity, op);
        if applied.Err? {
          return Err(applied.error);
        }
      } else {
        pending := Spec.WithoutKey(pending, key);
        if |pending| >= MAX_PENDING || |records| + |pending| >= MAX_RECORDS {
          return Err(OutboxFull);
        }
        pending := pending + [op];
      }
      result := Ok(true);
    }
  }
}
