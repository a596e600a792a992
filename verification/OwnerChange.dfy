/** Choosing another history owner at startup: what is refused and what is kept. */
module OwnerChange {
  import opened Types
  import opened StoreSpec
  import opened OverlayLaws

  /** The stored state after a start under the configured owner. */
  function StartUnder(store: StoreValue, coordinator: string, freshEpoch: string): Result<StoreValue> {
    if store.coordinator == coordinator then WithinLimits(store)
    else if CoordinatorLocked(store) then Err(OwnerLocked)
    else if coordinator != store.localIdentity then WithinLimits(store.(coordinator := coordinator))
    else
      var drained := Drain(store.records, store.localIdentity, store.pending);
      if drained.Err? then Err(drained.error)
      else
        WithinLimits(store.(coordinator := coordinator, epoch := freshEpoch,
                            records := drained.value, pending := []))
  }

  function WithinLimits(store: StoreValue): Result<StoreValue> {
    if |store.records| <= MAX_RECORDS && |store.pending| <= MAX_PENDING then Ok(store)
    else Err(LimitsExceeded)
  }

  /** Commits the outbox in order; the first refusal stops it. */
  function Drain(records: seq<Record>, sender: string, pending: seq<Operation>): Result<seq<Record>>
    decreases |pending|
  {
    if |pending| == 0 then Ok(records)
    else
      var applied := Apply(records, sender, pending[0]);
      if applied.Err? then Err(applied.error)
      else Drain(applied.value.records, sender, pending[1..])
  }

  /** Draining goes through exactly when the overlay refuses nothing, and gives the view. */
  lemma {:induction false} DrainIsOverlay(
    records: seq<Record>, sender: string, pending: seq<Operation>)
    requires forall i :: 0 <= i < |pending| ==> Refusal(sender, pending[i]).None?
    requires |records| + |pending| <= MAX_RECORDS
    ensures Drain(records, sender, pending) == Ok(Overlay(records, sender, pending))
    decreases |pending|
  {
    hide Refusal;
    if |pending| > 0 {
      var next := Attempt(records, sender, pending[0]);
      DrainIsOverlay(next, sender, pending[1..]);
      OverlayFromFront(records, sender, pending);
    }
  }

  lemma {:induction false} OverlayFromFront(
    records: seq<Record>, sender: string, pending: seq<Operation>)
    requires |pending| > 0
    ensures Overlay(records, sender, pending)
         == Overlay(Attempt(records, sender, pending[0]), sender, pending[1..])
  {
    hide Attempt;
    var last := |pending| - 1;
    if last == 0 {
      assert pending[..last] == [];
    } else {
      OverlayFromFront(records, sender, pending[..last]);
      assert pending[..last][1..] == pending[1..][..last - 1];
    }
  }

  /**
   An owner correction is refused exactly when the history is locked; otherwise no queued
   notification is lost: the view is unchanged, and a machine that becomes the owner has
   committed all of it.
   */
  lemma CorrectionKeepsView(store: StoreValue, coordinator: string, freshEpoch: string)
    requires ValidStore(store)
    requires store.coordinator != coordinator
    ensures StartUnder(store, coordinator, freshEpoch).Ok? <==> !CoordinatorLocked(store)
    ensures StartUnder(store, coordinator, freshEpoch).Ok? ==>
              var started := StartUnder(store, coordinator, freshEpoch).value;
              && View(started) == View(store)
              && ValidStore(started)
              && started.sequence == store.sequence
              && started.coordinator == coordinator
              && (coordinator == store.localIdentity ==>
                    started.pending == [] && started.records == View(store))
  {
    hide Refusal, Attempt, ValidRecord;
    if !CoordinatorLocked(store) && coordinator == store.localIdentity {
      forall i | 0 <= i < |store.pending|
        ensures Refusal(store.localIdentity, store.pending[i]).None?
      {
        assert OwnOperation(store.pending[i], store.localIdentity, store.sequence);
      }
      DrainIsOverlay(store.records, store.localIdentity, store.pending);
      OverlayKeepsValid(store.records, store.localIdentity, store.pending);
    }
  }

  /** What an outbox of which the first operations were committed leaves in the records. */
  ghost function Committed(records: seq<Record>, sender: string, pending: seq<Operation>, count: nat): seq<Record>
    requires count <= |pending|
  {
    Overlay(records, sender, pending[..count])
  }

  lemma CommittedFromFront(records: seq<Record>, sender: string, pending: seq<Operation>, count: nat)
    requires count < |pending|
    ensures Committed(records, sender, pending, count + 1)
         == Committed(Attempt(records, sender, pending[0]), sender, pending[1..], count)
  {
    hide Attempt;
    OverlayFromFront(records, sender, pending[..count + 1]);
    assert pending[..count + 1][1..] == pending[1..][..count];
  }

  /**
   Any outbox is committed whole or not at all: it goes through exactly when the owner accepts
   every operation after those before it, and otherwise the first refusal is reported.
   */
  lemma {:induction false} DrainedExactlyWhen(records: seq<Record>, sender: string, pending: seq<Operation>)
    ensures Drain(records, sender, pending).Ok?
      <==> forall i :: 0 <= i < |pending| ==>
             Apply(Committed(records, sender, pending, i), sender, pending[i]).Ok?
    ensures Drain(records, sender, pending).Ok? ==>
              Drain(records, sender, pending).value == Overlay(records, sender, pending)
    ensures Drain(records, sender, pending).Err? ==>
              exists i :: 0 <= i < |pending|
                && (forall j :: 0 <= j < i ==>
                      Apply(Committed(records, sender, pending, j), sender, pending[j]).Ok?)
                && Apply(Committed(records, sender, pending, i), sender, pending[i])
                     == Err(Drain(records, sender, pending).error)
    decreases |pending|
  {
    hide Apply;
    if |pending| > 0 {
      assert pending[..0] == [];
      var next, rest := Attempt(records, sender, pending[0]), pending[1..];
      DrainedExactlyWhen(next, sender, rest);
      OverlayFromFront(records, sender, pending);
      forall i | 0 <= i < |rest|
        ensures Committed(records, sender, pending, i + 1) == Committed(next, sender, rest, i)
      {
        CommittedFromFront(records, sender, pending, i);
      }
      forall i | 0 < i < |pending|
        ensures Committed(records, sender, pending, i) == Committed(next, sender, rest, i - 1)
        ensures pending[i] == rest[i - 1]
      {
        assert Committed(records, sender, pending, (i - 1) + 1) == Committed(next, sender, rest, i - 1);
      }
    }
  }

  lemma {:induction false} DrainNotLocked(records: seq<Record>, sender: string, pending: seq<Operation>)
    ensures Drain(records, sender, pending) != Err(OwnerLocked)
    decreases |pending|
  {
    hide ValidOrigin, ValidInstance, ValidContent;
    if |pending| > 0 {
      DrainNotLocked(Attempt(records, sender, pending[0]), sender, pending[1..]);
    }
  }

  /**
   Another owner is refused exactly when there is history to protect: an epoch, a record, or
   a queued operation on another machine's notification. A machine's own posts and
   dismissals waiting in its outbox never stand in the way.
   */
  lemma CorrectionRefusedExactlyWhen(store: StoreValue, coordinator: string, freshEpoch: string)
    ensures StartUnder(store, coordinator, freshEpoch) == Err(OwnerLocked)
      <==>
    (&& store.coordinator != coordinator
     && (|| store.epoch != "" || |store.records| > 0
         || exists op :: op in store.pending && op.key.origin != store.localIdentity))
    ensures ValidStore(store) && StartUnder(store, coordinator, freshEpoch).Err? ==>
              StartUnder(store, coordinator, freshEpoch) == Err(OwnerLocked)
    ensures store.coordinator == coordinator ==>
              StartUnder(store, coordinator, freshEpoch)
                == if |store.records| <= 4096 && |store.pending| <= 1024 then Ok(store) else Err(LimitsExceeded)
  {
    hide Apply, Refusal, Drain, ValidRecord;
    DrainNotLocked(store.records, store.localIdentity, store.pending);
    if exists op :: op in store.pending && op.key.origin != store.localIdentity {
      var op :| op in store.pending && op.key.origin != store.localIdentity;
      var i :| 0 <= i < |store.pending| && store.pending[i] == op;
    }
    if ValidStore(store) && store.coordinator != coordinator && !CoordinatorLocked(store) {
      CorrectionKeepsView(store, coordinator, freshEpoch);
    }
  }

  lemma AttemptCounts(records: seq<Record>, sender: string, op: Operation, sequence: nat)
    requires CountedBy(records, sender, sequence) && op.sequence <= sequence
    ensures CountedBy(Attempt(records, sender, op), sender, sequence)
  {
  }

  /** Live records under a name never run ahead of a counter. */
  ghost predicate CountedBy(records: seq<Record>, origin: string, sequence: nat) {
    forall i :: 0 <= i < |records| ==>
      records[i].key.origin == origin && records[i].content.Some? ==> records[i].sourceSequence <= sequence
  }

  lemma {:induction false} OverlayCounts(records: seq<Record>, sender: string, pending: seq<Operation>, sequence: nat)
    requires CountedBy(records, sender, sequence) && ValidOutbox(pending, sender, sequence)
    ensures CountedBy(Overlay(records, sender, pending), sender, sequence)
    decreases |pending|
  {
    hide Attempt, CountedBy, Refusal;
    if |pending| > 0 {
      var last := |pending| - 1;
      assert OwnOperation(pending[last], sender, sequence);
      OverlayCounts(records, sender, pending[..last], sequence);
      AttemptCounts(Overlay(records, sender, pending[..last]), sender, pending[last], sequence);
    }
  }

  /** A machine that becomes the owner starts with a counter ahead of its records, as an owner must. */
  lemma CorrectionKeepsCounter(store: StoreValue, coordinator: string, freshEpoch: string)
    requires ValidStore(store) && CounterAhead(store)
    requires StartUnder(store, coordinator, freshEpoch).Ok?
    ensures CounterAhead(StartUnder(store, coordinator, freshEpoch).value)
  {
    hide Refusal, Attempt, ValidRecord, Overlay;
    if store.coordinator != coordinator {
      CorrectionKeepsView(store, coordinator, freshEpoch);
      OverlayCounts(store.records, store.localIdentity, store.pending, store.sequence);
    }
  }

  /** Becoming the owner locks the choice for good. */
  lemma OwnerStaysLocked(store: StoreValue, freshEpoch: string, later: string)
    requires ValidStore(store) && ValidEpoch(freshEpoch)
    requires store.coordinator != store.localIdentity && later != store.localIdentity
    requires !CoordinatorLocked(store)
    ensures var started := StartUnder(store, store.localIdentity, freshEpoch);
            started.Ok? && StartUnder(started.value, later, freshEpoch) == Err(OwnerLocked)
  {
    hide Refusal, Attempt, ValidRecord;
    CorrectionKeepsView(store, store.localIdentity, freshEpoch);
  }
}
