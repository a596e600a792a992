/** Starting under a configured history owner, in place on the loaded store. */
module StartObject {
  import opened Types
  import Spec = StoreSpec
  import OwnerChange
  import StoreObject

  /** Whether a change of owner must be refused. */
  method Locked(state: StoreObject.Store) returns (locked: bool)
    ensures locked == Spec.CoordinatorLocked(state.Value())
    ensures locked <==> (|| state.epoch != "" || |state.records| > 0
                         || exists op :: op in state.pending && op.key.origin != state.localIdentity)
  {
    if state.epoch != "" || state.records != [] {
      return true;
    }
    var i := 0;
    while i < |state.pending|
      invariant 0 <= i <= |state.pending|
      invariant forall j :: 0 <= j < i ==> state.pending[j].key.origin == state.localIdentity
    {
      if state.pending[i].key.origin != state.localIdentity {
        return true;
      }
      i := i + 1;
    }
    locked := false;
  }

  /** Commits the outbox into the records; the first refusal stops it. */
  method DrainOutbox(state: StoreObject.Store) returns (error: Option<Error>)
    modifies state`records, state`pending
    ensures state.pending == []
    ensures var drained := OwnerChange.Drain(old(state.records), state.localIdentity, old(state.pending));
            if error.None? then drained == Ok(state.records) else drained == Err(error.value)
  {
    var taken := state.pending;
    state.pending := [];
    var i := 0;
    while i < |taken|
      invariant 0 <= i <= |taken|
      invariant state.pending == []
      invariant OwnerChange.Drain(state.records, state.localIdentity, taken[i..])
             == OwnerChange.Drain(old(state.records), state.localIdentity, taken)
    {
      assert taken[i..][0] == taken[i] && taken[i..][1..] == taken[i + 1..];
      var applied := state.Apply(state.localIdentity, taken[i]);
      if applied.Err? {
        return Some(applied.error);
      }
      i := i + 1;
    }
    error := None;
  }

  /** A refused start may leave the loaded copy half changed; it is then dropped. */
  method StartUnder(state: StoreObject.Store, coordinator: string, freshEpoch: string)
    returns (error: Option<Error>)
    modifies state
    ensures var started := OwnerChange.StartUnder(old(state.Value()), coordinator, freshEpoch);
            if error.None? then started == Ok(state.Value()) else started == Err(error.value)
    ensures error == Some(OwnerLocked) <==>
              (&& old(state.coordinator) != coordinator
               && (|| old(state.epoch) != "" || |old(state.records)| > 0
                   || exists op :: op in old(state.pending) && op.key.origin != state.localIdentity))
  {
    OwnerChange.CorrectionRefusedExactlyWhen(state.Value(), coordinator, freshEpoch);
    hide OwnerChange.StartUnder, Spec.CoordinatorLocked, Spec.ValidStore;
    if state.coordinator != coordinator {
      var locked := Locked(state);
      if locked {
        return Some(OwnerLocked);
      }
      state.coordinator := coordinator;
      if coordinator == state.localIdentity {
        var refused := DrainOutbox(state);
        if refused.Some? {
          return refused;
        }
        state.epoch := freshEpoch;
      }
    }
    if |state.records| > MAX_RECORDS || |state.pending| > MAX_PENDING {
      return Some(LimitsExceeded);
    }
    error := None;
  }
}
