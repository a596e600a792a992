/** A phone's input as an object feeding the hub. */
module PhoneObject {
  import opened Types
  import Spec = StoreSpec
  import opened LinkSpec
  import opened PhoneSpec
  import StoreObject
  import LinkObject

  lemma NoBatch(store: Spec.StoreValue, requests: seq<Spec.Request>, coordinator: bool)
    requires requests == []
    ensures Spec.QueueBatch(store, requests, coordinator) == Ok(Spec.Queued(store, false))
  {
  }

  /** One more request of a batch. */
  lemma BatchStep(store: Spec.StoreValue, requests: seq<Spec.Request>, coordinator: bool, i: nat)
    requires i < |requests| && Spec.QueueBatch(store, requests[..i], coordinator).Ok?
    ensures var before := Spec.QueueBatch(store, requests[..i], coordinator).value;
            var queued := Spec.QueueLocal(before.store, requests[i].key, requests[i].content, coordinator);
            Spec.QueueBatch(store, requests[..i + 1], coordinator)
              == if queued.Err? then queued
                 else Ok(Spec.Queued(queued.value.store, before.changed || queued.value.changed))
  {
    hide Spec.QueueLocal;
    assert requests[..i + 1][..i] == requests[..i];
  }

  /** The first refusal stops the whole batch. */
  lemma {:induction false} BatchStops(
    store: Spec.StoreValue, requests: seq<Spec.Request>, coordinator: bool, n: nat)
    requires n <= |requests|
    requires Spec.QueueBatch(store, requests[..n], coordinator).Err?
    ensures Spec.QueueBatch(store, requests, coordinator) == Spec.QueueBatch(store, requests[..n], coordinator)
    decreases |requests|
  {
    hide Spec.QueueLocal;
    if n < |requests| {
      var last := |requests| - 1;
      assert requests[..last][..n] == requests[..n];
      BatchStops(store, requests[..last], coordinator, n);
    } else {
      assert requests[..n] == requests;
    }
  }

  /** The lifetimes after the ids in `done` have been checked. */
  ghost function PartlyWithdrawn(
    store: Spec.StoreValue, prefix: string, resent: set<string>, done: seq<string>)
    : map<string, Spec.PhoneInstance>
  {
    map id | id in store.phoneInstances ::
      if id in done && Gone(store, prefix, resent, id) then store.phoneInstances[id].(present := false)
      else store.phoneInstances[id]
  }

  lemma NoneWithdrawn(base: Spec.StoreValue, prefix: string, present: set<string>)
    ensures PartlyWithdrawn(base, prefix, present, []) == base.phoneInstances
    ensures Withdrawals(base, prefix, present, []) == []
  {
  }

  lemma AllWithdrawn(base: Spec.StoreValue, prefix: string, present: set<string>, order: seq<string>)
    requires forall id :: id in base.phoneInstances ==> id in order
    ensures PartlyWithdrawn(base, prefix, present, order) == Withdrawn(base, prefix, present)
  {
    hide Gone;
  }

  lemma WithdrawStep(
    base: Spec.StoreValue, prefix: string, present: set<string>, done: seq<string>, id: string)
    requires id in base.phoneInstances && id !in done
    ensures var before, after := PartlyWithdrawn(base, prefix, present, done),
                                 PartlyWithdrawn(base, prefix, present, done + [id]);
            var entry := base.phoneInstances[id];
            && id in before && before[id] == entry
            && after == (if Gone(base, prefix, present, id) then before[id := entry.(present := false)] else before)
            && Withdrawals(base, prefix, present, done + [id])
                 == Withdrawals(base, prefix, present, done)
                      + if Gone(base, prefix, present, id) then [Change(entry.instance, None)] else []
  {
  }

  /** Withdrawing looks at the lifetimes only. */
  lemma {:induction false} SameLifetimes(
    a: Spec.StoreValue, b: Spec.StoreValue, prefix: string, resent: set<string>, order: seq<string>)
    requires a.phoneInstances == b.phoneInstances
    ensures Withdrawn(a, prefix, resent) == Withdrawn(b, prefix, resent)
    ensures Withdrawals(a, prefix, resent, order) == Withdrawals(b, prefix, resent, order)
  {
    hide HasPrefix;
    if |order| > 0 {
      SameLifetimes(a, b, prefix, resent, order[..|order| - 1]);
    }
  }

  class PhoneSource {
    const hub: LinkObject.NotificationHub
    const prefix: string
    const name: string
    var resent: Option<set<string>>
    var snapshotFailed: bool

    ghost function Value(): Source
      reads this
    {
      Source(prefix, name, resent, snapshotFailed)
    }

    constructor (hub: LinkObject.NotificationHub, prefix: string, name: string)
      ensures Value() == Source(prefix, name, None, false) && this.hub == hub
    {
      this.hub := hub;
      this.prefix := prefix;
      this.name := name;
      resent := None;
      snapshotFailed := false;
    }

    /** Queues the changes on the prepared copy and commits everything together. */
    method CommitChanges(
      next: StoreObject.Store, touched: bool, changes: seq<Change>, durability: Durability)
      returns (error: Option<Error>)
      requires next != hub.state
      modifies hub, next
      ensures PhoneOutcome(Value(), hub.Value(), error)
           == PhoneSpec.CommitChanges(old(hub.Value()), old(Value()), old(next.Value()), touched,
                                      changes, durability)
    {
      hide Spec.QueueLocal, Spec.QueueBatch;
      var changed := touched;
      var queuedAny := false;
      var i := 0;
      ghost var start, requests := next.Value(), Requests(hub.identity, changes);
      assert Spec.QueueBatch(start, requests[..0], hub.identity == hub.coordinator) == Ok(Spec.Queued(start, false))
        by { NoBatch(start, requests[..0], hub.identity == hub.coordinator); }
      while i < |changes|
        invariant 0 <= i <= |changes|
        invariant unchanged(hub) && unchanged(hub.state)
        invariant Spec.QueueBatch(start, requests[..i], hub.identity == hub.coordinator)
               == Ok(Spec.Queued(next.Value(), queuedAny))
        invariant changed == (touched || queuedAny)
      {
        BatchStep(start, requests, hub.identity == hub.coordinator, i);
        var queued := next.QueueLocal(Key(hub.identity, changes[i].instance), changes[i].content,
                                      hub.identity == hub.coordinator);
        if queued.Err? {
          BatchStops(start, requests, hub.identity == hub.coordinator, i + 1);
          return Some(queued.error);
        }
        queuedAny := queuedAny || queued.value;
        changed := changed || queued.value;
        i := i + 1;
      }
      assert requests[..i] == requests;
      if changed {
        var confirmed := hub.Replace(next, durability);
        return if confirmed then None else Some(PersistFailed);
      }
      error := None;
    }

    method ApplyPosted(phoneId: string, content: Content, token: string, durability: Durability)
      returns (error: Option<Error>)
      modifies this`resent, hub
      ensures PhoneOutcome(Value(), hub.Value(), error)
           == PhoneSpec.ApplyPosted(old(hub.Value()), old(Value()), phoneId, content, token, durability)
    {
      hide Spec.Apply, Spec.View, PhoneSpec.CommitChanges;
      var id := prefix + phoneId;
      if resent.Some? {
        if |resent.value| >= MAX_RECORDS && id !in resent.value {
          return Some(PhoneSnapshotFull);
        }
        resent := Some(resent.value + {id});
      }
      var next := new StoreObject.Store.Clone(hub.state);
      var touched := false;
      if !(id in next.phoneInstances && next.phoneInstances[id].present) {
        if id !in next.phoneInstances && |next.phoneInstances| >= MAX_RECORDS {
          return Some(PhoneIdentitiesFull);
        }
        next.phoneInstances := next.phoneInstances[id := Spec.PhoneInstance(id + "/" + token, true)];
        touched := true;
      }
      error := CommitChanges(next, touched, [Change(next.phoneInstances[id].instance, Some(content))],
                             durability);
    }

    method ApplyRemoved(phoneId: string, durability: Durability) returns (error: Option<Error>)
      modifies hub
      ensures PhoneOutcome(Value(), hub.Value(), error)
           == PhoneSpec.ApplyRemoved(old(hub.Value()), old(Value()), phoneId, durability)
    {
      var id := prefix + phoneId;
      var next := new StoreObject.Store.Clone(hub.state);
      if id in next.phoneInstances && next.phoneInstances[id].present {
        var entry := next.phoneInstances[id];
        next.phoneInstances := next.phoneInstances[id := entry.(present := false)];
        error := CommitChanges(next, true, [Change(entry.instance, None)], durability);
      } else {
        error := None;
      }
    }

    /** Ends the lifetimes the phone did not send again; lists the dismissals to queue. */
    method WithdrawMissing(next: StoreObject.Store, present: set<string>, order: seq<string>)
      returns (changes: seq<Change>)
      requires forall i, j :: 0 <= i < j < |order| ==> order[i] != order[j]
      requires forall id :: id in next.phoneInstances <==> id in order
      modifies next`phoneInstances
      ensures next.phoneInstances == Withdrawn(old(next.Value()), prefix, present)
      ensures changes == Withdrawals(old(next.Value()), prefix, present, order)
    {
      hide HasPrefix, PartlyWithdrawn, Withdrawals;
      ghost var base := next.Value();
      NoneWithdrawn(base, prefix, present);
      assert order[..0] == [];
      changes := [];
      var i := 0;
      while i < |order|
        invariant 0 <= i <= |order|
        invariant next.phoneInstances == PartlyWithdrawn(base, prefix, present, order[..i])
        invariant changes == Withdrawals(base, prefix, present, order[..i])
      {
        assert order[..i + 1] == order[..i] + [order[i]];
        var id := order[i];
        assert id in order && id !in order[..i];
        WithdrawStep(base, prefix, present, order[..i], id);
        var entry := next.phoneInstances[id];
        if HasPrefix(id, prefix) && entry.present && id !in present {
          next.phoneInstances := next.phoneInstances[id := entry.(present := false)];
          changes := changes + [Change(entry.instance, None)];
        }
        i := i + 1;
      }
      assert order[..i] == order;
      AllWithdrawn(base, prefix, present, order);
    }

    method ApplyEnd(order: seq<string>, durability: Durability) returns (error: Option<Error>)
      requires forall i, j :: 0 <= i < j < |order| ==> order[i] != order[j]
      requires forall id :: id in hub.state.phoneInstances <==> id in order
      modifies this`resent, hub
      ensures PhoneOutcome(Value(), hub.Value(), error)
           == PhoneSpec.ApplyEnd(old(hub.Value()), old(Value()), order, durability)
    {
      if resent.None? {
        return Some(EndWithoutStart);
      }
      var present := resent.value;
      resent := None;
      var next := new StoreObject.Store.Clone(hub.state);
      var touched := false;
      if !snapshotFailed && name != ""
         && !(prefix in next.importedPhones && next.importedPhones[prefix] == name) {
        if prefix !in next.importedPhones && |next.importedPhones| >= MAX_RECORDS {
          return Some(PhoneImportsFull);
        }
        next.importedPhones := next.importedPhones[prefix := name];
        touched := true;
      }
      hide PhoneSpec.CommitChanges, Withdrawals;
      SameLifetimes(next.Value(), hub.state.Value(), prefix, present, order);
      var changes := WithdrawMissing(next, present, order);
      if snapshotFailed {
        return Some(PhoneSnapshotIncomplete);
      }
      error := CommitChanges(next, touched || changes != [], changes, durability);
    }

    /** One event from the phone; a failure inside a snapshot marks it as incomplete. */
    method Apply(event: PhoneEvent, token: string, order: seq<string>, durability: Durability)
      returns (error: Option<Error>)
      requires event.PhoneSnapshotEnd? ==>
        && (forall i, j :: 0 <= i < j < |order| ==> order[i] != order[j])
        && (forall id :: id in hub.state.phoneInstances <==> id in order)
      modifies this, hub
      ensures PhoneOutcome(Value(), hub.Value(), error)
           == PhoneApply(old(hub.Value()), old(Value()), event, token, order, durability)
    {
      if event.PhoneSnapshotStart? {
        if resent.Some? {
          error := Some(NestedSnapshot);
        } else {
          resent := Some({});
          snapshotFailed := false;
          error := None;
        }
      } else if event.Posted? {
        error := ApplyPosted(event.id, event.content, token, durability);
      } else if event.Removed? {
        error := ApplyRemoved(event.id, durability);
      } else {
        error := ApplyEnd(order, durability);
      }
      if error.Some? && resent.Some? {
        snapshotFailed := true;
      }
    }
  }
}
