/** What phone lifetimes guarantee on the machine that owns the history. */
module PhoneLaws {
  import opened Types
  import opened StoreSpec
  import opened OverlayLaws
  import opened LinkSpec
  import opened PhoneSpec
  import NetworkOwnerSteps

  ghost predicate NoSlash(text: string) {
    forall i :: 0 <= i < |text| ==> text[i] != '/'
  }

  /** The lifetime's name is the phone id followed by a token without a slash. */
  ghost predicate NamedAfter(instance: string, id: string) {
    && |instance| > |id|
    && instance[..|id|] == id && instance[|id|] == '/'
    && NoSlash(instance[|id| + 1..])
  }

  ghost predicate EntryOk(store: StoreValue, id: string)
    requires id in store.phoneInstances
  {
    var entry := store.phoneInstances[id];
    && NamedAfter(entry.instance, id)
    && var record := Lookup(store.records, Key(store.localIdentity, entry.instance));
       if entry.present then record.Some? else Dead(record)
  }

  /** The owner's store: every id stands for a recorded lifetime, a dismissed one if it is not present. */
  ghost predicate PhonesOk(store: StoreValue) {
    && ValidStore(store) && store.pending == [] && CounterAhead(store)
    && forall id :: id in store.phoneInstances ==> EntryOk(store, id)
  }

  /** Different phone ids never share a lifetime. */
  lemma InstancesDistinct(a: string, b: string, instance: string)
    requires NamedAfter(instance, a) && NamedAfter(instance, b)
    ensures a == b
  {
  }

  // ------------------------------------------------------------ queued changes

  ghost predicate Untouched(requests: seq<Request>, key: Key) {
    forall i :: 0 <= i < |requests| ==> requests[i].key != key
  }

  /** What a list of accepted changes does to an owner's store. */
  ghost predicate Carried(store: StoreValue, requests: seq<Request>, next: StoreValue) {
    && next == store.(sequence := next.sequence, records := next.records)
    && ValidStore(next) && CounterAhead(next)
    && store.sequence <= next.sequence
    && Advances(store.records, next.records)
    && (forall i :: 0 <= i < |requests| ==>
          Lookup(next.records, requests[i].key).Some?
          && (requests[i].content.None? ==> Dead(Lookup(next.records, requests[i].key))))
    && (forall key :: Untouched(requests, key) ==>
          Lookup(next.records, key) == Lookup(store.records, key))
  }

  lemma {:induction false} BatchCarries(store: StoreValue, requests: seq<Request>)
    requires ValidStore(store) && store.pending == [] && CounterAhead(store)
    requires QueueBatch(store, requests, true).Ok?
    ensures Carried(store, requests, QueueBatch(store, requests, true).value.store)
    ensures !QueueBatch(store, requests, true).value.changed ==>
              QueueBatch(store, requests, true).value.store == store
  {
    hide ValidStore, QueueLocal, Lookup, Advances, CounterAhead;
    if |requests| == 0 {
      NetworkOwnerSteps.AdvancesReflexive(store.records);
    } else {
      var front, last := requests[..|requests| - 1], requests[|requests| - 1];
      BatchCarries(store, front);
      var middle := QueueBatch(store, front, true).value.store;
      QueueOneCarries(middle, last.key, last.content);
      CarriedChain(store, requests, middle, QueueBatch(store, requests, true).value.store);
    }
  }

  lemma RecordKept(a: seq<Record>, b: seq<Record>, key: Key)
    requires Advances(a, b) && Lookup(a, key).Some?
    ensures Lookup(b, key).Some?
  {
    assert b[IndexOf(a, key)].key == key;
  }

  lemma CarriedChain(store: StoreValue, requests: seq<Request>, middle: StoreValue, next: StoreValue)
    requires |requests| > 0
    requires Carried(store, requests[..|requests| - 1], middle)
    requires Carried(middle, [requests[|requests| - 1]], next)
    ensures Carried(store, requests, next)
  {
    hide ValidStore, Lookup, Dead, CounterAhead;
    var last := |requests| - 1;
    var front, tail := requests[..last], [requests[last]];
    AdvancesTransitive(store.records, middle.records, next.records);
    hide Advances;
    forall i | 0 <= i < |requests|
      ensures Lookup(next.records, requests[i].key).Some?
      ensures requests[i].content.None? ==> Dead(Lookup(next.records, requests[i].key))
    {
      if i < last {
        assert front[i] == requests[i];
        RecordKept(middle.records, next.records, requests[i].key);
        if requests[i].content.None? {
          TombstoneKept(middle.records, next.records, requests[i].key);
        }
      } else {
        assert tail[0] == requests[i];
      }
    }
    forall key | Untouched(requests, key)
      ensures Lookup(next.records, key) == Lookup(store.records, key)
    {
      assert Untouched(front, key);
      assert Untouched(tail, key);
    }
  }

  lemma QueueOneCarries(store: StoreValue, key: Key, content: Option<Content>)
    requires ValidStore(store) && store.pending == [] && CounterAhead(store)
    requires QueueLocal(store, key, content, true).Ok?
    ensures var queued := QueueLocal(store, key, content, true).value;
            && Carried(store, [Request(key, content)], queued.store)
            && (!queued.changed ==> queued.store == store)
  {
    hide QueueLocal, Refusal, CounterAhead;
    var queued := QueueLocal(store, key, content, true).value;
    var requests := [Request(key, content)];
    QueueCases(store, key, content, true);
    QueueKeepsValid(store, key, content, true);
    QueueShowsRequest(store, key, content, true, key);
    assert View(store) == store.records;
    if queued.changed {
      var op := Operation(store.sequence + 1, key, content);
      AttemptKeepsValid(store.records, store.localIdentity, op);
      AttemptLookup(store.records, store.localIdentity, op, key);
      hide Attempt, Lookup, ValidStore;
      forall other | Untouched(requests, other)
        ensures Lookup(queued.store.records, other) == Lookup(store.records, other)
      {
        assert requests[0].key == key;
        AttemptLookup(store.records, store.localIdentity, op, other);
      }
    } else {
      NetworkOwnerSteps.AdvancesReflexive(store.records);
    }
  }

  // ------------------------------------------------------------ one commit

  ghost predicate Prepared(next: StoreValue, changes: seq<Change>) {
    && ValidStore(next) && next.pending == [] && CounterAhead(next)
    && forall id :: id in next.phoneInstances ==> EntryPrepared(next, changes, id)
  }

  ghost predicate EntryPrepared(next: StoreValue, changes: seq<Change>, id: string)
    requires id in next.phoneInstances
  {
    var entry := next.phoneInstances[id];
    && NamedAfter(entry.instance, id)
    && var record := Lookup(next.records, Key(next.localIdentity, entry.instance));
       if entry.present then
         record.Some? || exists i :: 0 <= i < |changes| && changes[i].instance == entry.instance
       else
         Dead(record) || exists i :: 0 <= i < |changes| && changes[i] == Change(entry.instance, None)
  }

  ghost predicate OwnerHub(hub: Hub) {
    && IsCoordinator(hub) && hub.mem.localIdentity == hub.identity
    && PhonesOk(hub.mem)
  }

  /** Either everything prepared is carried out, or memory is left as it was. */
  lemma CommitLaw(
    hub: Hub, source: Source, next: StoreValue, touched: bool, changes: seq<Change>, durability: Durability)
    requires OwnerHub(hub) && Prepared(next, changes) && next.localIdentity == hub.identity
    requires !touched ==> next == hub.mem
    ensures var r := CommitChanges(hub, source, next, touched, changes, durability);
            && r.source == source
            && OwnerHub(r.hub)
            && (r.error.None? ==> Carried(next, Requests(hub.identity, changes), r.hub.mem))
            && (r.error.Some? ==> r.hub.mem == hub.mem)
            && (r.hub.disk == hub.disk
                || (PhonesOk(r.hub.disk) && Carried(next, Requests(hub.identity, changes), r.hub.disk)))
  {
    hide ValidStore, EntryPrepared, EntryOk, Carried, QueueBatch, CounterAhead, Requests;
    var queued := QueueBatch(next, Requests(hub.identity, changes), true);
    if queued.Ok? {
      BatchCarries(next, Requests(hub.identity, changes));
      CarriedOk(next, hub.identity, changes, queued.value.store);
    }
  }

  lemma CarriedOk(next: StoreValue, identity: string, changes: seq<Change>, after: StoreValue)
    requires Prepared(next, changes) && next.localIdentity == identity
    requires Carried(next, Requests(identity, changes), after)
    ensures PhonesOk(after) && after.localIdentity == identity
  {
    hide CounterAhead, ValidStore, NamedAfter, Lookup;
    forall id | id in after.phoneInstances ensures EntryOk(after, id) {
      assert EntryPrepared(next, changes, id);
      var key := Key(identity, next.phoneInstances[id].instance);
      if Dead(Lookup(next.records, key)) {
        TombstoneKept(next.records, after.records, key);
      } else if Lookup(next.records, key).Some? && next.phoneInstances[id].present {
        RecordKept(next.records, after.records, key);
      } else if next.phoneInstances[id].present {
        var i :| 0 <= i < |changes| && changes[i].instance == next.phoneInstances[id].instance;
        assert Requests(identity, changes)[i].key == key;
      } else {
        var i :| 0 <= i < |changes| && changes[i] == Change(next.phoneInstances[id].instance, None);
        assert Requests(identity, changes)[i] == Request(key, None);
      }
    }
  }

  lemma AlreadyPrepared(store: StoreValue, changes: seq<Change>)
    requires PhonesOk(store)
    ensures Prepared(store, changes)
  {
  }

  // ----------------------------------------------------------------- posting

  function LifetimeKey(store: StoreValue, id: string): Key
    requires id in store.phoneInstances
  {
    Key(store.localIdentity, store.phoneInstances[id].instance)
  }

  lemma NewLifetimePrepared(store: StoreValue, id: string, token: string, changes: seq<Change>)
    requires PhonesOk(store) && NoSlash(token)
    requires |changes| > 0 && changes[0].instance == id + "/" + token
    ensures Prepared(store.(phoneInstances :=
                       store.phoneInstances[id := PhoneInstance(id + "/" + token, true)]), changes)
  {
  }

  /** The store a post commits into. */
  function PostedInto(store: StoreValue, id: string, token: string): StoreValue {
    if Present(store, id) then store
    else store.(phoneInstances := store.phoneInstances[id := PhoneInstance(id + "/" + token, true)])
  }

  /**
   A post keeps the lifetime of an id that is present and starts a new one otherwise. A
   dismissed lifetime stays dismissed; any other shows the posted content. Nothing else
   changes, and a failed post changes nothing.
   */
  lemma PostedLaw(
    hub: Hub, source: Source, phoneId: string, content: Content, token: string, durability: Durability)
    requires OwnerHub(hub) && NoSlash(token)
    ensures var r := ApplyPosted(hub, source, phoneId, content, token, durability);
            var id, before, after := source.prefix + phoneId, hub.mem, r.hub.mem;
            && OwnerHub(r.hub)
            && (r.error.Some? ==> after == before)
            && (r.error.None? ==>
                  && Present(after, id)
                  && after.phoneInstances == PostedInto(before, id, token).phoneInstances
                  && after.importedPhones == before.importedPhones
                  && Advances(before.records, after.records)
                  && (forall key :: key != LifetimeKey(after, id) ==>
                        Lookup(after.records, key) == Lookup(before.records, key))
                  && (Dead(Lookup(before.records, LifetimeKey(after, id))) ==>
                        Dead(Lookup(after.records, LifetimeKey(after, id))))
                  && (!Dead(Lookup(before.records, LifetimeKey(after, id))) ==>
                        Lookup(after.records, LifetimeKey(after, id)).Some?
                        && Lookup(after.records, LifetimeKey(after, id)).value.content == Some(content)))
            && (r.hub.disk == hub.disk || PhonesOk(r.hub.disk))
  {
    hide ValidRecords, ValidOutbox, EntryOk, EntryPrepared, QueueBatch, Lookup, Advances, CommitChanges, Dead;
    var r := ApplyPosted(hub, source, phoneId, content, token, durability);
    var id, before := source.prefix + phoneId, hub.mem;
    var next := PostedInto(before, id, token);
    var changes := [Change(next.phoneInstances[id].instance, Some(content))];
    var noted := if source.resent.Some?
                 then source.(resent := Some(source.resent.value + {id})) else source;
    if Present(before, id) {
      AlreadyPrepared(before, changes);
    } else {
      NewLifetimePrepared(before, id, token, changes);
    }
    CommitLaw(hub, noted, next, !Present(before, id), changes, durability);
    if r.error.None? {
      assert r == CommitChanges(hub, noted, next, !Present(before, id), changes, durability);
      var key := LifetimeKey(r.hub.mem, id);
      assert changes[0].instance == key.instance;
      assert Requests(hub.identity, changes) == [Request(key, Some(content))];
      forall other | other != key ensures Lookup(r.hub.mem.records, other) == Lookup(before.records, other) {
        assert Untouched(Requests(hub.identity, changes), other);
      }
      if Dead(Lookup(before.records, key)) {
        TombstoneKept(before.records, r.hub.mem.records, key);
      } else {
        PostedShows(hub, noted, next, !Present(before, id), changes[0], durability);
      }
    }
  }

  lemma PostedShows(
    hub: Hub, source: Source, next: StoreValue, touched: bool, change: Change, durability: Durability)
    requires OwnerHub(hub) && ValidStore(next) && next.pending == [] && CounterAhead(next)
    requires next.localIdentity == hub.identity && change.content.Some?
    requires !touched ==> next == hub.mem
    requires !Dead(Lookup(next.records, Key(hub.identity, change.instance)))
    requires CommitChanges(hub, source, next, touched, [change], durability).error.None?
    ensures var after := CommitChanges(hub, source, next, touched, [change], durability).hub.mem;
            var record := Lookup(after.records, Key(hub.identity, change.instance));
            record.Some? && record.value.content == change.content
  {
    hide QueueLocal, PhonesOk, ValidStore, CounterAhead, Lookup;
    var key := Key(hub.identity, change.instance);
    var requests := Requests(hub.identity, [change]);
    assert requests == [Request(key, change.content)] && requests[..0] == [];
    assert QueueBatch(next, [], true) == Ok(Queued(next, false));
    QueueShowsRequest(next, key, change.content, true, key);
    var queued := QueueLocal(next, key, change.content, true);
    assert View(next) == next.records;
    QueueOneCarries(next, key, change.content);
    assert View(queued.value.store) == queued.value.store.records;
  }

  // -------------------------------------------------------------- withdrawing

  /** Removing an id ends its lifetime for good and touches nothing else. */
  lemma RemovedLaw(hub: Hub, source: Source, phoneId: string, durability: Durability)
    requires OwnerHub(hub)
    ensures var r := ApplyRemoved(hub, source, phoneId, durability);
            var id, before, after := source.prefix + phoneId, hub.mem, r.hub.mem;
            && OwnerHub(r.hub)
            && (r.error.Some? ==> after == before)
            && (r.error.None? ==>
                  && !Present(after, id)
                  && after.phoneInstances.Keys == before.phoneInstances.Keys
                  && (forall other :: other in after.phoneInstances ==>
                        && after.phoneInstances[other].instance == before.phoneInstances[other].instance
                        && (other != id ==> after.phoneInstances[other] == before.phoneInstances[other]))
                  && Advances(before.records, after.records)
                  && (!Present(before, id) ==> after == before)
                  && (Present(before, id) ==>
                        && Dead(Lookup(after.records, LifetimeKey(before, id)))
                        && forall key :: key != LifetimeKey(before, id) ==>
                             Lookup(after.records, key) == Lookup(before.records, key)))
            && (r.hub.disk == hub.disk || PhonesOk(r.hub.disk))
  {
    hide ValidRecords, ValidOutbox, QueueBatch, Lookup, Advances, CommitChanges, Dead, NamedAfter;
    var id, before := source.prefix + phoneId, hub.mem;
    if Present(before, id) {
      var entry := before.phoneInstances[id];
      var changes := [Change(entry.instance, None)];
      var next := before.(phoneInstances := before.phoneInstances[id := entry.(present := false)]);
      forall other | other in next.phoneInstances ensures EntryPrepared(next, changes, other) {
        assert EntryOk(before, other);
        assert changes[0] == Change(entry.instance, None);
      }
      hide EntryOk, EntryPrepared;
      CommitLaw(hub, source, next, true, changes, durability);
      var after := CommitChanges(hub, source, next, true, changes, durability).hub.mem;
      var requests := Requests(hub.identity, changes);
      assert requests == [Request(LifetimeKey(before, id), None)];
      forall key | key != LifetimeKey(before, id) ensures Untouched(requests, key) {
      }
    } else {
      NetworkOwnerSteps.AdvancesReflexive(before.records);
    }
  }

  ghost predicate Enumerates(order: seq<string>, store: StoreValue) {
    forall id :: id in store.phoneInstances <==> id in order
  }

  lemma {:induction false} WithdrawalsAre(
    store: StoreValue, prefix: string, resent: set<string>, order: seq<string>)
    ensures forall id :: id in order && Gone(store, prefix, resent, id) ==>
              Change(store.phoneInstances[id].instance, None) in Withdrawals(store, prefix, resent, order)
    ensures forall change :: change in Withdrawals(store, prefix, resent, order) ==>
              change.content.None?
              && exists id :: Gone(store, prefix, resent, id) && store.phoneInstances[id].instance == change.instance
  {
    hide Present, HasPrefix;
    if |order| > 0 {
      var last := |order| - 1;
      WithdrawalsAre(store, prefix, resent, order[..last]);
      assert order == order[..last] + [order[last]];
    }
  }

  lemma EndPrepared(store: StoreValue, prefix: string, resent: set<string>, order: seq<string>,
                    imported: map<string, string>)
    requires PhonesOk(store) && Enumerates(order, store)
    ensures Prepared(store.(phoneInstances := Withdrawn(store, prefix, resent), importedPhones := imported),
                     Withdrawals(store, prefix, resent, order))
  {
    hide ValidRecords, ValidOutbox, Lookup, Dead, NamedAfter, HasPrefix;
    var next := store.(phoneInstances := Withdrawn(store, prefix, resent), importedPhones := imported);
    var changes := Withdrawals(store, prefix, resent, order);
    WithdrawalsAre(store, prefix, resent, order);
    forall id | id in next.phoneInstances ensures EntryPrepared(next, changes, id) {
      assert EntryOk(store, id);
      if Gone(store, prefix, resent, id) {
        assert Change(store.phoneInstances[id].instance, None) in changes;
      }
    }
  }

  /** Keys no withdrawn id of this phone stands for. */
  ghost predicate Bystander(store: StoreValue, prefix: string, resent: set<string>, key: Key) {
    forall id :: Gone(store, prefix, resent, id) ==> LifetimeKey(store, id) != key
  }

  /** What a completed snapshot of this phone does to the owner's store. */
  ghost predicate Reconciled(before: StoreValue, prefix: string, resent: set<string>, after: StoreValue) {
    && after.phoneInstances.Keys == before.phoneInstances.Keys
    && (forall id :: Present(after, id) <==>
          Present(before, id) && (HasPrefix(id, prefix) ==> id in resent))
    && (forall id :: id in after.phoneInstances ==>
          && after.phoneInstances[id].instance == before.phoneInstances[id].instance
          && (!HasPrefix(id, prefix) ==> after.phoneInstances[id] == before.phoneInstances[id]))
    && Advances(before.records, after.records)
    && (forall id :: Gone(before, prefix, resent, id) ==>
          Dead(Lookup(after.records, LifetimeKey(before, id))))
    && (forall key :: Bystander(before, prefix, resent, key) ==>
          Lookup(after.records, key) == Lookup(before.records, key))
  }

  lemma CarriedReconciles(
    before: StoreValue, prefix: string, resent: set<string>, order: seq<string>,
    imported: map<string, string>, after: StoreValue)
    requires Enumerates(order, before)
    requires Carried(before.(phoneInstances := Withdrawn(before, prefix, resent), importedPhones := imported),
                     Requests(before.localIdentity, Withdrawals(before, prefix, resent, order)), after)
    ensures Reconciled(before, prefix, resent, after)
  {
    hide ValidStore, Lookup, Advances, Dead, HasPrefix, Withdrawals;
    var changes := Withdrawals(before, prefix, resent, order);
    WithdrawalsAre(before, prefix, resent, order);
    forall id | Gone(before, prefix, resent, id) ensures Dead(Lookup(after.records, LifetimeKey(before, id))) {
      assert Change(before.phoneInstances[id].instance, None) in changes;
      var i :| 0 <= i < |changes| && changes[i] == Change(before.phoneInstances[id].instance, None);
      assert Requests(before.localIdentity, changes)[i] == Request(LifetimeKey(before, id), None);
    }
    forall key | Bystander(before, prefix, resent, key)
      ensures Lookup(after.records, key) == Lookup(before.records, key)
    {
      BystanderUntouched(before, prefix, resent, order, key);
    }
  }

  /**
   A completed snapshot leaves present exactly the ids that were present and, for this
   phone, sent again; what it withdraws is dismissed, and every other record is untouched.
   A snapshot with a failure in it withdraws nothing.
   */
  lemma EndLaw(hub: Hub, source: Source, order: seq<string>, durability: Durability)
    requires OwnerHub(hub) && Enumerates(order, hub.mem)
    ensures var r := ApplyEnd(hub, source, order, durability);
            && OwnerHub(r.hub)
            && r.source.resent.None?
            && (r.error.Some? ==> r.hub.mem == hub.mem)
            && (source.snapshotFailed ==> r.error.Some? && r.hub == hub)
            && (r.error.None? ==>
                  && source.resent.Some?
                  && Reconciled(hub.mem, source.prefix, source.resent.value, r.hub.mem)
                  && r.hub.mem.importedPhones == (if source.name == "" then hub.mem.importedPhones
                                                  else hub.mem.importedPhones[source.prefix := source.name]))
            && (r.hub.disk == hub.disk
                || (PhonesOk(r.hub.disk) && source.resent.Some?
                    && Reconciled(hub.mem, source.prefix, source.resent.value, r.hub.disk)))
  {
    hide ValidRecords, ValidOutbox, QueueBatch, Advances, CommitChanges, EntryOk, EntryPrepared,
         Reconciled, Carried, Withdrawn, Withdrawals, Prepared;
    if source.resent.Some? && !source.snapshotFailed {
      var before, resent := hub.mem, source.resent.value;
      var changes := Withdrawals(before, source.prefix, resent, order);
      var importing := source.name != ""
        && !(source.prefix in before.importedPhones && before.importedPhones[source.prefix] == source.name);
      var imported := if importing then before.importedPhones[source.prefix := source.name]
                      else before.importedPhones;
      var next := before.(phoneInstances := Withdrawn(before, source.prefix, resent),
                          importedPhones := imported);
      EndPrepared(before, source.prefix, resent, order, imported);
      if !importing && changes == [] {
        NothingGone(before, source.prefix, resent, order);
      }
      var r := CommitChanges(hub, source.(resent := None), next, importing || changes != [], changes,
                             durability);
      CommitLaw(hub, source.(resent := None), next, importing || changes != [], changes, durability);
      if r.error.None? {
        CarriedImports(next, Requests(hub.identity, changes), r.hub.mem);
      }
      if Carried(next, Requests(hub.identity, changes), r.hub.mem) {
        CarriedReconciles(before, source.prefix, resent, order, imported, r.hub.mem);
      }
      if Carried(next, Requests(hub.identity, changes), r.hub.disk) {
        CarriedReconciles(before, source.prefix, resent, order, imported, r.hub.disk);
      }
    }
  }

  lemma CarriedImports(store: StoreValue, requests: seq<Request>, next: StoreValue)
    requires Carried(store, requests, next)
    ensures next.importedPhones == store.importedPhones
  {
  }

  lemma NothingGone(store: StoreValue, prefix: string, resent: set<string>, order: seq<string>)
    requires Enumerates(order, store) && Withdrawals(store, prefix, resent, order) == []
    ensures Withdrawn(store, prefix, resent) == store.phoneInstances
  {
    hide HasPrefix;
    WithdrawalsAre(store, prefix, resent, order);
    forall id | id in store.phoneInstances ensures !Gone(store, prefix, resent, id) {
      assert id in order;
    }
  }

  lemma BystanderUntouched(
    store: StoreValue, prefix: string, resent: set<string>, order: seq<string>, key: Key)
    requires Bystander(store, prefix, resent, key)
    ensures Untouched(Requests(store.localIdentity, Withdrawals(store, prefix, resent, order)), key)
  {
    var changes := Withdrawals(store, prefix, resent, order);
    WithdrawalsAre(store, prefix, resent, order);
    forall i | 0 <= i < |changes| ensures Requests(store.localIdentity, changes)[i].key != key {
      assert changes[i] in changes;
    }
  }

  /** What a snapshot withdraws is never another phone's notification. */
  lemma OtherPhonesAreBystanders(store: StoreValue, prefix: string, resent: set<string>, id: string)
    requires PhonesOk(store) && id in store.phoneInstances && !HasPrefix(id, prefix)
    ensures Bystander(store, prefix, resent, LifetimeKey(store, id))
  {
  }
}
