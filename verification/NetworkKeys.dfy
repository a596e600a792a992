/** Nothing a machine knows of is ever forgotten, and what follows when that is too much. */
module NetworkKeys {
  import opened Types
  import opened StoreSpec
  import opened OverlayLaws
  import opened LinkSpec
  import opened Network
  import opened NetworkInvariant
  import opened NetworkRuns
  import opened NetworkTombstones

  /** The keys a store's records and outbox name. */
  function Named(store: StoreValue): set<Key> {
    KeySet(store.records) + PendingKeys(store.pending)
  }

  lemma KnownKey(records: seq<Record>, key: Key)
    ensures key in KeySet(records) <==> Lookup(records, key).Some?
  {
    if Lookup(records, key).Some? {
      assert records[IndexOf(records, key)].key == key;
    }
  }

  lemma KeysStay(a: seq<Record>, b: seq<Record>)
    requires Within(a, b)
    ensures KeySet(a) <= KeySet(b)
  {
    hide KeySet;
    forall key | key in KeySet(a) ensures key in KeySet(b) {
      KnownKey(a, key);
      KnownWithin(a, b, key);
      KnownKey(b, key);
    }
  }

  /** A replica's committed records never lose a key, its own or anyone's, in memory or on disk. */
  lemma RecordKeysStay(s: System, steps: seq<Step>, more: seq<Step>)
    requires Init(s)
    ensures var u, t := Run(s, steps), Run(s, steps + more);
            && KeySet(u.replica.mem.records) <= KeySet(t.replica.mem.records)
            && KeySet(t.replica.mem.records) <= KeySet(t.replica.disk.records)
  {
    hide Init, Run, Within, KeySet, OwnerStores, ReplicaStore, AcceptedOk, DiskOutboxOk, Authentic, UplinkOk,
         SessionOk;
    InitHolds(s);
    RunKeeps(s, steps);
    RunKeeps(s, steps + more);
    RunConcat(s, steps, more);
    var u, t := Run(s, steps), Run(s, steps + more);
    RunWithin(u, more);
    KeysStay(u.replica.mem.records, t.replica.mem.records);
    KeysStay(t.replica.mem.records, t.replica.disk.records);
  }

  lemma CoveredIsNamed(store: StoreValue, ownerRecords: seq<Record>, op: Operation)
    requires Covered(op, store, ownerRecords)
    ensures op.key in Named(store)
  {
    KnownKey(store.records, op.key);
    hide Lookup, KeySet;
    if PendingCovers(store.pending, op) {
      var i :| 0 <= i < |store.pending| && Replaces(store.pending[i], op);
      assert store.pending[i].key == op.key;
    }
  }

  /** Nor does the replica forget what only its outbox names. */
  lemma NamedStays(s: System, steps: seq<Step>, more: seq<Step>)
    requires Init(s)
    ensures Named(Run(s, steps).replica.mem) <= Named(Run(s, steps + more).replica.mem)
  {
    hide Init, Run, KeySet, Covered, OwnerStores, DiskOutboxOk, Authentic, UplinkOk, SessionOk, OwnOperation,
         ValidStore, Within;
    RecordKeysStay(s, steps, more);
    RunConcat(s, steps, more);
    AcceptedForever(Run(s, steps), more);
    InitHolds(s);
    RunKeeps(s, steps);
    RunKeeps(s, steps + more);
    var u, t := Run(s, steps), Run(s, steps + more);
    forall key | key in Named(u.replica.mem) ensures key in Named(t.replica.mem) {
      if key !in KeySet(u.replica.mem.records) {
        var i :| 0 <= i < |u.replica.mem.pending| && u.replica.mem.pending[i].key == key;
        CoveredIsNamed(t.replica.mem, t.owner.mem.records, u.replica.mem.pending[i]);
      }
    }
  }

  /** What a view shows in any way is named. */
  lemma ShownIsNamed(store: StoreValue, key: Key)
    requires Lookup(View(store), key).Some?
    ensures key in Named(store)
  {
    KnownKey(View(store), key);
    hide Overlay, Lookup, KeySet, PendingKeys;
    OverlayKeys(store.records, store.localIdentity, store.pending);
  }

  /** A key a store names is missing from its view only where the keys do not fit. */
  lemma MissingMeansCrowded(store: StoreValue, key: Key)
    requires ValidStore(store) && key in Named(store) && Lookup(View(store), key).None?
    ensures |Named(store)| > MAX_RECORDS
  {
    KnownKey(store.records, key);
    hide ValidStore, View, Lookup, KeySet;
    var i := PendingIndex(store.pending, key);
    if i < 0 {
      ViewWithoutPending(store, key);
    } else {
      ViewWithPending(store, key);
      if |Named(store)| <= MAX_RECORDS {
        OverlayHasRoom(store, i);
      }
    }
  }

  lemma FirstKey(first: Operation, rest: seq<Operation>)
    ensures PendingKeys([first] + rest) == {first.key} + PendingKeys(rest)
  {
    var all := [first] + rest;
    forall key | key in PendingKeys(rest) ensures key in PendingKeys(all) {
      var i :| 0 <= i < |rest| && rest[i].key == key;
      assert all[i + 1].key == key;
    }
    assert all[0].key in PendingKeys(all);
  }

  lemma {:induction false} RetainedKeys(pending: seq<Operation>, key: Key)
    ensures PendingKeys(pending) <= PendingKeys(WithoutKey(pending, key)) + {key}
  {
    if |pending| > 0 {
      RetainedKeys(pending[1..], key);
      assert pending == [pending[0]] + pending[1..];
      FirstKey(pending[0], pending[1..]);
      FirstKey(pending[0], WithoutKey(pending[1..], key));
      hide PendingKeys;
    }
  }

  /** A machine that queues its changes accepts none when its keys do not fit. */
  lemma CrowdedRefuses(store: StoreValue, key: Key, content: Option<Content>)
    requires ValidStore(store) && |Named(store)| > MAX_RECORDS
    ensures var queued := QueueLocal(store, key, content, false);
            queued.Err? || queued == Ok(Queued(store, false))
  {
    hide QueueLocal, Refusal, KeySet, PendingKeys, WithoutKey;
    if QueueLocal(store, key, content, false).Ok? {
      QueueCases(store, key, content, false);
      if QueueLocal(store, key, content, false).value.changed {
        var rest := WithoutKey(store.pending, key);
        RetainedKeys(store.pending, key);
        PendingKeysSize(rest);
        KeySetSize(store.records);
        SubsetSize(Named(store), KeySet(store.records) + PendingKeys(rest) + {key});
        assert false;
      }
    }
  }

  /**
   Once a replica's records and outbox name more keys than fit, it accepts no change of its
   own ever again, in no session and after no crash.
   */
  lemma CrowdedForGood(s: System, steps: seq<Step>, more: seq<Step>, key: Key, content: Option<Content>)
    requires Init(s) && |Named(Run(s, steps).replica.mem)| > MAX_RECORDS
    ensures var store := Run(s, steps + more).replica.mem;
            var queued := QueueLocal(store, key, content, false);
            queued.Err? || queued == Ok(Queued(store, false))
  {
    hide Init, Run, Named, QueueLocal, CounterAhead, ValidStore;
    NamedStays(s, steps, more);
    ReplicaCounterAhead(s, steps + more);
    SubsetSize(Named(Run(s, steps).replica.mem), Named(Run(s, steps + more).replica.mem));
    CrowdedRefuses(Run(s, steps + more).replica.mem, key, content);
  }
}
