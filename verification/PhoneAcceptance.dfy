/** When phone events succeed: what a single one needs, and that a clean snapshot goes through. */
module PhoneAcceptance {
  import opened Types
  import opened StoreSpec
  import opened OverlayLaws
  import opened LinkSpec
  import opened PhoneSpec
  import opened PhoneLaws
  import opened PhoneSnapshots

  // ------------------------------------------------------------ single events

  /** A change goes through: it is shown already, or there is a number and room for it. */
  predicate GoesThrough(store: StoreValue, key: Key, content: Option<Content>, coordinator: bool) {
    || !IsNews(store, key, content)
    || (store.sequence < MAX_U64 && MayQueue(store, key, content) && RoomFor(store, key, coordinator))
  }

  /** The lifetime a post belongs to. */
  function PostKey(hub: Hub, id: string, token: string): Key {
    Key(hub.identity, if Present(hub.mem, id) then hub.mem.phoneInstances[id].instance else id + "/" + token)
  }

  lemma OneChange(store: StoreValue, key: Key, content: Option<Content>, coordinator: bool)
    ensures QueueBatch(store, [Request(key, content)], coordinator) == QueueLocal(store, key, content, coordinator)
  {
    hide QueueLocal;
    assert [Request(key, content)][..0] == [];
  }

  /** Lifetimes are no part of the history. */
  lemma LifetimesDoNotMatter(
    store: StoreValue, phones: map<string, PhoneInstance>, key: Key, content: Option<Content>, coordinator: bool)
    ensures var other := store.(phoneInstances := phones);
            && IsNews(other, key, content) == IsNews(store, key, content)
            && GoesThrough(other, key, content, coordinator) == GoesThrough(store, key, content, coordinator)
  {
    hide Overlay, Lookup, WithoutKey;
  }

  /**
   A post succeeds exactly when the snapshot and the known ids have room for its id, its
   lifetime's change goes through, and the write is confirmed if there is anything to write.
   */
  lemma PostAcceptedExactlyWhen(
    hub: Hub, source: Source, phoneId: string, content: Content, token: string, durability: Durability)
    requires hub.identity == hub.mem.localIdentity
    ensures var id := source.prefix + phoneId;
            var key := PostKey(hub, id, token);
            ApplyPosted(hub, source, phoneId, content, token, durability).error.None?
              <==>
            (&& !(source.resent.Some? && |source.resent.value| >= MAX_RECORDS && id !in source.resent.value)
             && (id in hub.mem.phoneInstances || |hub.mem.phoneInstances| < MAX_RECORDS)
             && GoesThrough(hub.mem, key, Some(content), IsCoordinator(hub))
             && (durability.Committed? || (Present(hub.mem, id) && !IsNews(hub.mem, key, Some(content)))))
  {
    hide QueueLocal, QueueBatch, IsNews, GoesThrough, IsCoordinator;
    var id := source.prefix + phoneId;
    var key, next := PostKey(hub, id, token), PostedInto(hub.mem, id, token);
    var coordinator := IsCoordinator(hub);
    assert Requests(hub.identity, [Change(key.instance, Some(content))]) == [Request(key, Some(content))];
    OneChange(next, key, Some(content), coordinator);
    OneResult(next, key, Some(content), coordinator);
    LifetimesDoNotMatter(hub.mem, next.phoneInstances, key, Some(content), coordinator);
  }

  lemma OneResult(store: StoreValue, key: Key, content: Option<Content>, coordinator: bool)
    ensures var r := QueueLocal(store, key, content, coordinator);
            && (r.Ok? <==> GoesThrough(store, key, content, coordinator))
            && (r.Ok? ==> (r.value.changed <==> IsNews(store, key, content)))
  {
    ChangeAcceptedExactlyWhen(store, key, content, coordinator);
    hide QueueLocal, IsNews, MayQueue, RoomFor;
  }

  /** A removal succeeds exactly when there is nothing to remove, or it goes through and is written. */
  lemma RemovalAcceptedExactlyWhen(hub: Hub, source: Source, phoneId: string, durability: Durability)
    requires hub.identity == hub.mem.localIdentity
    ensures var id := source.prefix + phoneId;
            ApplyRemoved(hub, source, phoneId, durability).error.None?
              <==>
            (Present(hub.mem, id) ==>
               && GoesThrough(hub.mem, Key(hub.identity, hub.mem.phoneInstances[id].instance), None,
                              IsCoordinator(hub))
               && durability.Committed?)
  {
    hide QueueLocal, QueueBatch, IsNews, GoesThrough, IsCoordinator;
    var id := source.prefix + phoneId;
    if Present(hub.mem, id) {
      var entry := hub.mem.phoneInstances[id];
      var key := Key(hub.identity, entry.instance);
      var phones := hub.mem.phoneInstances[id := entry.(present := false)];
      var next := hub.mem.(phoneInstances := phones);
      assert Requests(hub.identity, [Change(entry.instance, None)]) == [Request(key, None)];
      OneChange(next, key, None, IsCoordinator(hub));
      OneResult(next, key, None, IsCoordinator(hub));
      LifetimesDoNotMatter(hub.mem, phones, key, None, IsCoordinator(hub));
    }
  }

  // ----------------------------------------------------------- whole snapshots

  /** A start inside a snapshot and an end outside one are errors that leave the hub alone. */
  lemma MisplacedMarkers(hub: Hub, source: Source, order: seq<string>, durability: Durability)
    ensures source.resent.Some? ==>
              PhoneApply(hub, source, PhoneSnapshotStart, "", order, durability)
                == PhoneOutcome(source.(snapshotFailed := true), hub, Some(NestedSnapshot))
    ensures source.resent.None? ==>
              PhoneApply(hub, source, PhoneSnapshotEnd, "", order, durability)
                == PhoneOutcome(source, hub, Some(EndWithoutStart))
  {
  }

  /** Some event of the session came back with an error. */
  ghost predicate SomethingFailed(start: Progress, turns: seq<Turn>) {
    exists i :: 0 <= i < |turns| && FailedAt(start, turns, i)
  }

  ghost predicate FailedAt(start: Progress, turns: seq<Turn>, i: nat)
    requires i < |turns|
  {
    var p := Continue(start, turns[..i]);
    && turns[i].Sent?
    && PhoneApply(p.hub, p.source, turns[i].event, turns[i].token, [], turns[i].durability).error.Some?
  }

  /** The mark of a running snapshot says exactly whether something in it failed. */
  lemma {:induction false} FlagIsFailure(start: Progress, turns: seq<Turn>)
    requires start.source.resent.Some? && !start.source.snapshotFailed && Inside(turns)
    ensures var s := Continue(start, turns).source;
            && s.resent.Some? && s.name == start.source.name && s.prefix == start.source.prefix
            && (s.snapshotFailed <==> SomethingFailed(start, turns))
  {
    hide PhoneApply;
    if |turns| > 0 {
      var last := |turns| - 1;
      var front := turns[..last];
      FlagIsFailure(start, front);
      var before := Continue(start, front);
      if turns[last].Sent? {
        EventKeepsFailure(before.hub, before.source, turns[last].event, turns[last].token, turns[last].durability);
      }
      forall i | 0 <= i < last ensures FailedAt(start, turns, i) <==> FailedAt(start, front, i) {
        assert turns[..i] == front[..i];
      }
      FailedLast(start, turns);
    }
  }

  lemma FailedLast(start: Progress, turns: seq<Turn>)
    requires |turns| > 0
    requires forall i :: 0 <= i < |turns| - 1 ==>
               (FailedAt(start, turns, i) <==> FailedAt(start, turns[..|turns| - 1], i))
    ensures SomethingFailed(start, turns) <==>
              SomethingFailed(start, turns[..|turns| - 1]) || FailedAt(start, turns, |turns| - 1)
  {
    hide FailedAt;
    var last := |turns| - 1;
    var front := turns[..last];
    if SomethingFailed(start, front) {
      var i :| 0 <= i < last && FailedAt(start, front, i);
      assert FailedAt(start, turns, i);
    }
    if SomethingFailed(start, turns) {
      var i :| 0 <= i <= last && FailedAt(start, turns, i);
      if i < last { assert FailedAt(start, front, i); }
    }
  }

  /** Queueing never reports an incomplete snapshot. */
  lemma {:induction false} BatchError(store: StoreValue, requests: seq<Request>, coordinator: bool)
    ensures QueueBatch(store, requests, coordinator) != Err(PhoneSnapshotIncomplete)
  {
    hide QueueLocal;
    if |requests| > 0 {
      var front, last := requests[..|requests| - 1], requests[|requests| - 1];
      BatchError(store, front, coordinator);
      if QueueBatch(store, front, coordinator).Ok? {
        ChangeAcceptedExactlyWhen(QueueBatch(store, front, coordinator).value.store, last.key, last.content,
                                  coordinator);
      }
    }
  }

  lemma EndIncomplete(hub: Hub, source: Source, order: seq<string>, durability: Durability)
    requires source.resent.Some?
    ensures (PhoneApply(hub, source, PhoneSnapshotEnd, "", order, durability).error == Some(PhoneSnapshotIncomplete))
              == source.snapshotFailed
  {
    hide QueueBatch, Withdrawals, Withdrawn, Requests;
    var changes := Withdrawals(hub.mem, source.prefix, source.resent.value, order);
    forall store: StoreValue {
      BatchError(store, Requests(hub.identity, changes), IsCoordinator(hub));
    }
  }

  /**
   Every snapshot starts clean. Whatever earlier snapshots did, the end of this one is
   reported incomplete exactly when one of the events sent in it had failed.
   */
  lemma SnapshotFailsExactlyWhen(
    hub: Hub, source: Source, turns: seq<Turn>, order: seq<string>, durability: Durability)
    requires source.resent.None? && Inside(turns)
    ensures var started := PhoneApply(hub, source, PhoneSnapshotStart, "", [], durability);
            var start := Progress(started.hub, started.source);
            var p := Continue(start, turns);
            && started.error.None? && started.hub == hub
            && var error := PhoneApply(p.hub, p.source, PhoneSnapshotEnd, "", order, durability).error;
               error == Some(PhoneSnapshotIncomplete) <==> SomethingFailed(start, turns)
  {
    hide Continue, SomethingFailed, Inside, ApplyEnd;
    var start := Progress(hub, source.(resent := Some({}), snapshotFailed := false));
    FlagIsFailure(start, turns);
    EndIncomplete(Continue(start, turns).hub, Continue(start, turns).source, order, durability);
  }

  // --------------------------------------------------- the end on the owner's machine

  ghost predicate KnownRemovals(store: StoreValue, requests: seq<Request>) {
    forall i :: 0 <= i < |requests| ==>
      requests[i].content.None? && Lookup(store.records, requests[i].key).Some?
  }

  lemma KnownRemovalAccepted(store: StoreValue, key: Key)
    requires ValidStore(store) && store.pending == [] && Lookup(store.records, key).Some?
    requires store.sequence < MAX_U64
    ensures QueueLocal(store, key, None, true).Ok?
    ensures QueueLocal(store, key, None, true).value.store.sequence <= store.sequence + 1
  {
    var i := IndexOf(store.records, key);
    assert ValidRecord(store.records[i]);
    hide ValidOrigin, ValidInstance, Overlay;
    ChangeAcceptedExactlyWhen(store, key, None, true);
    hide QueueLocal;
  }

  /** An owner can always withdraw what it knows, as long as its counter lasts. */
  lemma {:induction false} KnownRemovalsAccepted(store: StoreValue, requests: seq<Request>)
    requires ValidStore(store) && store.pending == [] && CounterAhead(store)
    requires KnownRemovals(store, requests) && store.sequence + |requests| <= MAX_U64
    ensures QueueBatch(store, requests, true).Ok?
    ensures QueueBatch(store, requests, true).value.store.sequence <= store.sequence + |requests|
  {
    hide ValidStore, QueueLocal, Lookup, CounterAhead;
    if |requests| > 0 {
      var front, last := requests[..|requests| - 1], requests[|requests| - 1];
      KnownRemovalsAccepted(store, front);
      BatchCarries(store, front);
      var middle := QueueBatch(store, front, true).value.store;
      RecordKept(store.records, middle.records, last.key);
      KnownRemovalAccepted(middle, last.key);
    }
  }

  lemma WithdrawalsKnown(store: StoreValue, prefix: string, resent: set<string>, order: seq<string>)
    requires PhonesOk(store)
    ensures KnownRemovals(store, Requests(store.localIdentity, Withdrawals(store, prefix, resent, order)))
  {
    hide ValidStore, CounterAhead, NamedAfter, HasPrefix, Lookup;
    var changes := Withdrawals(store, prefix, resent, order);
    WithdrawalsAre(store, prefix, resent, order);
    forall i | 0 <= i < |changes|
      ensures changes[i].content.None?
      ensures Lookup(store.records, Key(store.localIdentity, changes[i].instance)).Some?
    {
      assert changes[i] in changes;
      var id :| Gone(store, prefix, resent, id) && store.phoneInstances[id].instance == changes[i].instance;
      assert EntryOk(store, id);
    }
  }

  lemma {:induction false} WithdrawalsCount(
    store: StoreValue, prefix: string, resent: set<string>, order: seq<string>)
    ensures |Withdrawals(store, prefix, resent, order)| <= |order|
  {
    hide Gone;
    if |order| > 0 {
      WithdrawalsCount(store, prefix, resent, order[..|order| - 1]);
    }
  }

  /** Room to remember that this phone's history was imported. */
  predicate ImportsHaveRoom(store: StoreValue, source: Source) {
    source.name == "" || source.prefix in store.importedPhones || |store.importedPhones| < MAX_RECORDS
  }

  lemma CleanEndSucceeds(hub: Hub, source: Source, order: seq<string>)
    requires OwnerHub(hub) && source.resent.Some? && !source.snapshotFailed
    requires ImportsHaveRoom(hub.mem, source) && hub.mem.sequence + |order| <= MAX_U64
    ensures ApplyEnd(hub, source, order, Committed).error.None?
  {
    var mem, resent := hub.mem, source.resent.value;
    var changes := Withdrawals(mem, source.prefix, resent, order);
    var importing := source.name != ""
      && !(source.prefix in mem.importedPhones && mem.importedPhones[source.prefix] == source.name);
    var next := mem.(phoneInstances := Withdrawn(mem, source.prefix, resent),
                     importedPhones := if importing then mem.importedPhones[source.prefix := source.name]
                                       else mem.importedPhones);
    WithdrawalsKnown(mem, source.prefix, resent, order);
    WithdrawalsCount(mem, source.prefix, resent, order);
    hide EntryOk, QueueBatch, Withdrawals, Withdrawn, Lookup, ValidRecords, ValidOutbox;
    KnownRemovalsAccepted(next, Requests(hub.identity, changes));
  }

  /**
   A phone's snapshot goes through on the owner's machine whenever nothing in it failed,
   the imports have room, the counter lasts for the withdrawals and the write is confirmed.
   */
  lemma CleanSnapshotSucceeds(hub: Hub, source: Source, turns: seq<Turn>, order: seq<string>)
    requires OwnerHub(hub) && source.resent.None? && Inside(turns)
    requires var start := Progress(hub, source.(resent := Some({}), snapshotFailed := false));
             && Minded(start, turns) && !SomethingFailed(start, turns)
             && ImportsHaveRoom(Continue(start, turns).hub.mem, source)
             && Continue(start, turns).hub.mem.sequence + |order| <= MAX_U64
    ensures var started := PhoneApply(hub, source, PhoneSnapshotStart, "", [], Committed);
            var p := Continue(Progress(started.hub, started.source), turns);
            PhoneApply(p.hub, p.source, PhoneSnapshotEnd, "", order, Committed).error.None?
  {
    hide OwnerHub, Continue, Minded, Inside, SomethingFailed, ApplyEnd;
    var start := Progress(hub, source.(resent := Some({}), snapshotFailed := false));
    StartedUnderWay(start);
    SessionKeeps(start, turns);
    FlagIsFailure(start, turns);
    var p := Continue(start, turns);
    CleanEndSucceeds(p.hub, p.source, order);
  }
}
