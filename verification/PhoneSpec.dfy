/**
 Phone notifications entering the shared history: reusable phone ids, the lifetime each one
 currently stands for, and authoritative snapshots.
 */
module PhoneSpec {
  import opened Types
  import opened StoreSpec
  import opened LinkSpec

  datatype PhoneEvent =
    | Posted(id: string, content: Content)
    | Removed(id: string)
    | PhoneSnapshotStart
    | PhoneSnapshotEnd

  /** One phone's input; snapshot membership lives only as long as the session. */
  datatype Source = Source(
    prefix: string,
    name: string,
    resent: Option<set<string>>,
    snapshotFailed: bool)

  datatype Change = Change(instance: string, content: Option<Content>)

  datatype PhoneOutcome = PhoneOutcome(source: Source, hub: Hub, error: Option<Error>)

  /** The changes as requests under this machine's name. */
  function Requests(identity: string, changes: seq<Change>): seq<Request> {
    seq(|changes|, i requires 0 <= i < |changes| =>
      Request(Key(identity, changes[i].instance), changes[i].content))
  }

  /** Commits prepared metadata together with the shared changes that go with it. */
  function CommitChanges(
    hub: Hub, source: Source, next: StoreValue, touched: bool, changes: seq<Change>,
    durability: Durability): (outcome: PhoneOutcome)
    ensures outcome.source == source
  {
    var queued := QueueBatch(next, Requests(hub.identity, changes), IsCoordinator(hub));
    if queued.Err? then PhoneOutcome(source, hub, Some(queued.error))
    else if touched || queued.value.changed then
      PhoneOutcome(source, Commit(hub, queued.value.store, durability),
                   if durability.Committed? then None else Some(PersistFailed))
    else PhoneOutcome(source, hub, None)
  }

  predicate Present(store: StoreValue, id: string) {
    id in store.phoneInstances && store.phoneInstances[id].present
  }

  predicate HasPrefix(text: string, prefix: string) {
    |prefix| <= |text| && text[..|prefix|] == prefix
  }

  function ApplyPosted(
    hub: Hub, source: Source, phoneId: string, content: Content, token: string,
    durability: Durability): PhoneOutcome
  {
    var id := source.prefix + phoneId;
    if source.resent.Some? && |source.resent.value| >= MAX_RECORDS && id !in source.resent.value then
      PhoneOutcome(source, hub, Some(PhoneSnapshotFull))
    else
      var noted := if source.resent.Some?
                   then source.(resent := Some(source.resent.value + {id})) else source;
      if Present(hub.mem, id) then
        CommitChanges(hub, noted, hub.mem, false,
                      [Change(hub.mem.phoneInstances[id].instance, Some(content))], durability)
      else if id !in hub.mem.phoneInstances && |hub.mem.phoneInstances| >= MAX_RECORDS then
        PhoneOutcome(noted, hub, Some(PhoneIdentitiesFull))
      else
        var instance := id + "/" + token;
        CommitChanges(hub, noted,
                      hub.mem.(phoneInstances := hub.mem.phoneInstances[id := PhoneInstance(instance, true)]),
                      true, [Change(instance, Some(content))], durability)
  }

  function ApplyRemoved(hub: Hub, source: Source, phoneId: string, durability: Durability): PhoneOutcome {
    var id := source.prefix + phoneId;
    if Present(hub.mem, id) then
      var entry := hub.mem.phoneInstances[id];
      CommitChanges(hub, source,
                    hub.mem.(phoneInstances := hub.mem.phoneInstances[id := entry.(present := false)]),
                    true, [Change(entry.instance, None)], durability)
    else PhoneOutcome(source, hub, None)
  }

  /** This phone's ids that are present but were not sent again. */
  predicate Gone(store: StoreValue, prefix: string, resent: set<string>, id: string) {
    Present(store, id) && HasPrefix(id, prefix) && id !in resent
  }

  function Withdrawn(
    store: StoreValue, prefix: string, resent: set<string>): map<string, PhoneInstance>
  {
    map id | id in store.phoneInstances ::
      if Gone(store, prefix, resent, id) then store.phoneInstances[id].(present := false)
      else store.phoneInstances[id]
  }

  function Withdrawals(
    store: StoreValue, prefix: string, resent: set<string>, order: seq<string>): seq<Change>
  {
    if |order| == 0 then []
    else
      var last := |order| - 1;
      var before := Withdrawals(store, prefix, resent, order[..last]);
      if Gone(store, prefix, resent, order[last]) then
        before + [Change(store.phoneInstances[order[last]].instance, None)]
      else before
  }

  /** `order` lists the known phone ids in the order the map yields them. */
  function ApplyEnd(hub: Hub, source: Source, order: seq<string>, durability: Durability): PhoneOutcome {
    if source.resent.None? then PhoneOutcome(source, hub, Some(EndWithoutStart))
    else
      var resent, done := source.resent.value, source.(resent := None);
      var importing :=
        && !source.snapshotFailed && source.name != ""
        && !(source.prefix in hub.mem.importedPhones
             && hub.mem.importedPhones[source.prefix] == source.name);
      if importing && source.prefix !in hub.mem.importedPhones
         && |hub.mem.importedPhones| >= MAX_RECORDS then
        PhoneOutcome(done, hub, Some(PhoneImportsFull))
      else if source.snapshotFailed then PhoneOutcome(done, hub, Some(PhoneSnapshotIncomplete))
      else
        var changes := Withdrawals(hub.mem, source.prefix, resent, order);
        CommitChanges(
          hub, done,
          hub.mem.(
            phoneInstances := Withdrawn(hub.mem, source.prefix, resent),
            importedPhones := if importing then hub.mem.importedPhones[source.prefix := source.name]
                              else hub.mem.importedPhones),
          importing || changes != [], changes, durability)
  }

  function ApplyInner(
    hub: Hub, source: Source, event: PhoneEvent, token: string, order: seq<string>,
    durability: Durability): PhoneOutcome
  {
    match event
    case PhoneSnapshotStart =>
      if source.resent.Some? then PhoneOutcome(source, hub, Some(NestedSnapshot))
      else PhoneOutcome(source.(resent := Some({}), snapshotFailed := false), hub, None)
    case Posted(id, content) => ApplyPosted(hub, source, id, content, token, durability)
    case Removed(id) => ApplyRemoved(hub, source, id, durability)
    case PhoneSnapshotEnd => ApplyEnd(hub, source, order, durability)
  }

  /** Any failure inside a snapshot marks the snapshot as incomplete. */
  function PhoneApply(
    hub: Hub, source: Source, event: PhoneEvent, token: string, order: seq<string>,
    durability: Durability): PhoneOutcome
  {
    var outcome := ApplyInner(hub, source, event, token, order, durability);
    if outcome.error.Some? && outcome.source.resent.Some? then
      outcome.(source := outcome.source.(snapshotFailed := true))
    else outcome
  }
}
