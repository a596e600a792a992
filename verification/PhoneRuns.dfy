/** Phone lifetimes over whole runs of phone events, other commits, failed writes and restarts. */
module PhoneRuns {
  import opened Types
  import opened StoreSpec
  import opened LinkSpec
  import opened PhoneSpec
  import opened PhoneLaws
  import JoinLaws
  import Network
  import NetworkCounters
  import NetworkOwnerSteps

  datatype HubStep =
    | FromPhone(source: Source, event: PhoneEvent, token: string, order: seq<string>,
                durability: Durability)
    | FromPeers(submissions: seq<Submission>, durability: Durability)
    | FromLocal(requests: seq<Request>, durability: Durability)
    | Restart

  /** Peers' operations are accepted one by one; none comes under this machine's name. */
  ghost predicate Possible(hub: Hub, step: HubStep) {
    match step
    case FromPhone(_, event, token, order, _) =>
      NoSlash(token) && (event.PhoneSnapshotEnd? ==> Enumerates(order, hub.mem))
    case FromPeers(submissions, _) =>
      Network.AllAccepted(hub.mem.records, submissions, {hub.identity})
    case FromLocal(requests, _) => BatchStore(hub.mem, requests, None, true).Some?
    case Restart => true
  }

  ghost function After(hub: Hub, step: HubStep): Hub {
    if !Possible(hub, step) then hub
    else
      match step
      case FromPhone(source, event, token, order, durability) =>
        PhoneApply(hub, source, event, token, order, durability).hub
      case FromPeers(submissions, durability) =>
        Commit(hub, hub.mem.(records := Replay(hub.mem.records, submissions)), durability)
      case FromLocal(requests, durability) =>
        Commit(hub, BatchStore(hub.mem, requests, None, true).value, durability)
      case Restart => hub.(mem := hub.disk)
  }

  ghost function RunHub(hub: Hub, steps: seq<HubStep>): Hub {
    if |steps| == 0 then hub
    else After(RunHub(hub, steps[..|steps| - 1]), steps[|steps| - 1])
  }

  /** A present id keeps its lifetime, present or not, from one store to the next. */
  ghost predicate KeepsLifetimes(a: StoreValue, b: StoreValue) {
    && Advances(a.records, b.records)
    && a.localIdentity == b.localIdentity
    && forall id :: Present(a, id) ==>
         id in b.phoneInstances && b.phoneInstances[id].instance == a.phoneInstances[id].instance
  }

  ghost predicate HubOk(hub: Hub) {
    && OwnerHub(hub)
    && PhonesOk(hub.disk)
    && KeepsLifetimes(hub.mem, hub.disk)
  }

  /** Any other commit that only advances the history keeps phones in order. */
  lemma OtherCommitOk(store: StoreValue, next: StoreValue)
    requires PhonesOk(store) && ValidStore(next) && CounterAhead(next) && Advances(store.records, next.records)
    requires next == store.(sequence := next.sequence, records := next.records)
    ensures PhonesOk(next) && KeepsLifetimes(store, next)
  {
    hide ValidRecords, ValidOutbox, CounterAhead, Lookup, NamedAfter;
    forall id | id in next.phoneInstances ensures EntryOk(next, id) {
      assert EntryOk(store, id);
      if next.phoneInstances[id].present {
        RecordKept(store.records, next.records, LifetimeKey(store, id));
      } else {
        TombstoneKept(store.records, next.records, LifetimeKey(store, id));
      }
    }
  }

  lemma PeersOk(store: StoreValue, submissions: seq<Submission>)
    requires PhonesOk(store) && Network.AllAccepted(store.records, submissions, {store.localIdentity})
    ensures var next := store.(records := Replay(store.records, submissions));
            PhonesOk(next) && KeepsLifetimes(store, next)
  {
    hide EntryOk, Replay, CounterAhead;
    JoinLaws.ReplayKeepsValid(store.records, submissions);
    NetworkCounters.ReplayCounts(store, submissions, {store.localIdentity});
    hide Advances, ValidRecords;
    OtherCommitOk(store, store.(records := Replay(store.records, submissions)));
  }

  lemma LocalOk(store: StoreValue, requests: seq<Request>)
    requires PhonesOk(store) && BatchStore(store, requests, None, true).Some?
    ensures var next := BatchStore(store, requests, None, true).value;
            PhonesOk(next) && KeepsLifetimes(store, next)
  {
    hide EntryOk, QueueBatch, CounterAhead, ValidStore, Advances;
    BatchCarries(store, requests);
    OtherCommitOk(store, BatchStore(store, requests, None, true).value);
  }

  /** One phone event: lifetimes are kept, and both memory and disk stay in order. */
  lemma PhoneStepKeeps(
    hub: Hub, source: Source, event: PhoneEvent, token: string, order: seq<string>, durability: Durability)
    requires HubOk(hub) && NoSlash(token)
    requires event.PhoneSnapshotEnd? ==> Enumerates(order, hub.mem)
    ensures var after := PhoneApply(hub, source, event, token, order, durability).hub;
            HubOk(after) && KeepsLifetimes(hub.mem, after.mem)
  {
    hide ValidRecords, ValidOutbox, EntryOk, QueueBatch, Advances;
    NetworkOwnerSteps.AdvancesReflexive(hub.mem.records);
    NetworkOwnerSteps.AdvancesReflexive(hub.disk.records);
    match event
    case PhoneSnapshotStart =>
    case Posted(id, content) =>
      PostedStep(hub, source, id, content, token, durability);
    case Removed(id) =>
      RemovedStep(hub, source, id, durability);
    case PhoneSnapshotEnd =>
      EndStep(hub, source, order, durability);
  }

  lemma CommittedLifetimes(hub: Hub, next: StoreValue, changes: seq<Change>, after: StoreValue)
    requires Carried(next, Requests(hub.identity, changes), after)
    requires next.localIdentity == hub.mem.localIdentity
    requires next == hub.mem.(phoneInstances := next.phoneInstances, importedPhones := next.importedPhones)
    requires forall id :: Present(hub.mem, id) ==>
      id in next.phoneInstances && next.phoneInstances[id].instance == hub.mem.phoneInstances[id].instance
    ensures KeepsLifetimes(hub.mem, after)
  {
    hide ValidStore, Lookup, Advances, Dead, CounterAhead;
  }

  lemma CommitStep(
    hub: Hub, source: Source, next: StoreValue, touched: bool, changes: seq<Change>, durability: Durability)
    requires HubOk(hub) && Prepared(next, changes)
    requires next == hub.mem.(phoneInstances := next.phoneInstances, importedPhones := next.importedPhones)
    requires !touched ==> next == hub.mem
    requires forall id :: Present(hub.mem, id) ==>
      id in next.phoneInstances && next.phoneInstances[id].instance == hub.mem.phoneInstances[id].instance
    ensures var after := CommitChanges(hub, source, next, touched, changes, durability).hub;
            HubOk(after) && KeepsLifetimes(hub.mem, after.mem)
  {
    hide PhonesOk, Carried, Prepared, QueueBatch;
    var r := CommitChanges(hub, source, next, touched, changes, durability);
    CommitLaw(hub, source, next, touched, changes, durability);
    NetworkOwnerSteps.AdvancesReflexive(hub.mem.records);
    NetworkOwnerSteps.AdvancesReflexive(r.hub.mem.records);
    hide Advances;
    if r.error.None? {
      CommittedLifetimes(hub, next, changes, r.hub.mem);
    }
    if r.hub.disk != hub.disk {
      CommittedLifetimes(hub, next, changes, r.hub.disk);
    }
  }

  lemma PostedStep(
    hub: Hub, source: Source, phoneId: string, content: Content, token: string, durability: Durability)
    requires HubOk(hub) && NoSlash(token)
    ensures var after := ApplyPosted(hub, source, phoneId, content, token, durability).hub;
            HubOk(after) && KeepsLifetimes(hub.mem, after.mem)
  {
    hide ValidRecords, ValidOutbox, EntryOk, QueueBatch, CommitChanges, Prepared, NoSlash, Lookup, Dead,
         CounterAhead;
    NetworkOwnerSteps.AdvancesReflexive(hub.mem.records);
    hide Advances;
    var id, before := source.prefix + phoneId, hub.mem;
    var next := PostedInto(before, id, token);
    var changes := [Change(next.phoneInstances[id].instance, Some(content))];
    var noted := if source.resent.Some?
                 then source.(resent := Some(source.resent.value + {id})) else source;
    if Present(before, id) {
      AlreadyPrepared(before, changes);
    } else {
      NewLifetimePrepared(before, id, token, changes);
    }
    CommitStep(hub, noted, next, !Present(before, id), changes, durability);
  }

  lemma RemovedStep(hub: Hub, source: Source, phoneId: string, durability: Durability)
    requires HubOk(hub)
    ensures var after := ApplyRemoved(hub, source, phoneId, durability).hub;
            HubOk(after) && KeepsLifetimes(hub.mem, after.mem)
  {
    hide ValidRecords, ValidOutbox, QueueBatch, Lookup, CommitChanges, Dead, NamedAfter;
    NetworkOwnerSteps.AdvancesReflexive(hub.mem.records);
    hide Advances;
    var id, before := source.prefix + phoneId, hub.mem;
    if Present(before, id) {
      var entry := before.phoneInstances[id];
      var changes := [Change(entry.instance, None)];
      var next := before.(phoneInstances := before.phoneInstances[id := entry.(present := false)]);
      forall other | other in next.phoneInstances ensures EntryPrepared(next, changes, other) {
        assert EntryOk(before, other);
        assert changes[0] == Change(entry.instance, None);
      }
      hide EntryOk, EntryPrepared;
      CommitStep(hub, source, next, true, changes, durability);
    }
  }

  lemma EndStep(hub: Hub, source: Source, order: seq<string>, durability: Durability)
    requires HubOk(hub) && Enumerates(order, hub.mem)
    ensures var after := ApplyEnd(hub, source, order, durability).hub;
            HubOk(after) && KeepsLifetimes(hub.mem, after.mem)
  {
    hide ValidRecords, ValidOutbox, QueueBatch, CommitChanges, EntryOk, EntryPrepared,
         Carried, Withdrawals, Prepared;
    NetworkOwnerSteps.AdvancesReflexive(hub.mem.records);
    hide Advances;
    if source.resent.Some? && !source.snapshotFailed {
      var before, resent := hub.mem, source.resent.value;
      var changes := Withdrawals(before, source.prefix, resent, order);
      var importing := source.name != ""
        && !(source.prefix in before.importedPhones && before.importedPhones[source.prefix] == source.name);
      var imported := if importing then before.importedPhones[source.prefix := source.name]
                      else before.importedPhones;
      var next := before.(phoneInstances := Withdrawn(before, source.prefix, resent),
                          importedPhones := imported);
      EndPrepared(before, source.prefix, resent, order, imported);
      if !importing && changes == [] {
        NothingGone(before, source.prefix, resent, order);
      }
      CommitStep(hub, source.(resent := None), next, importing || changes != [], changes, durability);
    }
  }

  lemma AfterKeeps(hub: Hub, step: HubStep)
    requires HubOk(hub)
    ensures HubOk(After(hub, step)) && KeepsLifetimes(hub.mem, After(hub, step).mem)
  {
    hide PhonesOk, PhoneApply, BatchStore, Replay, Network.AllAccepted, NoSlash;
    NetworkOwnerSteps.AdvancesReflexive(hub.mem.records);
    NetworkOwnerSteps.AdvancesReflexive(hub.disk.records);
    NetworkOwnerSteps.AdvancesReflexive(After(hub, step).mem.records);
    hide Advances;
    if Possible(hub, step) {
      match step
      case FromPhone(source, event, token, order, durability) =>
        PhoneStepKeeps(hub, source, event, token, order, durability);
      case FromPeers(submissions, durability) =>
        PeersOk(hub.mem, submissions);
      case FromLocal(requests, durability) =>
        LocalOk(hub.mem, requests);
      case Restart =>
    }
  }

  /** In every reachable state an id that is not present stands for a dismissed lifetime. */
  lemma {:induction false} PhonesAlwaysOk(hub: Hub, steps: seq<HubStep>)
    requires HubOk(hub)
    ensures HubOk(RunHub(hub, steps))
  {
    hide HubOk, After;
    if |steps| > 0 {
      PhonesAlwaysOk(hub, steps[..|steps| - 1]);
      AfterKeeps(RunHub(hub, steps[..|steps| - 1]), steps[|steps| - 1]);
    }
  }

  /** At some point of the run the phone had withdrawn the id. */
  ghost predicate WasWithdrawn(hub: Hub, steps: seq<HubStep>, id: string) {
    exists k :: 0 <= k <= |steps| && !Present(RunHub(hub, steps[..k]).mem, id)
  }

  /**
   A dismissed phone notification stays dismissed through reposts, updates, reconnect
   snapshots, failed writes and restarts, until the phone itself withdraws the id.
   */
  lemma {:induction false} DismissalSurvivesReposts(hub: Hub, steps: seq<HubStep>, id: string)
    requires HubOk(hub) && Present(hub.mem, id)
    requires Dead(Lookup(hub.mem.records, LifetimeKey(hub.mem, id)))
    ensures var after := RunHub(hub, steps).mem;
            || WasWithdrawn(hub, steps, id)
            || (&& Present(after, id)
                && LifetimeKey(after, id) == LifetimeKey(hub.mem, id)
                && Dead(Lookup(after.records, LifetimeKey(after, id))))
  {
    hide HubOk, After, Lookup, Dead;
    if |steps| > 0 {
      var last := |steps| - 1;
      var front := steps[..last];
      DismissalSurvivesReposts(hub, front, id);
      PhonesAlwaysOk(hub, front);
      var middle, after := RunHub(hub, front), RunHub(hub, steps);
      if WasWithdrawn(hub, front, id) {
        var k :| 0 <= k <= last && !Present(RunHub(hub, front[..k]).mem, id);
        assert front[..k] == steps[..k];
      } else {
        AfterKeeps(middle, steps[last]);
        TombstoneKept(middle.mem.records, after.mem.records, LifetimeKey(middle.mem, id));
        if !Present(after.mem, id) {
          assert steps[..|steps|] == steps;
          assert WasWithdrawn(hub, steps, id);
        }
      }
    }
  }

  /**
   In every reachable state of the owner an accepted post shows exactly what was posted,
   unless the lifetime it belongs to was dismissed before.
   */
  lemma EveryPostShows(
    hub: Hub, steps: seq<HubStep>, source: Source, phoneId: string, content: Content, token: string,
    durability: Durability)
    requires HubOk(hub) && NoSlash(token)
    ensures var before := RunHub(hub, steps);
            var r := PhoneApply(before, source, Posted(phoneId, content), token, [], durability);
            var id, after := source.prefix + phoneId, r.hub.mem;
            r.error.None? ==>
              && Present(after, id)
              && (if Dead(Lookup(before.mem.records, LifetimeKey(after, id))) then
                    Dead(Lookup(View(after), LifetimeKey(after, id)))
                  else
                    Lookup(View(after), LifetimeKey(after, id)).Some?
                    && Lookup(View(after), LifetimeKey(after, id)).value.content == Some(content))
  {
    hide RunHub, ApplyPosted, NoSlash, Lookup, Advances, ValidStore, CounterAhead, EntryOk;
    PhonesAlwaysOk(hub, steps);
    PostedLaw(RunHub(hub, steps), source, phoneId, content, token, durability);
  }

  // ----------------------------------------------- phone events as hub changes

  /** What a phone event has committed: a batch of requests together with phone metadata. */
  lemma EventIsChange(
    hub: Hub, source: Source, event: PhoneEvent, token: string, order: seq<string>, durability: Durability)
    returns (requests: seq<Request>, metadata: Option<Metadata>)
    ensures var next := BatchStore(hub.mem, requests, metadata, IsCoordinator(hub));
            PhoneApply(hub, source, event, token, order, durability).hub
              == if next.None? then hub else Commit(hub, next.value, durability)
  {
    hide QueueLocal, Requests, Withdrawals, Withdrawn;
    requests, metadata := [], None;
    var mem := hub.mem;
    match event
    case PhoneSnapshotStart =>
    case Posted(phoneId, content) =>
      var id := source.prefix + phoneId;
      var next := PostedInto(mem, id, token);
      if Present(mem, id) || id in mem.phoneInstances || |mem.phoneInstances| < MAX_RECORDS {
        if !(source.resent.Some? && |source.resent.value| >= MAX_RECORDS && id !in source.resent.value) {
          requests := Requests(hub.identity, [Change(next.phoneInstances[id].instance, Some(content))]);
          metadata := if Present(mem, id) then None
                      else Some(Metadata(next.phoneInstances, mem.importedPhones));
        }
      }
    case Removed(phoneId) =>
      var id := source.prefix + phoneId;
      if Present(mem, id) {
        var entry := mem.phoneInstances[id];
        requests := Requests(hub.identity, [Change(entry.instance, None)]);
        metadata := Some(Metadata(mem.phoneInstances[id := entry.(present := false)], mem.importedPhones));
      }
    case PhoneSnapshotEnd =>
      requests, metadata := EndIsChange(hub, source, order, durability);
  }

  lemma EndIsChange(hub: Hub, source: Source, order: seq<string>, durability: Durability)
    returns (requests: seq<Request>, metadata: Option<Metadata>)
    ensures var next := BatchStore(hub.mem, requests, metadata, IsCoordinator(hub));
            ApplyEnd(hub, source, order, durability).hub
              == if next.None? then hub else Commit(hub, next.value, durability)
  {
    hide QueueLocal, Withdrawals, Withdrawn;
    requests, metadata := [], None;
    if source.resent.Some? && !source.snapshotFailed {
      var mem, resent := hub.mem, source.resent.value;
      var importing := source.name != ""
        && !(source.prefix in mem.importedPhones && mem.importedPhones[source.prefix] == source.name);
      if !(importing && source.prefix !in mem.importedPhones && |mem.importedPhones| >= MAX_RECORDS) {
        var changes := Withdrawals(mem, source.prefix, resent, order);
        if importing || changes != [] {
          requests := Requests(hub.identity, changes);
          metadata := Some(Metadata(
            Withdrawn(mem, source.prefix, resent),
            if importing then mem.importedPhones[source.prefix := source.name] else mem.importedPhones));
        } else {
          assert Requests(hub.identity, changes) == [];
        }
      }
    }
  }

  /**
   Phone events are steps of the replicated system, on either machine: what one does to its
   hub is a local change of that hub, so every guarantee about runs covers phones.
   */
  lemma EventIsStep(
    s: Network.System, atOwner: bool, source: Source, event: PhoneEvent, token: string,
    order: seq<string>, durability: Durability)
    returns (step: Network.Step)
    requires IsCoordinator(s.owner) && !IsCoordinator(s.replica)
    ensures (if atOwner then step.OwnerLocal? else step.LocalChange?) && step.durability == durability
    ensures var t := Network.Next(s, step);
            if atOwner then
              t.owner == PhoneApply(s.owner, source, event, token, order, durability).hub && t.replica == s.replica
            else
              t.replica == PhoneApply(s.replica, source, event, token, order, durability).hub && t.owner == s.owner
  {
    hide PhoneApply, BatchStore;
    var requests, metadata :=
      EventIsChange(if atOwner then s.owner else s.replica, source, event, token, order, durability);
    step := if atOwner then Network.OwnerLocal(requests, metadata, durability)
            else Network.LocalChange(requests, metadata, durability);
  }
}
