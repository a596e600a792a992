/** Sequence numbers at both ends: a local change is always newer than what it replaces. */
module NetworkCounters {
  import opened Types
  import opened StoreSpec
  import opened OverlayLaws
  import opened LinkSpec
  import opened Network
  import opened NetworkInvariant
  import opened NetworkOwnerSteps
  import opened NetworkRuns
  import NetworkOwnerReceives

  ghost predicate OwnerCounts(s: System) {
    CounterAhead(s.owner.mem) && CounterAhead(s.owner.disk)
  }

  /** Nobody else can put live content under a machine's own name. */
  lemma ForeignCounts(store: StoreValue, sender: string, op: Operation)
    requires CounterAhead(store) && sender != store.localIdentity
    ensures CounterAhead(store.(records := Attempt(store.records, sender, op)))
  {
  }

  lemma {:induction false} ReplayCounts(store: StoreValue, submissions: seq<Submission>, others: set<string>)
    requires CounterAhead(store) && store.localIdentity in others
    requires AllAccepted(store.records, submissions, others)
    ensures CounterAhead(store.(records := Replay(store.records, submissions)))
  {
    hide CounterAhead, Attempt, Apply;
    if |submissions| > 0 {
      var last := |submissions| - 1;
      ReplayCounts(store, submissions[..last], others);
      ForeignCounts(store.(records := Replay(store.records, submissions[..last])),
                    submissions[last].sender, submissions[last].operation);
    } else {
      assert store.(records := Replay(store.records, submissions)) == store;
    }
  }

  lemma {:induction false} BatchCounts(store: StoreValue, requests: seq<Request>)
    requires ValidStore(store) && store.pending == [] && CounterAhead(store)
    requires QueueBatch(store, requests, true).Ok?
    ensures var next := QueueBatch(store, requests, true).value.store;
            ValidStore(next) && next.pending == [] && CounterAhead(next)
  {
    hide ValidStore, CounterAhead, QueueLocal;
    if |requests| > 0 {
      var front, last := requests[..|requests| - 1], requests[|requests| - 1];
      BatchCounts(store, front);
      var middle := QueueBatch(store, front, true).value.store;
      QueueShowsRequest(middle, last.key, last.content, true, last.key);
      OwnerOutboxUnused(middle, last.key, last.content);
    }
  }

  lemma OwnerOutboxUnused(store: StoreValue, key: Key, content: Option<Content>)
    requires QueueLocal(store, key, content, true).Ok?
    ensures QueueLocal(store, key, content, true).value.store.pending == store.pending
  {
    hide View, Lookup, Apply, ValidOrigin, ValidInstance, ValidContent;
  }

  lemma OwnerLocalCounts(
    s: System, requests: seq<Request>, metadata: Option<Metadata>, durability: Durability)
    requires Inv(s) && OwnerCounts(s)
    ensures OwnerCounts(DoOwnerLocal(s, requests, metadata, durability))
  {
    hide Inv, QueueBatch, ValidStore;
    if BatchStore(s.owner.mem, requests, metadata, true).Some? {
      OwnerRecords(s);
      MetadataValid(s.owner.mem, metadata);
      BatchCounts(WithMetadata(s.owner.mem, metadata), requests);
    }
  }

  lemma OwnerTakesCounts(s: System, durability: Durability)
    requires Inv(s) && OwnerCounts(s)
    ensures OwnerCounts(DoOwnerDeliver(s, durability))
  {
    hide StoresOk, UplinkOk, SessionOk, CounterAhead, ReceiveSubmit, Attempt;
    if s.ownerEnd.up && s.toOwner != [] && s.toOwner[0].Submit? {
      var op := s.toOwner[0].operation;
      NetworkOwnerReceives.SubmitOutcome(s.owner, s.ownerEnd.link, op, durability);
      ForeignCounts(s.owner.mem, s.ownerEnd.link.peer, op);
    }
  }

  lemma NextCounts(s: System, step: Step)
    requires Inv(s) && OwnerCounts(s)
    ensures OwnerCounts(Next(s, step))
  {
    hide Inv, CounterAhead, DoOwnerLocal, DoOwnerDeliver, DoReplicaDeliver, BatchStore, BatchOperations,
         AllAccepted, Replay;
    OwnerRecords(s);
    match step
    case OwnerLocal(requests, metadata, durability) => OwnerLocalCounts(s, requests, metadata, durability);
    case OwnerDeliver(durability) => OwnerTakesCounts(s, durability);
    case OwnerCommit(submissions, durability) =>
      var others := {s.replica.identity, s.owner.identity};
      if AllAccepted(s.owner.mem.records, submissions, others) {
        ReplayCounts(s.owner.mem, submissions, others);
      }
    case ReplicaDeliver(durability) => OwnerUntouched(s, durability);
    case _ =>
  }

  lemma OwnerUntouched(s: System, durability: Durability)
    ensures DoReplicaDeliver(s, durability).owner == s.owner
  {
    hide Receive;
  }

  /**
   In every reachable state both machines' counters are at or above every live record of
   their own: the owner's in memory and on disk, the replica's in memory.
   */
  lemma {:induction false} CountersAhead(s: System, steps: seq<Step>)
    requires Init(s)
    ensures var t := Run(s, steps);
            CounterAhead(t.owner.mem) && CounterAhead(t.owner.disk) && CounterAhead(t.replica.mem)
  {
    hide Init, Inv, CounterAhead, Next;
    ReplicaCounterAhead(s, steps);
    if |steps| == 0 {
      InitCounts(s);
    } else {
      var front := steps[..|steps| - 1];
      CountersAhead(s, front);
      InitHolds(s);
      RunKeeps(s, front);
      NextCounts(Run(s, front), steps[|steps| - 1]);
    }
  }

  lemma InitCounts(s: System)
    requires Init(s)
    ensures OwnerCounts(s)
  {
    hide CounterAhead, ValidStore;
  }

  /**
   In every reachable state, at either machine, a change that is accepted shows exactly what
   was asked for under its key and leaves every other key of the view alone; the next
   sequence number is used for nothing else. One that changes nothing leaves the store alone.
   */
  lemma EveryChangeShows(
    s: System, steps: seq<Step>, atOwner: bool, key: Key, content: Option<Content>, other: Key)
    requires Init(s)
    requires var t := Run(s, steps);
             QueueLocal(if atOwner then t.owner.mem else t.replica.mem, key, content, atOwner).Ok?
    ensures var t := Run(s, steps);
            var store := if atOwner then t.owner.mem else t.replica.mem;
            var queued := QueueLocal(store, key, content, atOwner).value;
            var before, after := View(store), View(queued.store);
            if queued.changed then
              && queued.store.sequence == store.sequence + 1
              && Lookup(after, key).Some? && Lookup(after, key).value.content == content
              && (other != key ==> Lookup(after, other) == Lookup(before, other))
            else
              queued.store == store
              && (Dead(Lookup(before, key)) || Lookup(before, key).value.content == content)
  {
    hide Init, Inv, Run, CounterAhead, ValidStore, QueueLocal, View;
    CountersAhead(s, steps);
    ReplicaCounterAhead(s, steps);
    InitHolds(s);
    RunKeeps(s, steps);
    var t := Run(s, steps);
    OwnerRecords(t);
    QueueShowsRequest(if atOwner then t.owner.mem else t.replica.mem, key, content, atOwner, other);
  }
}
