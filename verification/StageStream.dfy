/** The owner's stream at the replica's session stage, and the replica's at the owner's. */
module StageStream {
  import opened Types
  import opened StoreSpec
  import opened LinkSpec
  import opened Network
  import opened NetworkInvariant
  import opened NetworkStream
  import opened SnapshotBudget
  import NetworkRuns

  /** Refusals that say nothing about the stream: no room, or no worker. */
  predicate OnlyRoom(refused: Option<Refused>) {
    refused.None? || refused.value in {BufferFull, QueueFull, Stopped}
  }

  /** What feeding a whole message to an empty stage does, event by event. */
  lemma PlainItem(item: Item, n: nat)
    requires !item.Snapshot? && n < |Events(item)|
    ensures StagedAfter(Events(item)[..n]) == None
    ensures !Events(item)[n].SnapshotStart? && !Events(item)[n].SnapshotRecord? && !Events(item)[n].SnapshotEnd?
    ensures StagedAfter(Events(item)) == None
  {
    assert |Events(item)| == 1 && n == 0;
    assert Events(item)[..0] == [];
  }

  /** Inside a snapshot, what is staged is its epoch and the records so far. */
  lemma {:induction false} SnapshotPrefix(epoch: string, records: seq<Record>, n: nat)
    requires 1 <= n <= |records| + 1
    ensures var events := Events(Item.Snapshot(epoch, records));
            && |events| == |records| + 2
            && var staged := StagedAfter(events[..n]);
               staged.Some? && staged.value.epoch == epoch && staged.value.records == records[..n - 1]
  {
    hide Size;
    var events := Events(Item.Snapshot(epoch, records));
    assert events[..n][..n - 1] == events[..n - 1];
    assert events[..n][n - 1] == events[n - 1];
    if n > 1 {
      SnapshotPrefix(epoch, records, n - 1);
      assert events[n - 1] == SnapshotRecord(records[n - 2]);
      assert records[..n - 1] == records[..n - 2] + [records[n - 2]];
    } else {
      assert events[..0] == [];
    }
  }

  /** Staging is local: behind a point where nothing is staged the past does not matter. */
  lemma {:induction false} StagedSuffix(front: seq<Event>, back: seq<Event>)
    requires StagedAfter(front) == None
    ensures StagedAfter(front + back) == StagedAfter(back)
  {
    hide StagedNext;
    if |back| == 0 {
      assert front + back == front;
    } else {
      var last := |back| - 1;
      StagedSuffix(front, back[..last]);
      assert (front + back)[..|front| + last] == front + back[..last];
    }
  }

  /** A history message can be refused for lack of room only, and leaves nothing staged. */
  lemma ItemRefusals(item: Item, n: nat, queued: nat, used: nat, stopped: bool)
    requires item.Snapshot? ==> ValidEpoch(item.epoch) && |item.records| <= MAX_RECORDS
    requires n < |Events(item)|
    ensures OnlyRoom(StageRefusal(StagedAfter(Events(item)[..n]), queued, used, stopped, Events(item)[n]))
    ensures StagedAfter(Events(item)) == None
  {
    hide Size;
    var events := Events(item);
    match item
    case Snapshot(epoch, records) =>
      SnapshotPrefix(epoch, records, |records| + 1);
      assert events[|records| + 1] == SnapshotEnd;
      assert events[..|events| - 1] == events[..|records| + 1];
      if n == 0 {
        assert events[..0] == [];
      } else {
        SnapshotPrefix(epoch, records, n);
        if n <= |records| {
          assert events[n] == SnapshotRecord(records[n - 1]);
        }
      }
    case _ => PlainItem(item, n);
  }

  ghost predicate Stageable(items: seq<Item>) {
    forall i :: 0 <= i < |items| && items[i].Snapshot? ==>
      ValidEpoch(items[i].epoch) && |items[i].records| <= MAX_RECORDS
  }

  lemma {:induction false} FlattenRefusals(items: seq<Item>, n: nat, queued: nat, used: nat, stopped: bool)
    requires Stageable(items) && n < |Flatten(items)|
    ensures OnlyRoom(StageRefusal(StagedAfter(Flatten(items)[..n]), queued, used, stopped, Flatten(items)[n]))
  {
    hide StageRefusal, StagedAfter, Events, ValidEpoch;
    var head, rest := Events(items[0]), Flatten(items[1..]);
    if n < |head| {
      ItemRefusals(items[0], n, queued, used, stopped);
      assert Flatten(items)[..n] == head[..n];
    } else {
      EventsNotEmpty(items[0]);
      ItemRefusals(items[0], 0, queued, used, stopped);
      StagedSuffix(head, rest[..n - |head|]);
      assert Flatten(items)[..n] == head + rest[..n - |head|];
      FlattenRefusals(items[1..], n - |head|, queued, used, stopped);
    }
  }

  lemma EventsNotEmpty(item: Item)
    ensures |Events(item)| > 0
  {
  }

  /**
   Whatever an owner's link end has queued in a run, a session that takes it in order never
   finds it nested, interrupted, misplaced, ended without a start, under a bad epoch or too
   long: each event is accepted, or refused because the buffer or queue is full or the worker
   has ended, whatever the worker did in between.
   */
  lemma OwnersStreamStages(
    s: System, steps: seq<Step>, n: nat, queued: nat, used: nat, stopped: bool)
    requires Init(s)
    requires var t := Run(s, steps); (t.ownerEnd.up || t.replicaEnd.up) && n < |t.emitted|
    ensures var emitted := Run(s, steps).emitted;
            OnlyRoom(StageRefusal(StagedAfter(emitted[..n]), queued, used, stopped, emitted[n]))
  {
    hide Init, Run, StageRefusal, StagedAfter, Flatten, ValidEpoch, ValidRecords;
    StreamAlwaysFormed(s, steps);
    NetworkRuns.InitHolds(s);
    NetworkRuns.RunKeeps(s, steps);
    var t := Run(s, steps);
    var items :| Formed(t, items);
    OwnerEpoch(t);
    ItemsStageable(items, t.owner.identity, t.owner.mem.epoch);
    FlattenRefusals(items, n, queued, used, stopped);
  }

  lemma OwnerEpoch(t: System)
    requires Inv(t)
    ensures ValidEpoch(t.owner.mem.epoch)
  {
  }

  lemma ItemsStageable(items: seq<Item>, owner: string, epoch: string)
    requires WellFormed(items, owner, epoch) && ValidEpoch(epoch)
    ensures Stageable(items)
  {
    hide ValidEpoch;
  }

  /** The event that reaches the replica next is the one the stage is ready for. */
  lemma NextArrivalStages(s: System, steps: seq<Step>, queued: nat, used: nat, stopped: bool)
    requires Init(s)
    requires var t := Run(s, steps); t.replicaEnd.up && t.toReplica != []
    ensures var t := Run(s, steps);
            var taken := |t.emitted| - |Downlink(t)|;
            && 0 <= taken < |t.emitted| && t.emitted[taken] == t.toReplica[0]
            && OnlyRoom(StageRefusal(StagedAfter(t.emitted[..taken]), queued, used, stopped, t.toReplica[0]))
  {
    hide Init, Run, StageRefusal, StagedAfter, OnlyRoom, Flatten, WellFormed;
    StreamAlwaysFormed(s, steps);
    var t := Run(s, steps);
    var items :| Formed(t, items);
    var taken := |t.emitted| - |Downlink(t)|;
    assert t.emitted[taken..][0] == t.emitted[taken] == Downlink(t)[0];
    OwnersStreamStages(s, steps, taken, queued, used, stopped);
  }

  /** What a replica sends never opens a snapshot at the owner's stage. */
  lemma ReplicasStreamStages(
    s: System, steps: seq<Step>, event: Event, queued: nat, used: nat, stopped: bool)
    requires Init(s) && event in Uplink(Run(s, steps))
    ensures StagedNext(None, event) == None
    ensures var refused := StageRefusal(None, queued, used, stopped, event);
            refused.None? || refused.value in {QueueFull, Stopped}
  {
    hide Init, Run, Uplink;
    NetworkRuns.InitHolds(s);
    NetworkRuns.RunKeeps(s, steps);
    UplinkShape(Run(s, steps), event);
  }

  lemma UplinkShape(t: System, event: Event)
    requires Inv(t) && event in Uplink(t)
    ensures event.Settings? || event.Submit?
  {
    hide Uplink, StoresOk, SessionOk;
  }
}
