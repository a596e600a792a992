/** A full history: how a replica comes to know more keys than fit. */
module NetworkCapacity {
  import opened Types
  import opened StoreSpec
  import opened LinkSpec
  import opened Network
  import opened NetworkInvariant
  import opened NetworkRuns
  import opened NetworkProgress
  import opened NetworkKeys
  import OverlayLaws

  /** The owner looks at what changed and sends it, and the replica takes it in. */
  predicate Downward(step: Step) {
    step.OwnerAnnounce? || step.OwnerNotice? || step.OwnerFill? || step.OwnerTransmit?
    || step == ReplicaDeliver(Committed)
  }

  /** Nothing more comes from the owner. */
  predicate Drained(s: System) {
    Idle(s.ownerEnd, s.ownerOwes) && s.toReplica == []
  }

  lemma DownwardStep(s: System) returns (step: Step)
    requires s.ownerEnd.up && s.replicaEnd.up && s.ownerEnd.link.agreed && !Drained(s)
    ensures Downward(step) && Next(s, step) != s
  {
    hide Receive, SnapshotEvents;
    if s.ownerEnd.link.outgoing != [] {
      step := OwnerTransmit;
      assert |Next(s, step).toReplica| == |s.toReplica| + 1;
    } else if s.toReplica != [] {
      step := ReplicaDeliver(Committed);
      assert |DoReplicaDeliver(s, Committed).toReplica| == |s.toReplica| - 1;
    } else {
      step := if s.ownerOwes then OwnerAnnounce
              else if s.ownerEnd.link.dirty then OwnerFill else OwnerNotice;
    }
  }

  lemma DownwardKeeps(s: System, step: Step)
    requires Inv(s) && s.ownerEnd.up && s.replicaEnd.up && s.ownerEnd.link.agreed && Downward(step)
    ensures var t := Next(s, step); t.ownerEnd.up && t.replicaEnd.up && t.ownerEnd.link.agreed
  {
    WhoStops(s, step);
    hide Inv, Receive, SnapshotEvents, OwnerStops;
  }

  /** An owner that has agreed can always bring its replica up to date. */
  lemma {:induction false} DrainOwner(s: System) returns (steps: seq<Step>)
    requires Inv(s) && s.ownerEnd.up && s.replicaEnd.up && s.ownerEnd.link.agreed
    ensures Drained(Run(s, steps)) && Run(s, steps).replicaEnd.up
    decreases Work(s)
  {
    hide Inv, Next, Work, Drained;
    if Drained(s) {
      steps := [];
    } else {
      var step := DownwardStep(s);
      WorkDrops(s, step);
      DownwardKeeps(s, step);
      NextKeeps(s, step);
      var rest := DrainOwner(Next(s, step));
      RunOne(s, step);
      RunConcat(s, [step], rest);
      steps := [step] + rest;
    }
  }

  /** A new session in which the owner has seen the replica's settings. */
  const MEETING: seq<Step> := [Connect, ReplicaTransmit, OwnerDeliver(Committed)]

  lemma SettingsArrive(s: System)
    ensures var b := Next(Next(s, Connect), ReplicaTransmit);
            && b.ownerEnd.up && b.replicaEnd.up && b.owner == s.owner
            && b.toOwner == [Settings(s.replica.coordinator)]
  {
    var a := Next(s, Connect);
    assert a.replicaEnd.link.outgoing == [Settings(s.replica.coordinator)] && a.toOwner == [];
  }

  lemma SettingsAgree(s: System)
    requires s.ownerEnd.up && s.replicaEnd.up && s.toOwner == [Settings(s.owner.coordinator)]
    ensures var t := Next(s, OwnerDeliver(Committed));
            t.ownerEnd.up && t.replicaEnd.up && t.ownerEnd.link.agreed
  {
  }

  lemma Met(s: System)
    requires Roles(s)
    ensures var t := Run(s, MEETING);
            t.ownerEnd.up && t.replicaEnd.up && t.ownerEnd.link.agreed
  {
    SettingsArrive(s);
    SettingsAgree(Next(Next(s, Connect), ReplicaTransmit));
    hide Next, Run;
    RunOne(s, Connect);
    RunOne(Next(s, Connect), ReplicaTransmit);
    RunOne(Next(Next(s, Connect), ReplicaTransmit), OwnerDeliver(Committed));
    RunConcat(s, [Connect], [ReplicaTransmit]);
    assert [Connect] + [ReplicaTransmit] == [Connect, ReplicaTransmit];
    RunConcat(s, [Connect, ReplicaTransmit], [OwnerDeliver(Committed)]);
    assert [Connect, ReplicaTransmit] + [OwnerDeliver(Committed)] == MEETING;
  }

  /**
   It does happen: when the owner's history is full and the replica waits to submit one
   operation on another key, a session can bring the replica to where its keys do not fit.
   */
  lemma CrowdingHappens(s: System, op: Operation) returns (steps: seq<Step>)
    requires Init(s) && |s.owner.mem.records| == MAX_RECORDS
    requires op in s.replica.mem.pending && Lookup(s.owner.mem.records, op.key).None?
    ensures |Named(Run(s, steps).replica.mem)| > MAX_RECORDS
  {
    InitHolds(s);
    OwnerStart(s);
    hide Init, Inv, Run, Drained, Lookup;
    Met(s);
    RunKeeps(s, MEETING);
    var more := DrainOwner(Run(s, MEETING));
    steps := MEETING + more;
    RunConcat(s, MEETING, more);
    var t := Run(s, steps);
    UpToDate(s, steps);
    NamedStays(s, [], steps);
    RunNone(s);
    assert [] + steps == steps;
    KnownKey(s.owner.mem.records, op.key);
    OwnerHistoryAdvances(s, steps);
    FullAndOneMore(s.owner.mem.records, t.owner.mem.records, t.replica.mem, op.key);
  }

  lemma OwnerStart(s: System)
    requires Init(s)
    ensures Roles(s) && UniqueKeys(s.owner.mem.records)
  {
  }

  lemma UpToDate(s: System, steps: seq<Step>)
    requires Init(s) && Drained(Run(s, steps)) && Run(s, steps).replicaEnd.up
    ensures Run(s, steps).replica.mem.records == Run(s, steps).owner.mem.records
  {
    hide Init, Run;
    DrainedMeansSame(s, steps);
  }

  lemma FullAndOneMore(full: seq<Record>, grown: seq<Record>, store: StoreValue, key: Key)
    requires UniqueKeys(full) && |full| == MAX_RECORDS && Advances(full, grown)
    requires store.records == grown && key in Named(store) && key !in OverlayLaws.KeySet(full)
    ensures |Named(store)| > MAX_RECORDS
  {
    OverlayLaws.KeySetSize(full);
    AdvancesWithin(full, grown);
    KeysStay(full, grown);
    hide OverlayLaws.KeySet, OverlayLaws.PendingKeys, Advances, UniqueKeys, Within;
    OverlayLaws.SubsetSize(OverlayLaws.KeySet(full) + {key}, Named(store));
  }
}
