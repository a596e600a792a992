/** A connected pair gets there: every schedule of ordinary steps comes to an end, in agreement. */
module NetworkProgress {
  import opened Types
  import opened StoreSpec
  import opened LinkSpec
  import opened Network
  import opened NetworkInvariant
  import opened NetworkRuns
  import NetworkReplicaReceives
  import NetworkOwnerReceives

  /** Steps the two machines take by themselves when writes succeed. */
  predicate Ordinary(step: Step) {
    match step
    case OwnerAnnounce => true
    case ReplicaAnnounce => true
    case OwnerNotice => true
    case ReplicaNotice => true
    case OwnerFill => true
    case ReplicaFill => true
    case OwnerTransmit => true
    case ReplicaTransmit => true
    case OwnerDeliver(durability) => durability.Committed?
    case ReplicaDeliver(durability) => durability.Committed?
    case _ => false
  }

  // ------------------------------------------------------------ work to be done

  /** Operations the replica's link end has not queued yet. */
  function Unsent(s: System): nat {
    |Submits(s.replica.mem.pending, s.replicaEnd.link.sentThrough)|
  }

  function Flags(owes: bool, link: Link): nat {
    (if owes then 4 else 0) + (if link.changed then 2 else 0) + if link.dirty then 1 else 0
  }

  /**
   An upper bound on the steps still to come. What one unit is worth outweighs everything
   that handling it can cause: an event for the replica may set two flags, a look of the
   owner queues MAX_RECORDS + 2 events at most, each to be sent and taken, and an event for
   the owner causes two looks and a receipt.
   */
  function Total(unsent: nat, up: nat, look: nat, down: nat, flags: nat, queued: nat): nat {
    32792 * unsent + 32791 * up + 16393 * look + 3 * down + flags + queued
  }

  function Queues(s: System): nat {
    |s.ownerEnd.link.outgoing| + |s.replicaEnd.link.outgoing|
  }

  function Work(s: System): nat {
    Total(Unsent(s), |Uplink(s)|, Flags(s.ownerOwes, s.ownerEnd.link), |Downlink(s)|,
          Flags(s.replicaOwes, s.replicaEnd.link), Queues(s))
  }

  lemma LookDrops(unsent: nat, up: nat, look: nat, down: nat, flags: nat, queued: nat, events: nat, less: nat)
    requires less < look && events <= MAX_RECORDS + 2
    ensures Total(unsent, up, less, down + events, flags, queued + events)
          < Total(unsent, up, look, down, flags, queued)
  {
  }

  lemma FillDrops(unsent: nat, up: nat, look: nat, down: nat, flags: nat, queued: nat, less: nat)
    requires less < flags
    ensures Total(0, up + unsent, look, down, less, queued + unsent)
          < Total(unsent, up, look, down, flags, queued)
  {
  }

  lemma UpDrops(
    unsent: nat, up: nat, look: nat, down: nat, flags: nat, queued: nat, looks: nat, receipts: nat)
    requires up > 0 && looks <= look + 2 && receipts <= 1
    ensures Total(unsent, up - 1, looks, down + receipts, flags, queued + receipts)
          < Total(unsent, up, look, down, flags, queued)
  {
  }

  lemma DownDrops(
    unsent: nat, up: nat, look: nat, down: nat, flags: nat, queued: nat, kept: nat, more: nat)
    requires down > 0 && kept <= unsent && more <= flags + 2
    ensures Total(kept, up, look, down - 1, more, queued) < Total(unsent, up, look, down, flags, queued)
  {
  }

  lemma {:induction false} SentAll(pending: seq<Operation>, through: nat)
    requires forall op :: op in pending ==> op.sequence <= through
    ensures Submits(pending, through) == []
  {
    if |pending| > 0 {
      assert pending[0] in pending;
      assert forall op :: op in pending[1..] ==> op in pending;
      SentAll(pending[1..], through);
    }
  }

  lemma {:induction false} RetainedUnsent(pending: seq<Operation>, keep: Operation -> bool, through: nat)
    ensures |Submits(Retain(pending, keep), through)| <= |Submits(pending, through)|
  {
    if |pending| > 0 {
      RetainedUnsent(pending[1..], keep, through);
      if keep(pending[0]) {
        var kept := Retain(pending, keep);
        assert kept[0] == pending[0] && kept[1..] == Retain(pending[1..], keep);
      }
    }
  }

  lemma OwnerRole(s: System)
    requires Inv(s)
    ensures IsCoordinator(s.owner) && !IsCoordinator(s.replica) && |s.owner.mem.records| <= MAX_RECORDS
  {
  }

  // -------------------------------------------------- every step that does anything

  /** Announcing and noticing lower the flags of one end and touch nothing else. */
  lemma FlaggedWork(s: System, step: Step)
    requires step.OwnerAnnounce? || step.ReplicaAnnounce? || step.OwnerNotice? || step.ReplicaNotice?
    requires Next(s, step) != s
    ensures Work(Next(s, step)) < Work(s)
  {
    hide Submits, Total;
    var t := Next(s, step);
    assert Uplink(t) == Uplink(s) && Downlink(t) == Downlink(s);
    var look, flags := Flags(s.ownerOwes, s.ownerEnd.link), Flags(s.replicaOwes, s.replicaEnd.link);
    if step.OwnerAnnounce? || step.OwnerNotice? {
      LookDrops(Unsent(s), |Uplink(s)|, look, |Downlink(s)|, flags, Queues(s), 0,
                Flags(t.ownerOwes, t.ownerEnd.link));
    } else {
      FlagsDrop(Unsent(s), |Uplink(s)|, look, |Downlink(s)|, flags, Queues(s),
                Flags(t.replicaOwes, t.replicaEnd.link), Queues(s));
    }
  }

  lemma FlagsDrop(
    unsent: nat, up: nat, look: nat, down: nat, flags: nat, queued: nat, less: nat, left: nat)
    requires less + left < flags + queued
    ensures Total(unsent, up, look, down, less, left) < Total(unsent, up, look, down, flags, queued)
  {
  }

  lemma OwnerFilledWork(s: System)
    requires IsCoordinator(s.owner) && |s.owner.mem.records| <= MAX_RECORDS && CanFill(s.ownerEnd)
    ensures Work(Next(s, OwnerFill)) < Work(s)
  {
    hide Submits, Total;
    var t, events := Next(s, OwnerFill), |SnapshotEvents(s.owner.mem)|;
    assert events <= MAX_RECORDS + 2;
    hide SnapshotEvents;
    assert |Downlink(t)| == |Downlink(s)| + events;
    LookDrops(Unsent(s), |Uplink(s)|, Flags(s.ownerOwes, s.ownerEnd.link), |Downlink(s)|,
              Flags(s.replicaOwes, s.replicaEnd.link), Queues(s), events, Flags(t.ownerOwes, t.ownerEnd.link));
  }

  lemma ReplicaFilledWork(s: System)
    requires !IsCoordinator(s.replica) && CanFill(s.replicaEnd)
    ensures Work(Next(s, ReplicaFill)) < Work(s)
  {
    hide Submits, Total;
    var pending, through := s.replica.mem.pending, s.replicaEnd.link.sentThrough;
    var t := Next(s, ReplicaFill);
    SentAll(pending, LatestSequence(pending, through));
    assert |Uplink(t)| == |Uplink(s)| + Unsent(s);
    FillDrops(Unsent(s), |Uplink(s)|, Flags(s.ownerOwes, s.ownerEnd.link), |Downlink(s)|,
              Flags(s.replicaOwes, s.replicaEnd.link), Queues(s), Flags(t.replicaOwes, t.replicaEnd.link));
  }

  lemma TransmittedWork(s: System, step: Step)
    requires step.OwnerTransmit? || step.ReplicaTransmit?
    requires Next(s, step) != s
    ensures Work(Next(s, step)) < Work(s)
  {
    hide Submits, Total;
    var t := Next(s, step);
    assert Downlink(t) == Downlink(s) && Uplink(t) == Uplink(s);
    var flags := Flags(s.replicaOwes, s.replicaEnd.link);
    FlagsDrop(Unsent(s), |Uplink(s)|, Flags(s.ownerOwes, s.ownerEnd.link), |Downlink(s)|, flags, Queues(s),
              flags, Queues(t));
  }

  /** An owner answers an event with one receipt at most, and may have a change to look at. */
  lemma OwnerTakes(hub: Hub, link: Link, event: Event)
    requires IsCoordinator(hub)
    ensures var r := Receive(hub, link, event, Committed);
            && r.error != Some(PersistFailed)
            && |link.outgoing| <= |r.link.outgoing| <= |link.outgoing| + 1
            && r.link.dirty == link.dirty && (link.changed ==> r.link.changed)
            && (r.error == Some(StoreFull) ==>
                  && event.Submit? && |hub.mem.records| >= MAX_RECORDS
                  && Lookup(hub.mem.records, event.operation.key).None?)
            && (r.error == Some(OutputQueueFull) ==>
                  event.Submit? && |link.outgoing| >= MAX_RECORDS + MAX_PENDING + 4)
  {
    hide ValidOrigin, ValidInstance, ValidContent;
  }

  /** What reaches a replica adds nothing to send, and a confirmed write does not stop it. */
  lemma ReplicaTakes(hub: Hub, link: Link, event: Event)
    requires !IsCoordinator(hub)
    ensures var r := Receive(hub, link, event, Committed);
            && r.error != Some(PersistFailed)
            && r.link.sentThrough == link.sentThrough && r.link.outgoing == link.outgoing
            && r.link.dirty == link.dirty
            && (r.hub.mem.pending == hub.mem.pending
                || (event.Ack? && r.hub.mem.pending == WithoutSequence(hub.mem.pending, event.sequence)))
  {
    hide ValidOrigin, ValidInstance, ValidContent, ValidEpoch, WithoutSequence;
  }

  lemma OwnerDeliveredWork(s: System, t: System)
    requires s.toOwner != [] && t.toOwner == s.toOwner[1..] && t.toReplica == s.toReplica
    requires t.replica == s.replica && t.replicaEnd == s.replicaEnd && t.replicaOwes == s.replicaOwes
    requires t.ownerOwes == s.ownerOwes && t.ownerEnd.link.dirty == s.ownerEnd.link.dirty
    requires |s.ownerEnd.link.outgoing| <= |t.ownerEnd.link.outgoing| <= |s.ownerEnd.link.outgoing| + 1
    ensures Work(t) < Work(s)
  {
    hide Submits, Total;
    UpDrops(Unsent(s), |Uplink(s)|, Flags(s.ownerOwes, s.ownerEnd.link), |Downlink(s)|,
            Flags(s.replicaOwes, s.replicaEnd.link), Queues(s), Flags(t.ownerOwes, t.ownerEnd.link),
            |t.ownerEnd.link.outgoing| - |s.ownerEnd.link.outgoing|);
  }

  lemma ReplicaDeliveredWork(s: System, t: System)
    requires s.toReplica != [] && t.toReplica == s.toReplica[1..] && t.toOwner == s.toOwner
    requires t.owner == s.owner && t.ownerEnd == s.ownerEnd && t.ownerOwes == s.ownerOwes
    requires t.replicaOwes == s.replicaOwes && t.replicaEnd.link.dirty == s.replicaEnd.link.dirty
    requires t.replicaEnd.link.outgoing == s.replicaEnd.link.outgoing && Unsent(t) <= Unsent(s)
    ensures Work(t) < Work(s)
  {
    hide Unsent, Total;
    DownDrops(Unsent(s), |Uplink(s)|, Flags(s.ownerOwes, s.ownerEnd.link), |Downlink(s)|,
              Flags(s.replicaOwes, s.replicaEnd.link), Queues(s), Unsent(t),
              Flags(t.replicaOwes, t.replicaEnd.link));
  }

  lemma DeliveredWork(s: System, step: Step)
    requires Inv(s) && (step == OwnerDeliver(Committed) || step == ReplicaDeliver(Committed))
    requires Next(s, step) != s
    ensures Work(Next(s, step)) < Work(s)
  {
    OwnerRole(s);
    hide Inv, Work;
    if step.OwnerDeliver? {
      OwnerTakes(s.owner, s.ownerEnd.link, s.toOwner[0]);
      hide Receive;
      OwnerDeliveredWork(s, Next(s, step));
    } else {
      ReplicaTakes(s.replica, s.replicaEnd.link, s.toReplica[0]);
      hide Receive, Submits;
      if s.toReplica[0].Ack? {
        RetainedUnsent(s.replica.mem.pending, (op: Operation) => op.sequence != s.toReplica[0].sequence,
                       s.replicaEnd.link.sentThrough);
      }
      ReplicaDeliveredWork(s, Next(s, step));
    }
  }

  /** Each ordinary step that does anything leaves less work, whatever state the ends are in. */
  lemma WorkDrops(s: System, step: Step)
    requires Inv(s) && Ordinary(step) && Next(s, step) != s
    ensures Work(Next(s, step)) < Work(s)
  {
    OwnerRole(s);
    hide Inv, Work, DoOwnerDeliver, DoReplicaDeliver, Fill;
    match step
    case OwnerAnnounce => FlaggedWork(s, step);
    case ReplicaAnnounce => FlaggedWork(s, step);
    case OwnerNotice => FlaggedWork(s, step);
    case ReplicaNotice => FlaggedWork(s, step);
    case OwnerFill => OwnerFilledWork(s);
    case ReplicaFill => ReplicaFilledWork(s);
    case OwnerTransmit => TransmittedWork(s, step);
    case ReplicaTransmit => TransmittedWork(s, step);
    case OwnerDeliver(_) => DeliveredWork(s, step);
    case ReplicaDeliver(_) => DeliveredWork(s, step);
    case _ => assert false;
  }

  // ---------------------------------------------------------------- every schedule

  /** Ordinary steps in any order, each of which does something. */
  ghost predicate Effective(s: System, steps: seq<Step>) {
    |steps| > 0 ==>
      var front, last := steps[..|steps| - 1], steps[|steps| - 1];
      Effective(s, front) && Ordinary(last) && Next(Run(s, front), last) != Run(s, front)
  }

  lemma {:induction false} EffectiveBound(s: System, steps: seq<Step>)
    requires Inv(s) && Effective(s, steps)
    ensures |steps| + Work(Run(s, steps)) <= Work(s)
  {
    hide Inv, Next, Work, Ordinary;
    if |steps| > 0 {
      var front, last := steps[..|steps| - 1], steps[|steps| - 1];
      EffectiveBound(s, front);
      RunKeeps(s, front);
      WorkDrops(Run(s, front), last);
    }
  }

  /** The owner stops: no room for a new key, or for another receipt in its output queue. */
  predicate OwnerStops(s: System) {
    && s.ownerEnd.up && s.toOwner != [] && s.toOwner[0].Submit?
    && var error := Receive(s.owner, s.ownerEnd.link, s.toOwner[0], Committed).error;
       || (&& error == Some(StoreFull) && |s.owner.mem.records| >= MAX_RECORDS
           && Lookup(s.owner.mem.records, s.toOwner[0].operation.key).None?)
       || (error == Some(OutputQueueFull)
           && |s.ownerEnd.link.outgoing| >= MAX_RECORDS + MAX_PENDING + 4)
  }

  /** No ordinary step stops the replica, and only these two reasons stop the owner. */
  lemma WhoStops(s: System, step: Step)
    requires Inv(s) && Ordinary(step)
    ensures s.replicaEnd.up ==> Next(s, step).replicaEnd.up
    ensures s.ownerEnd.up && !Next(s, step).ownerEnd.up ==> step == OwnerDeliver(Committed) && OwnerStops(s)
  {
    hide Inv, DoOwnerDeliver, DoReplicaDeliver, Fill, SnapshotEvents, OwnerStops;
    if step.ReplicaDeliver? {
      ReplicaGoesOn(s);
    } else if step.OwnerDeliver? {
      OwnerGoesOn(s);
    }
  }

  lemma ReplicaGoesOn(s: System)
    requires Inv(s)
    ensures var t := DoReplicaDeliver(s, Committed);
            (s.replicaEnd.up ==> t.replicaEnd.up) && t.ownerEnd == s.ownerEnd
  {
    OwnerRole(s);
    NetworkReplicaReceives.ReplicaDeliverKeeps(s, Committed);
    hide Inv;
    if s.toReplica != [] {
      ReplicaTakes(s.replica, s.replicaEnd.link, s.toReplica[0]);
    }
    hide Receive;
  }

  lemma OwnerGoesOn(s: System)
    requires Inv(s)
    ensures var t := DoOwnerDeliver(s, Committed);
            t.replicaEnd == s.replicaEnd && (s.ownerEnd.up && !t.ownerEnd.up ==> OwnerStops(s))
  {
    OwnerRole(s);
    NetworkOwnerReceives.OwnerDeliverKeeps(s, Committed);
    hide Inv;
    if s.toOwner != [] {
      OwnerTakes(s.owner, s.ownerEnd.link, s.toOwner[0]);
    }
    hide Receive;
  }

  ghost predicate StoppedIn(s: System, steps: seq<Step>) {
    exists i :: 0 <= i < |steps| && steps[i] == OwnerDeliver(Committed) && OwnerStops(Run(s, steps[..i]))
  }

  lemma {:induction false} WhoIsUp(s: System, steps: seq<Step>)
    requires Inv(s) && s.ownerEnd.up && s.replicaEnd.up && Effective(s, steps)
    ensures Run(s, steps).replicaEnd.up && (Run(s, steps).ownerEnd.up || StoppedIn(s, steps))
  {
    hide Inv, Next, OwnerStops, Ordinary;
    if |steps| > 0 {
      var last := |steps| - 1;
      var front := steps[..last];
      WhoIsUp(s, front);
      RunKeeps(s, front);
      WhoStops(Run(s, front), steps[last]);
      if Run(s, front).ownerEnd.up {
        if !Run(s, steps).ownerEnd.up {
          assert StoppedIn(s, steps);
        }
      } else {
        var i :| 0 <= i < last && front[i] == OwnerDeliver(Committed) && OwnerStops(Run(s, front[..i]));
        assert front[..i] == steps[..i] && steps[i] == front[i];
      }
    }
  }

  // -------------------------------------------------------- where schedules end

  /** With nothing in flight both ends have agreed. */
  lemma NothingInFlight(s: System)
    requires Inv(s) && s.ownerEnd.up && s.replicaEnd.up
    requires s.replicaEnd.link.outgoing == [] && s.ownerEnd.link.outgoing == []
    requires s.toOwner == [] && s.toReplica == []
    ensures s.ownerEnd.link.agreed && s.replicaEnd.link.agreed
  {
    hide StoresOk, InSync, OutboxMoving;
    var items :| SessionOk(s, items);
    EmptyStream(items, s.replicaEnd.link.staged);
  }

  /** As long as a connected pair is not quiet, some step does something: what is queued goes first. */
  lemma NextStep(s: System) returns (step: Step)
    requires Inv(s) && s.ownerEnd.up && s.replicaEnd.up && !Quiescent(s)
    ensures Ordinary(step) && Next(s, step) != s
    ensures step.OwnerDeliver? ==> s.ownerEnd.link.outgoing == []
  {
    if s.replicaEnd.link.outgoing == [] && s.ownerEnd.link.outgoing == [] && s.toOwner == [] && s.toReplica == [] {
      step := LookStep(s);
    } else {
      hide Inv, Receive;
      step := MoveStep(s);
    }
  }

  lemma MoveStep(s: System) returns (step: Step)
    requires s.ownerEnd.up && s.replicaEnd.up
    requires s.replicaEnd.link.outgoing != [] || s.ownerEnd.link.outgoing != []
          || s.toOwner != [] || s.toReplica != []
    ensures Ordinary(step) && Next(s, step) != s
    ensures step.OwnerDeliver? ==> s.ownerEnd.link.outgoing == []
  {
    hide Receive;
    if s.replicaEnd.link.outgoing != [] {
      step := ReplicaTransmit;
      assert |Next(s, step).toOwner| == |s.toOwner| + 1;
    } else if s.ownerEnd.link.outgoing != [] {
      step := OwnerTransmit;
      assert |Next(s, step).toReplica| == |s.toReplica| + 1;
    } else if s.toOwner != [] {
      step := OwnerDeliver(Committed);
      assert |DoOwnerDeliver(s, Committed).toOwner| == |s.toOwner| - 1;
    } else {
      step := ReplicaDeliver(Committed);
      assert |DoReplicaDeliver(s, Committed).toReplica| == |s.toReplica| - 1;
    }
    hide DoOwnerDeliver, DoReplicaDeliver;
  }

  lemma LookStep(s: System) returns (step: Step)
    requires Inv(s) && s.ownerEnd.up && s.replicaEnd.up && !Quiescent(s)
    requires s.replicaEnd.link.outgoing == [] && s.ownerEnd.link.outgoing == []
    requires s.toOwner == [] && s.toReplica == []
    ensures Ordinary(step) && Next(s, step) != s && !step.OwnerDeliver?
  {
    NothingInFlight(s);
    hide Inv, SnapshotEvents, Submits;
    step :=
      if s.ownerOwes then OwnerAnnounce else if s.replicaOwes then ReplicaAnnounce
      else if s.ownerEnd.link.dirty then OwnerFill else if s.ownerEnd.link.changed then OwnerNotice
      else if s.replicaEnd.link.dirty then ReplicaFill else ReplicaNotice;
  }

  ghost predicate Agreed(t: System) {
    && Quiescent(t) && t.replica.mem.pending == []
    && t.replica.mem.records == t.owner.mem.records
    && View(t.replica.mem) == View(t.owner.mem)
  }

  /**
   However the steps of a connected pair are ordered, as long as each does something there
   are at most `Work` of them; and where no step does anything any more, the outbox is empty
   and both machines show the same records, unless the owner had to stop on the way.
   */
  lemma EveryScheduleSettles(s: System, steps: seq<Step>, more: seq<Step>)
    requires Init(s) && Run(s, steps).ownerEnd.up && Run(s, steps).replicaEnd.up
    requires Effective(Run(s, steps), more)
    ensures |more| <= Work(Run(s, steps))
    ensures (forall step :: Ordinary(step) ==> Next(Run(s, steps + more), step) == Run(s, steps + more)) ==>
              Agreed(Run(s, steps + more)) || StoppedIn(Run(s, steps), more)
  {
    hide Init, Inv, Next, Run, Quiescent, StoppedIn, Ordinary, View, Work, Effective;
    InitHolds(s);
    RunKeeps(s, steps);
    var u, t := Run(s, steps), Run(s, steps + more);
    EffectiveBound(u, more);
    WhoIsUp(u, more);
    RunConcat(s, steps, more);
    RunKeeps(s, steps + more);
    if !StoppedIn(u, more) {
      if Quiescent(t) {
        QuiescentMeansConverged(s, steps + more);
      } else {
        var step := NextStep(t);
      }
    }
  }

  // ------------------------------------------------------------- one schedule

  /** The owner stops because its history is full and the operation is on a key it does not have. */
  predicate OwnerFull(s: System) {
    && s.ownerEnd.up && s.toOwner != [] && s.toOwner[0].Submit?
    && |s.owner.mem.records| >= MAX_RECORDS
    && Lookup(s.owner.mem.records, s.toOwner[0].operation.key).None?
    && Receive(s.owner, s.ownerEnd.link, s.toOwner[0], Committed).error == Some(StoreFull)
  }

  lemma StopsForRoom(s: System)
    requires OwnerStops(s) && s.ownerEnd.link.outgoing == []
    ensures OwnerFull(s)
  {
    hide Receive;
  }

  /** How a schedule ends: all quiet, or the owner stopped at its last step for want of room. */
  ghost predicate Settles(s: System, steps: seq<Step>) {
    || Quiescent(Run(s, steps))
    || (|steps| > 0 && OwnerFull(Run(s, steps[..|steps| - 1])) && steps[|steps| - 1] == OwnerDeliver(Committed))
  }

  lemma {:induction false} ScheduleFrom(s: System) returns (steps: seq<Step>)
    requires Inv(s) && s.ownerEnd.up && s.replicaEnd.up
    ensures forall i :: 0 <= i < |steps| ==> Ordinary(steps[i])
    ensures Settles(s, steps)
    decreases Work(s)
  {
    hide Inv, Next, Quiescent, OwnerFull, OwnerStops, Ordinary, Work;
    if Quiescent(s) {
      steps := [];
    } else {
      var step := NextStep(s);
      WorkDrops(s, step);
      WhoStops(s, step);
      NextKeeps(s, step);
      RunOne(s, step);
      if Next(s, step).ownerEnd.up {
        var rest := ScheduleFrom(Next(s, step));
        steps := [step] + rest;
        SettlesLater(s, step, rest);
      } else {
        StopsForRoom(s);
        steps := [step];
        assert steps[..0] == [];
      }
    }
  }

  lemma SettlesLater(s: System, step: Step, rest: seq<Step>)
    requires Settles(Next(s, step), rest)
    ensures Settles(s, [step] + rest)
  {
    hide Next, Run, Quiescent, OwnerFull;
    RunOne(s, step);
    RunConcat(s, [step], rest);
    if |rest| > 0 {
      var front := rest[..|rest| - 1];
      RunConcat(s, [step], front);
      assert ([step] + rest)[..|rest|] == [step] + front;
    }
  }

  /**
   From every reachable state there is a continuation, a reconnect if an end is down and
   then only steps the machines take by themselves, after which the outbox is empty and both
   machines show the same records, unless the owner stops because its history is full.
   */
  lemma Converges(s: System, steps: seq<Step>) returns (more: seq<Step>)
    requires Init(s)
    ensures forall i :: 0 <= i < |more| ==> Ordinary(more[i]) || (i == 0 && more[i].Connect?)
    ensures || Agreed(Run(s, steps + more))
            || (&& |more| > 0 && OwnerFull(Run(s, steps + more[..|more| - 1]))
                && more[|more| - 1] == OwnerDeliver(Committed))
  {
    hide Init, Inv, Next, Run, Quiescent, OwnerFull, Ordinary, View;
    InitHolds(s);
    RunKeeps(s, steps);
    var u := Run(s, steps);
    if u.ownerEnd.up && u.replicaEnd.up {
      more := ScheduleFrom(u);
    } else {
      NextKeeps(u, Connect);
      Connected(u);
      var rest := ScheduleFrom(Next(u, Connect));
      more := [Connect] + rest;
      SettlesLater(u, Connect, rest);
    }
    RunConcat(s, steps, more);
    if Quiescent(Run(u, more)) {
      QuiescentMeansConverged(s, steps + more);
    } else {
      RunConcat(s, steps, more[..|more| - 1]);
    }
  }

  lemma Connected(s: System)
    ensures Next(s, Connect).ownerEnd.up && Next(s, Connect).replicaEnd.up
  {
  }
}
