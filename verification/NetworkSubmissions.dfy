/** A replica's link end submits each operation at most once in a session, oldest first. */
module NetworkSubmissions {
  import opened Types
  import opened StoreSpec
  import opened LinkSpec
  import opened Network
  import opened NetworkInvariant
  import opened NetworkRuns

  /** Submissions in strictly increasing sequence, above `low` and up to `high`. */
  ghost predicate Ascending(events: seq<Event>, low: nat, high: nat) {
    && (forall i :: 0 <= i < |events| ==>
          events[i].Submit? && low < events[i].operation.sequence <= high)
    && (forall i, j :: 0 <= i < j < |events| ==>
          events[i].operation.sequence < events[j].operation.sequence)
  }

  ghost predicate SequencesRise(pending: seq<Operation>) {
    forall i, j :: 0 <= i < j < |pending| ==> pending[i].sequence < pending[j].sequence
  }

  lemma AscendingJoin(a: seq<Event>, b: seq<Event>, low: nat, middle: nat, high: nat)
    requires low <= middle <= high
    requires Ascending(a, low, middle) && Ascending(b, middle, high)
    ensures Ascending(a + b, low, high)
  {
  }

  ghost predicate Rising(events: seq<Event>) {
    && (forall i :: 0 <= i < |events| ==> events[i].Submit?)
    && (forall i, j :: 0 <= i < j < |events| ==>
          events[i].operation.sequence < events[j].operation.sequence)
  }

  lemma {:induction false} SubmitsRise(pending: seq<Operation>, floor: nat)
    requires SequencesRise(pending)
    ensures Rising(Submits(pending, floor))
  {
    if |pending| > 0 {
      SubmitsRise(pending[1..], floor);
      var rest := Submits(pending[1..], floor);
      forall i | 0 <= i < |rest| ensures rest[i].operation.sequence > pending[0].sequence {
        FromLater(pending, floor, rest[i]);
      }
    }
  }

  lemma FromLater(pending: seq<Operation>, floor: nat, event: Event)
    requires SequencesRise(pending) && |pending| > 0
    requires event in Submits(pending[1..], floor)
    ensures event.operation.sequence > pending[0].sequence
  {
  }

  lemma SubmitsAscend(pending: seq<Operation>, floor: nat)
    requires SequencesRise(pending)
    ensures Ascending(Submits(pending, floor), floor, LatestSequence(pending, floor))
  {
    hide Submits, LatestSequence;
    SubmitsRise(pending, floor);
    var events := Submits(pending, floor);
    forall i | 0 <= i < |events| ensures floor < events[i].operation.sequence <= LatestSequence(pending, floor) {
      assert events[i] in events;
    }
  }

  /** What a step adds to the submissions of the replica's link end. */
  function Queues(s: System, step: Step): seq<Event> {
    if step.ReplicaFill? && CanFill(s.replicaEnd) && !IsCoordinator(s.replica) then
      Submits(s.replica.mem.pending, s.replicaEnd.link.sentThrough)
    else []
  }

  function QueuesAll(s: System, steps: seq<Step>): seq<Event> {
    if |steps| == 0 then []
    else
      QueuesAll(s, steps[..|steps| - 1])
        + Queues(Run(s, steps[..|steps| - 1]), steps[|steps| - 1])
  }

  lemma ReceiveKeepsSent(hub: Hub, link: Link, event: Event, durability: Durability)
    ensures Receive(hub, link, event, durability).link.sentThrough == link.sentThrough
  {
    hide Apply, SequenceIndex, WithoutSequence, ValidEpoch, ValidOrigin, ValidInstance, ValidContent, IndexOf;
  }

  lemma SentAfter(s: System, step: Step)
    requires !step.Connect?
    requires s.replica.identity != s.replica.coordinator
    ensures Next(s, step).replicaEnd.link.sentThrough
         == if step.ReplicaFill? && CanFill(s.replicaEnd)
            then LatestSequence(s.replica.mem.pending, s.replicaEnd.link.sentThrough)
            else s.replicaEnd.link.sentThrough
  {
    hide Receive, QueueBatch, BatchOperations, AllAccepted, Replay, Submits, LatestSequence, Apply;
    if step.ReplicaDeliver? && s.toReplica != [] {
      ReceiveKeepsSent(s.replica, s.replicaEnd.link, s.toReplica[0], step.durability);
    }
  }

  lemma StepAscends(s: System, step: Step)
    requires Inv(s) && !step.Connect?
    ensures var before, after := s.replicaEnd.link.sentThrough, Next(s, step).replicaEnd.link.sentThrough;
            before <= after && Ascending(Queues(s, step), before, after)
  {
    hide Next, Submits, LatestSequence, UplinkOk, SessionOk, ValidRecords, OwnOperation;
    SentAfter(s, step);
    if step.ReplicaFill? && CanFill(s.replicaEnd) {
      SubmitsAscend(s.replica.mem.pending, s.replicaEnd.link.sentThrough);
    }
  }

  /**
   From any reachable state on, as long as the link is not replaced, the replica's end queues
   its operations in strictly increasing sequence, none of them twice, whatever snapshots,
   receipts and further changes it notices in between.
   */
  lemma {:induction false} EachSubmittedOnce(s: System, earlier: seq<Step>, steps: seq<Step>)
    requires Init(s)
    requires forall i :: 0 <= i < |steps| ==> !steps[i].Connect?
    ensures var from := Run(s, earlier);
            var low, high := from.replicaEnd.link.sentThrough, Run(from, steps).replicaEnd.link.sentThrough;
            low <= high && Ascending(QueuesAll(from, steps), low, high)
  {
    hide Init, Inv, Next, Queues, Ascending;
    var from := Run(s, earlier);
    if |steps| == 0 {
      NothingQueued(from);
    } else {
      var last := |steps| - 1;
      EachSubmittedOnce(s, earlier, steps[..last]);
      InitHolds(s);
      RunKeeps(s, earlier);
      RunKeeps(from, steps[..last]);
      var middle := Run(from, steps[..last]);
      StepAscends(middle, steps[last]);
      AscendingJoin(QueuesAll(from, steps[..last]), Queues(middle, steps[last]),
                    from.replicaEnd.link.sentThrough, middle.replicaEnd.link.sentThrough,
                    Run(from, steps).replicaEnd.link.sentThrough);
    }
  }

  lemma NothingQueued(s: System)
    ensures Ascending(QueuesAll(s, []), s.replicaEnd.link.sentThrough, s.replicaEnd.link.sentThrough)
  {
  }
}
