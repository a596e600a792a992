/**
 Asking a link end for its next event is a run of the step system: noticing a published
 change, filling the output queue and handing over one event. So every guarantee about runs
 holds at each point where that call can be cancelled, and after it.
 */
module LinkRefinement {
  import opened Types
  import opened StoreSpec
  import opened LinkSpec
  import opened LinkObject
  import opened Network
  import opened NetworkRuns

  /** The steps one call takes, in either role. */
  function NextSteps(hub: Hub, link: Link, notice: Step, fill: Step, transmit: Step): seq<Step>
    decreases (if link.dirty then 1 else 0) + (if link.changed then 1 else 0)
  {
    if link.outgoing != [] then [transmit]
    else if !link.agreed || (!link.dirty && !link.changed) then []
    else
      [notice, fill]
        + NextSteps(hub, Fill(hub, link.(changed := link.dirty && link.changed)), notice, fill, transmit)
  }

  function Handed(event: Option<Event>): seq<Event> {
    if event.Some? then [event.value] else []
  }

  /** Noticing and filling are what the call does before it looks at its queue again. */
  lemma OwnerFillSteps(s: System)
    requires s.ownerEnd.up && s.ownerEnd.link.agreed
    requires s.ownerEnd.link.dirty || s.ownerEnd.link.changed
    ensures var t := Next(Next(s, OwnerNotice), OwnerFill);
            var link := s.ownerEnd.link;
            t == s.(ownerEnd := End(true, Fill(s.owner, link.(changed := link.dirty && link.changed))),
                    emitted := t.emitted)
  {
  }

  lemma ReplicaFillSteps(s: System)
    requires s.replicaEnd.up && s.replicaEnd.link.agreed
    requires s.replicaEnd.link.dirty || s.replicaEnd.link.changed
    ensures var t := Next(Next(s, ReplicaNotice), ReplicaFill);
            var link := s.replicaEnd.link;
            t == s.(replicaEnd := End(true, Fill(s.replica, link.(changed := link.dirty && link.changed))))
  {
  }

  /** The owner's call: the system goes exactly where the link's own account says. */
  lemma {:induction false} OwnerNextIsRun(s: System)
    requires s.ownerEnd.up
    ensures var (event, link) := NextEvent(s.owner, s.ownerEnd.link);
            var t := Run(s, NextSteps(s.owner, s.ownerEnd.link, OwnerNotice, OwnerFill, OwnerTransmit));
            t == s.(ownerEnd := End(true, link), toReplica := s.toReplica + Handed(event), emitted := t.emitted)
    decreases (if s.ownerEnd.link.dirty then 1 else 0) + (if s.ownerEnd.link.changed then 1 else 0)
  {
    hide Fill;
    var link := s.ownerEnd.link;
    if link.outgoing != [] {
      RunOne(s, OwnerTransmit);
    } else if link.agreed && (link.dirty || link.changed) {
      var u := Next(Next(s, OwnerNotice), OwnerFill);
      OwnerFillSteps(s);
      FillClears(s.owner, link.(changed := link.dirty && link.changed));
      RunOne(s, OwnerNotice);
      RunOne(Next(s, OwnerNotice), OwnerFill);
      RunConcat(s, [OwnerNotice], [OwnerFill]);
      assert [OwnerNotice] + [OwnerFill] == [OwnerNotice, OwnerFill];
      OwnerNextIsRun(u);
      RunConcat(s, [OwnerNotice, OwnerFill],
                NextSteps(u.owner, u.ownerEnd.link, OwnerNotice, OwnerFill, OwnerTransmit));
    } else {
      assert s.toReplica + [] == s.toReplica;
    }
  }

  lemma FillClears(hub: Hub, link: Link)
    ensures var filled := Fill(hub, link);
            !filled.dirty && filled.changed == link.changed && filled.agreed == link.agreed
  {
  }

  lemma {:induction false} ReplicaNextIsRun(s: System)
    requires s.replicaEnd.up
    ensures var (event, link) := NextEvent(s.replica, s.replicaEnd.link);
            Run(s, NextSteps(s.replica, s.replicaEnd.link, ReplicaNotice, ReplicaFill, ReplicaTransmit))
              == s.(replicaEnd := End(true, link), toOwner := s.toOwner + Handed(event))
    decreases (if s.replicaEnd.link.dirty then 1 else 0) + (if s.replicaEnd.link.changed then 1 else 0)
  {
    hide Fill;
    var link := s.replicaEnd.link;
    if link.outgoing != [] {
      RunOne(s, ReplicaTransmit);
    } else if link.agreed && (link.dirty || link.changed) {
      var u := Next(Next(s, ReplicaNotice), ReplicaFill);
      ReplicaFillSteps(s);
      FillClears(s.replica, link.(changed := link.dirty && link.changed));
      RunOne(s, ReplicaNotice);
      RunOne(Next(s, ReplicaNotice), ReplicaFill);
      RunConcat(s, [ReplicaNotice], [ReplicaFill]);
      assert [ReplicaNotice] + [ReplicaFill] == [ReplicaNotice, ReplicaFill];
      ReplicaNextIsRun(u);
      RunConcat(s, [ReplicaNotice, ReplicaFill],
                NextSteps(u.replica, u.replicaEnd.link, ReplicaNotice, ReplicaFill, ReplicaTransmit));
    } else {
      assert s.toOwner + [] == s.toOwner;
    }
  }
}
