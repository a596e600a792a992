/**
 A replica and its history owner as one step system: two hubs with memory and disk, one
 link end each, and a FIFO channel in each direction. What either machine and its phones
 change is a batch of its own requests; what other replicas do to the owner appears as
 arbitrary accepted submissions.
 */
module Network {
  import opened Types
  import opened StoreSpec
  import opened LinkSpec

  datatype End = End(up: bool, link: Link)

  datatype System = System(
    owner: Hub,
    replica: Hub,
    ownerEnd: End,
    replicaEnd: End,
    ownerOwes: bool,           // a commit of this hub is not announced to its links yet
    replicaOwes: bool,
    toReplica: seq<Event>,
    toOwner: seq<Event>,
    accepted: set<Operation>,  // every operation the replica's memory ever accepted
    emitted: seq<Event>)       // everything the owner's current link end ever queued

  datatype Step =
    | LocalChange(requests: seq<Request>, metadata: Option<Metadata>, durability: Durability)
    | OwnerLocal(requests: seq<Request>, metadata: Option<Metadata>, durability: Durability)
    | OwnerCommit(submissions: seq<Submission>, durability: Durability)
    | OwnerAnnounce
    | ReplicaAnnounce
    | OwnerNotice
    | ReplicaNotice
    | OwnerFill
    | ReplicaFill
    | OwnerTransmit
    | ReplicaTransmit
    | OwnerDeliver(durability: Durability)
    | ReplicaDeliver(durability: Durability)
    | OwnerCrash
    | ReplicaCrash
    | OwnerDrop
    | ReplicaDrop
    | Connect

  /** Each submission is accepted in turn and comes from none of these machines. */
  predicate AllAccepted(records: seq<Record>, submissions: seq<Submission>, others: set<string>) {
    if |submissions| == 0 then true
    else
      var last := |submissions| - 1;
      && AllAccepted(records, submissions[..last], others)
      && submissions[last].sender !in others
      && Apply(Replay(records, submissions[..last]),
               submissions[last].sender, submissions[last].operation).Ok?
  }

  function Notice(end: End): End {
    if end.up && end.link.agreed && !end.link.dirty && end.link.changed then
      end.(link := end.link.(changed := false, dirty := true))
    else end
  }

  predicate CanFill(end: End) {
    end.up && end.link.agreed && end.link.dirty
  }

  function Published(end: End): End {
    end.(link := end.link.(changed := true))
  }

  /** Local posts and dismissals and phone events: one write, announced later. */
  function DoLocalChange(
    s: System, requests: seq<Request>, metadata: Option<Metadata>, durability: Durability): System
  {
    var next := BatchStore(s.replica.mem, requests, metadata, false);
    if next.None? then s
    else
      var hub := Commit(s.replica, next.value, durability);
      if durability.Committed? then
        s.(replica := hub, replicaOwes := true,
           accepted := s.accepted + BatchOperations(WithMetadata(s.replica.mem, metadata), requests, false))
      else s.(replica := hub)
  }

  function DoOwnerCommit(s: System, next: StoreValue, durability: Durability): System {
    var hub := Commit(s.owner, next, durability);
    s.(owner := hub, ownerOwes := s.ownerOwes || durability.Committed?)
  }

  function DoOwnerLocal(
    s: System, requests: seq<Request>, metadata: Option<Metadata>, durability: Durability): System
  {
    var next := BatchStore(s.owner.mem, requests, metadata, true);
    if next.None? then s else DoOwnerCommit(s, next.value, durability)
  }

  function DoOwnerDeliver(s: System, durability: Durability): System {
    if s.ownerEnd.up && s.toOwner != [] then
      var received := Receive(s.owner, s.ownerEnd.link, s.toOwner[0], durability);
      var queued := |s.ownerEnd.link.outgoing|;
      s.(owner := received.hub,
         ownerEnd := End(received.error.None?, received.link),
         toOwner := s.toOwner[1..],
         emitted := if queued <= |received.link.outgoing|
                    then s.emitted + received.link.outgoing[queued..] else s.emitted)
    else s
  }

  function DoReplicaDeliver(s: System, durability: Durability): System {
    if s.replicaEnd.up && s.toReplica != [] then
      var received := Receive(s.replica, s.replicaEnd.link, s.toReplica[0], durability);
      s.(replica := received.hub,
         replicaEnd := End(received.error.None?, received.link),
         toReplica := s.toReplica[1..])
    else s
  }

  function Pending(store: StoreValue): set<Operation> {
    set op | op in store.pending
  }

  /** One step; a step that is not possible in this state leaves it alone. */
  function Next(s: System, step: Step): System {
    match step
    case LocalChange(requests, metadata, durability) => DoLocalChange(s, requests, metadata, durability)
    case OwnerLocal(requests, metadata, durability) => DoOwnerLocal(s, requests, metadata, durability)
    case OwnerCommit(submissions, durability) =>
      if AllAccepted(s.owner.mem.records, submissions, {s.replica.identity, s.owner.identity}) then
        DoOwnerCommit(s, s.owner.mem.(records := Replay(s.owner.mem.records, submissions)), durability)
      else s
    case OwnerAnnounce =>
      if s.ownerOwes then s.(ownerOwes := false, ownerEnd := Published(s.ownerEnd)) else s
    case ReplicaAnnounce =>
      if s.replicaOwes then s.(replicaOwes := false, replicaEnd := Published(s.replicaEnd)) else s
    case OwnerNotice => s.(ownerEnd := Notice(s.ownerEnd))
    case ReplicaNotice => s.(replicaEnd := Notice(s.replicaEnd))
    case OwnerFill =>
      if CanFill(s.ownerEnd) then
        s.(ownerEnd := s.ownerEnd.(link := Fill(s.owner, s.ownerEnd.link)),
           emitted := s.emitted + SnapshotEvents(s.owner.mem))
      else s
    case ReplicaFill =>
      if CanFill(s.replicaEnd) then
        s.(replicaEnd := s.replicaEnd.(link := Fill(s.replica, s.replicaEnd.link)))
      else s
    case OwnerTransmit =>
      var queue := s.ownerEnd.link.outgoing;
      if s.ownerEnd.up && queue != [] then
        s.(toReplica := s.toReplica + [queue[0]],
           ownerEnd := s.ownerEnd.(link := s.ownerEnd.link.(outgoing := queue[1..])))
      else s
    case ReplicaTransmit =>
      var queue := s.replicaEnd.link.outgoing;
      if s.replicaEnd.up && queue != [] then
        s.(toOwner := s.toOwner + [queue[0]],
           replicaEnd := s.replicaEnd.(link := s.replicaEnd.link.(outgoing := queue[1..])))
      else s
    case OwnerDeliver(durability) => DoOwnerDeliver(s, durability)
    case ReplicaDeliver(durability) => DoReplicaDeliver(s, durability)
    case OwnerCrash =>
      s.(owner := s.owner.(mem := s.owner.disk), ownerEnd := s.ownerEnd.(up := false), ownerOwes := false)
    case ReplicaCrash =>
      s.(replica := s.replica.(mem := s.replica.disk), replicaEnd := s.replicaEnd.(up := false),
         replicaOwes := false, accepted := s.accepted + Pending(s.replica.disk))
    case OwnerDrop => s.(ownerEnd := s.ownerEnd.(up := false))
    case ReplicaDrop => s.(replicaEnd := s.replicaEnd.(up := false))
    case Connect =>
      var link := NewLink(s.owner, s.replica.identity);
      s.(ownerEnd := End(true, link),
         replicaEnd := End(true, NewLink(s.replica, s.owner.identity)),
         toReplica := [], toOwner := [], emitted := link.outgoing)
  }

  function Run(s: System, steps: seq<Step>): System {
    if |steps| == 0 then s else Next(Run(s, steps[..|steps| - 1]), steps[|steps| - 1])
  }

  /**
   Where runs begin: a valid owner store that has never heard of this replica, and a
   replica that has not received any history yet but may have queued changes of its own.
   */
  ghost predicate Init(s: System) {
    && s.owner.identity != s.replica.identity
    && s.owner.coordinator == s.owner.identity == s.replica.coordinator
    && s.owner.mem == s.owner.disk && s.replica.mem == s.replica.disk
    && s.owner.mem.localIdentity == s.owner.identity
    && s.replica.mem.localIdentity == s.replica.identity
    && ValidStore(s.owner.mem) && ValidStore(s.replica.mem)
    && ValidEpoch(s.owner.mem.epoch) && s.owner.mem.pending == [] && CounterAhead(s.owner.mem)
    && s.replica.mem.epoch == "" && s.replica.mem.records == []
    && (forall i :: 0 <= i < |s.owner.mem.records| ==>
          s.owner.mem.records[i].key.origin != s.replica.identity)
    && !s.ownerEnd.up && !s.replicaEnd.up
    && s.toReplica == [] && s.toOwner == []
    && s.replicaEnd.link.outgoing == []
    && s.ownerEnd.link.peer == s.replica.identity
    && s.accepted == Pending(s.replica.mem)
  }
}
