/**
 A bridge and its hub together: passes and callbacks between any steps of the replicated
 system, and why the callbacks of the bridge's own closes never reach the shared history.
 */
module BridgeRuns {
  import opened Types
  import opened StoreSpec
  import opened LinkSpec
  import opened Network
  import opened NetworkRuns
  import opened NetworkKeys
  import opened Bridge
  import NetworkTombstones
  import OverlayLaws

  /** The callback names the entry that was closed, or leaves its key out. */
  predicate Names(identity: string, instance: Option<string>, key: Option<Key>, closed: Key) {
    var candidate := Candidate(identity, instance, key);
    candidate.None? || candidate == Some(closed)
  }

  // ------------------------------------------------------------- one callback

  /**
   A closure of a number nothing remembers gets a sequence number exactly when it names a
   valid key the view shows live now, this machine may dismiss it for that reason, and there
   are a number and room for the operation.
   */
  lemma ClosureAllocatesExactlyWhen(
    hub: Hub, identity: string, reason: nat, instance: Option<string>, key: Option<Key>)
    ensures var view := View(hub.mem);
            var candidate := if key.Some? then key
                             else if instance.Some? then Some(Key(identity, instance.value)) else None;
            var dismissed := Unclaimed(identity, view, reason, Candidate(identity, instance, key));
            (dismissed.Some? && dismissed == candidate && Allocates(hub, dismissed.value))
              <==>
            (&& candidate.Some? && Live(Lookup(view, candidate.value))
             && 1 <= reason <= 3 && (candidate.value.origin == identity || reason == 2)
             && ValidKey(candidate.value) && hub.mem.sequence < MAX_U64
             && OverlayLaws.RoomFor(hub.mem, candidate.value, IsCoordinator(hub)))
  {
    hide Overlay, WithoutKey, ValidOrigin, ValidInstance;
  }

  /**
   A change the bridge makes without looking at the outcome: when it is news, allowed, and has
   a number and room, what is written shows the key as asked and every other key as before, and
   a confirmed write is current at once; otherwise nothing happens.
   */
  lemma LocalTakesEffect(hub: Hub, key: Key, content: Option<Content>, durability: Durability, other: Key)
    requires ValidStore(hub.mem) && CounterAhead(hub.mem) && (IsCoordinator(hub) ==> hub.mem.pending == [])
    ensures var after := AfterLocal(hub, key, content, durability);
            var shown := Lookup(View(after.disk), key);
            if OverlayLaws.IsNews(hub.mem, key, content) && hub.mem.sequence < MAX_U64
               && OverlayLaws.MayQueue(hub.mem, key, content)
               && OverlayLaws.RoomFor(hub.mem, key, IsCoordinator(hub)) && !durability.NotWritten?
            then
              && shown.Some? && shown.value.content == content
              && (other != key ==> Lookup(View(after.disk), other) == Lookup(View(hub.mem), other))
              && after.mem == (if durability.Committed? then after.disk else hub.mem)
            else after == hub
  {
    hide QueueLocal, View, ValidStore, CounterAhead, OverlayLaws.RoomFor, OverlayLaws.MayQueue, OverlayLaws.IsNews,
         OverlayLaws.WhyRefused;
    OverlayLaws.ChangeAcceptedExactlyWhen(hub.mem, key, content, IsCoordinator(hub));
    if QueueLocal(hub.mem, key, content, IsCoordinator(hub)).Ok? {
      OverlayLaws.QueueShowsRequest(hub.mem, key, content, IsCoordinator(hub), other);
    }
  }

  /**
   The user's closing of an entry the bridge does not remember dismisses its key, for every
   reader of the written history; any other closure of such an entry changes nothing.
   */
  lemma ClosureDismissesExactlyWhen(
    hub: Hub, identity: string, reason: nat, instance: Option<string>, key: Option<Key>, durability: Durability)
    requires ValidStore(hub.mem) && CounterAhead(hub.mem) && (IsCoordinator(hub) ==> hub.mem.pending == [])
    ensures var candidate := if key.Some? then key
                             else if instance.Some? then Some(Key(identity, instance.value)) else None;
            var after := AfterUnclaimed(hub, identity, reason, instance, key, durability);
            if && candidate.Some? && Live(Lookup(View(hub.mem), candidate.value))
               && 1 <= reason <= 3 && (candidate.value.origin == identity || reason == 2)
               && ValidKey(candidate.value) && hub.mem.sequence < MAX_U64
               && OverlayLaws.RoomFor(hub.mem, candidate.value, IsCoordinator(hub))
               && !durability.NotWritten?
            then
              && Dead(Lookup(View(after.disk), candidate.value))
              && after.mem == (if durability.Committed? then after.disk else hub.mem)
            else after == hub
  {
    hide View, ValidStore, CounterAhead, OverlayLaws.RoomFor, ValidOrigin, ValidInstance, AfterLocal;
    var candidate := Candidate(identity, instance, key);
    if candidate.Some? {
      LocalTakesEffect(hub, candidate.value, None, durability, candidate.value);
    }
  }

  /** As long as its key is not live, the callback of a close changes nothing. */
  lemma NotLiveIgnored(
    hub: Hub, identity: string, reason: nat, instance: Option<string>, key: Option<Key>, closed: Key,
    durability: Durability)
    requires Names(identity, instance, key, closed) && !Live(Lookup(View(hub.mem), closed))
    ensures AfterUnclaimed(hub, identity, reason, instance, key, durability) == hub
  {
    hide View, Apply, WithoutKey, ValidOrigin, ValidInstance;
  }

  /** Nor where nothing is accepted any more. */
  lemma CrowdedIgnored(
    hub: Hub, identity: string, reason: nat, instance: Option<string>, key: Option<Key>, durability: Durability)
    requires !IsCoordinator(hub) && ValidStore(hub.mem) && |Named(hub.mem)| > MAX_RECORDS
    ensures AfterUnclaimed(hub, identity, reason, instance, key, durability) == hub
  {
    hide View, QueueLocal, ValidStore, Named;
    var dismissed := Unclaimed(identity, View(hub.mem), reason, Candidate(identity, instance, key));
    if dismissed.Some? {
      CrowdedRefuses(hub.mem, dismissed.value, None);
    }
  }

  // ----------------------------------------------------- either machine's history

  function HubOf(s: System, atOwner: bool): Hub {
    if atOwner then s.owner else s.replica
  }

  /** Nothing more can come of this key here: it is dismissed, or the keys do not fit. */
  ghost predicate Spent(store: StoreValue, key: Key) {
    Dead(Lookup(View(store), key)) || |Named(store)| > MAX_RECORDS
  }

  lemma OwnerShowsRecords(s: System, steps: seq<Step>)
    requires Init(s)
    ensures var owner := Run(s, steps).owner;
            && owner.mem.pending == [] && View(owner.mem) == owner.mem.records
            && Named(owner.mem) == OverlayLaws.KeySet(owner.mem.records)
            && |Named(owner.mem)| <= MAX_RECORDS && ValidStore(owner.mem)
  {
    hide Init, Run, OverlayLaws.KeySet;
    InitHolds(s);
    RunKeeps(s, steps);
    OwnerOutboxEmpty(Run(s, steps));
    OverlayLaws.KeySetSize(Run(s, steps).owner.mem.records);
    assert OverlayLaws.PendingKeys([]) == {};
  }

  lemma HubForgetsNothing(s: System, steps: seq<Step>, more: seq<Step>, atOwner: bool)
    requires Init(s)
    ensures Named(HubOf(Run(s, steps), atOwner).mem) <= Named(HubOf(Run(s, steps + more), atOwner).mem)
  {
    hide Init, Run, View, ValidStore, OverlayLaws.KeySet;
    if atOwner {
      OwnerShowsRecords(s, steps);
      OwnerShowsRecords(s, steps + more);
      InitHolds(s);
      RunKeeps(s, steps);
      RunConcat(s, steps, more);
      OwnerHistoryAdvances(Run(s, steps), more);
      AdvancedKeys(Run(s, steps).owner.mem.records, Run(s, steps + more).owner.mem.records);
    } else {
      hide Named;
      NamedStays(s, steps, more);
    }
  }

  lemma AdvancedKeys(a: seq<Record>, b: seq<Record>)
    requires Advances(a, b)
    ensures OverlayLaws.KeySet(a) <= OverlayLaws.KeySet(b)
  {
    forall key | key in OverlayLaws.KeySet(a) ensures key in OverlayLaws.KeySet(b) {
      var i :| 0 <= i < |a| && a[i].key == key;
      assert b[i].key == key;
    }
  }

  /** A key that is known and not live is spent. */
  lemma NotLiveIsSpent(s: System, steps: seq<Step>, atOwner: bool, key: Key)
    requires Init(s)
    requires var mem := HubOf(Run(s, steps), atOwner).mem; key in Named(mem) && !Live(Lookup(View(mem), key))
    ensures Spent(HubOf(Run(s, steps), atOwner).mem, key)
  {
    hide Init, Run, View, Lookup, Named, CounterAhead, ValidStore;
    var mem := HubOf(Run(s, steps), atOwner).mem;
    if Lookup(View(mem), key).None? {
      if atOwner {
        OwnerShowsRecords(s, steps);
      } else {
        ReplicaCounterAhead(s, steps);
      }
      MissingMeansCrowded(mem, key);
    }
  }

  /** Once a key is spent, no callback about it changes anything, at any later time. */
  lemma SpentIgnored(
    s: System, steps: seq<Step>, more: seq<Step>, atOwner: bool, closed: Key, reason: nat,
    instance: Option<string>, key: Option<Key>, durability: Durability)
    requires Init(s) && Spent(HubOf(Run(s, steps), atOwner).mem, closed)
    requires Names(HubOf(s, atOwner).identity, instance, key, closed)
    ensures var hub := HubOf(Run(s, steps + more), atOwner);
            AfterUnclaimed(hub, HubOf(s, atOwner).identity, reason, instance, key, durability) == hub
  {
    hide Init, Run, View, Lookup, Named, CounterAhead, ValidStore, AfterUnclaimed, Candidate;
    var hub, identity := HubOf(Run(s, steps + more), atOwner), HubOf(s, atOwner).identity;
    if Dead(Lookup(View(HubOf(Run(s, steps), atOwner).mem), closed)) {
      if atOwner {
        OwnerShowsRecords(s, steps);
        OwnerShowsRecords(s, steps + more);
        OwnerTombstonesStay(s, steps, more, closed);
      } else {
        NetworkTombstones.ShownDismissalIsFinal(s, steps, more, closed);
      }
      NotLiveIgnored(hub, identity, reason, instance, key, closed, durability);
    } else {
      HubForgetsNothing(s, steps, more, atOwner);
      OverlayLaws.SubsetSize(Named(HubOf(Run(s, steps), atOwner).mem), Named(hub.mem));
      if atOwner {
        OwnerShowsRecords(s, steps);
      } else {
        ReplicaCounterAhead(s, steps + more);
        ReplicaRole(s, steps + more);
        CrowdedIgnored(hub, identity, reason, instance, key, durability);
      }
    }
  }

  lemma ReplicaRole(s: System, steps: seq<Step>)
    requires Init(s)
    ensures !IsCoordinator(Run(s, steps).replica)
  {
    hide Init, Run;
    InitHolds(s);
    RunKeeps(s, steps);
  }

  // --------------------------------------------------------- a bridge on a hub

  /**
   What happens on a bridge's machine: a step of the system, a pass or callback of the
   bridge, or the shell reporting the entries it displays.
   */
  datatype Turn = Moved(step: Step) | Bridged(board: Board) | Registered(board: Board)

  /** Only keys the hub knows are registered; a number the shell displays was not closed after all. */
  ghost predicate Registers(before: Board, after: Board, store: StoreValue) {
    && Remembered(after) && after.known <= before.known + Named(store)
    && forall id :: id in after.closes ==> id in before.closes && after.closes[id] == before.closes[id]
  }

  function StepsOf(turns: seq<Turn>): seq<Step> {
    if |turns| == 0 then []
    else
      var last := turns[|turns| - 1];
      StepsOf(turns[..|turns| - 1]) + if last.Moved? then [last.step] else []
  }

  function BoardAfter(start: Board, turns: seq<Turn>): Board {
    if |turns| == 0 then start
    else
      var last := turns[|turns| - 1];
      if last.Moved? then BoardAfter(start, turns[..|turns| - 1]) else last.board
  }

  function StoreAt(s: System, turns: seq<Turn>, atOwner: bool): StoreValue {
    HubOf(Run(s, StepsOf(turns)), atOwner).mem
  }

  /** Each turn of the bridge goes by what its hub has at that time. */
  ghost predicate Together(s: System, start: Board, turns: seq<Turn>, atOwner: bool) {
    |turns| > 0 ==>
      var front, last := turns[..|turns| - 1], turns[|turns| - 1];
      && Together(s, start, front, atOwner)
      && (last.Bridged? ==> Follows(BoardAfter(start, front), last.board, View(StoreAt(s, front, atOwner))))
      && (last.Registered? ==> Registers(BoardAfter(start, front), last.board, StoreAt(s, front, atOwner)))
  }

  /** A bridge that has closed nothing yet, and has copies only of what its hub knows. */
  ghost predicate Begun(s: System, start: Board, atOwner: bool) {
    Remembered(start) && start.closes == map[] && start.known <= Named(HubOf(s, atOwner).mem)
  }

  lemma LiveIsNamed(store: StoreValue, key: Key)
    requires LiveIn(View(store), key)
    ensures key in Named(store)
  {
    hide View, Named;
    ShownIsNamed(store, key);
  }

  lemma NotLiveLookup(view: seq<Record>, key: Key)
    requires !LiveIn(view, key)
    ensures !Live(Lookup(view, key))
    ensures DeadIn(view, key) ==> Dead(Lookup(view, key))
  {
  }

  /** What the bridge has ever had a copy of, its hub knows. */
  lemma {:induction false} KnownIsNamed(s: System, start: Board, turns: seq<Turn>, atOwner: bool)
    requires Init(s) && Begun(s, start, atOwner) && Together(s, start, turns, atOwner)
    ensures Remembered(BoardAfter(start, turns))
    ensures BoardAfter(start, turns).known <= Named(StoreAt(s, turns, atOwner))
  {
    hide Init, Run, View, Named, Remembered, LiveIn, HubOf;
    if |turns| == 0 {
      assert Run(s, []) == s by { RunNone(s); }
    } else {
      var front, last := turns[..|turns| - 1], turns[|turns| - 1];
      KnownIsNamed(s, start, front, atOwner);
      if last.Moved? {
        HubForgetsNothing(s, StepsOf(front), [last.step], atOwner);
      } else {
        assert StepsOf(turns) == StepsOf(front) + [] == StepsOf(front);
        forall key | key in last.board.known ensures key in Named(StoreAt(s, turns, atOwner)) {
          if key !in BoardAfter(start, front).known && last.Bridged? {
            LiveIsNamed(StoreAt(s, front, atOwner), key);
          }
        }
      }
    }
  }

  /** At the time a close was asked for, its key was spent. */
  lemma {:induction false} SpentWhenClosed(s: System, start: Board, turns: seq<Turn>, atOwner: bool, id: nat)
    returns (n: nat)
    requires Init(s) && Begun(s, start, atOwner) && Together(s, start, turns, atOwner)
    requires id in BoardAfter(start, turns).closes
    ensures n <= |turns|
    ensures Spent(StoreAt(s, turns[..n], atOwner), BoardAfter(start, turns).closes[id].key)
  {
    hide Init, Run, View, Named, LiveIn, DeadIn, Spent, HubOf, Unmapped, Lookup, Live, Dead;
    assert |turns| > 0;
    var last := |turns| - 1;
    var front := turns[..last];
    var before, after := BoardAfter(start, front), BoardAfter(start, turns);
    if id in before.closes {
      n := SpentWhenClosed(s, start, front, atOwner, id);
      assert front[..n] == turns[..n];
    } else {
      n := last;
      KnownIsNamed(s, start, front, atOwner);
      var key, store := after.closes[id].key, StoreAt(s, front, atOwner);
      NotLiveLookup(View(store), key);
      if key in after.known {
        NotLiveIsSpent(s, StepsOf(front), atOwner, key);
      } else {
        DeadIsSpent(store, key);
      }
    }
  }

  lemma DeadIsSpent(store: StoreValue, key: Key)
    requires Dead(Lookup(View(store), key))
    ensures Spent(store, key)
  {
  }

  lemma {:induction false} StepsSplit(turns: seq<Turn>, n: nat) returns (more: seq<Step>)
    requires n <= |turns|
    ensures StepsOf(turns) == StepsOf(turns[..n]) + more
    decreases |turns|
  {
    if n == |turns| {
      more := [];
      assert turns[..n] == turns;
    } else {
      var last := |turns| - 1;
      var front := StepsSplit(turns[..last], n);
      assert turns[..last][..n] == turns[..n];
      more := front + if turns[last].Moved? then [turns[last].step] else [];
    }
  }

  /**
   However passes, callbacks, registrations and steps of the whole system interleave, crashes
   and sessions included: the callback of any close the bridge asked for finds its number unmapped and
   leaves the machine's history alone, whatever reason it carries.
   */
  lemma OwnClosesIgnored(
    s: System, start: Board, turns: seq<Turn>, atOwner: bool, id: nat, reason: nat,
    instance: Option<string>, key: Option<Key>, durability: Durability)
    requires Init(s) && Begun(s, start, atOwner) && Together(s, start, turns, atOwner)
    requires var board := BoardAfter(start, turns);
             id in board.closes && Names(HubOf(s, atOwner).identity, instance, key, board.closes[id].key)
    ensures var board, hub := BoardAfter(start, turns), HubOf(Run(s, StepsOf(turns)), atOwner);
            && Unmapped(board.native, board.projections, id)
            && AfterUnclaimed(hub, HubOf(s, atOwner).identity, reason, instance, key, durability) == hub
  {
    hide Init, Run, Spent, AfterUnclaimed, Unmapped, Candidate, HubOf, Named, Follows, Justified;
    KnownIsNamed(s, start, turns, atOwner);
    var n := SpentWhenClosed(s, start, turns, atOwner, id);
    var more := StepsSplit(turns, n);
    SpentIgnored(s, StepsOf(turns[..n]), more, atOwner, BoardAfter(start, turns).closes[id].key, reason,
                 instance, key, durability);
  }

  /** A callback forgets and closes nothing, so it is a turn whatever the view is then. */
  lemma CallbackIsTurn(a: Board, b: Board, view: seq<Record>)
    requires Follows(a, b, []) && a.closes == b.closes && a.known == b.known
    ensures Follows(a, b, view)
  {
    hide Remembered, LiveIn;
  }
}
