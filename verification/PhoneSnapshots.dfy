/** Whole phone snapshots, with anything else the hub commits happening in between. */
module PhoneSnapshots {
  import opened Types
  import opened StoreSpec
  import opened LinkSpec
  import opened PhoneSpec
  import opened PhoneLaws
  import opened PhoneRuns

  /** One phone's session: an event it sends, or whatever else happens to the hub meanwhile. */
  datatype Turn =
    | Sent(event: PhoneEvent, token: string, durability: Durability)
    | Meanwhile(hub: Hub)

  datatype Progress = Progress(hub: Hub, source: Source)

  ghost function TakeTurn(p: Progress, turn: Turn): Progress {
    match turn
    case Sent(event, token, durability) =>
      var r := PhoneApply(p.hub, p.source, event, token, [], durability);
      Progress(r.hub, r.source)
    case Meanwhile(hub) => Progress(hub, p.source)
  }

  ghost function Continue(p: Progress, turns: seq<Turn>): Progress {
    if |turns| == 0 then p else TakeTurn(Continue(p, turns[..|turns| - 1]), turns[|turns| - 1])
  }

  /** The session is inside its snapshot: no end is sent yet. */
  ghost predicate Inside(turns: seq<Turn>) {
    forall i :: 0 <= i < |turns| && turns[i].Sent? ==> !turns[i].event.PhoneSnapshotEnd?
  }

  // ------------------------------------------------------- failed snapshots

  lemma PostKeepsSession(
    hub: Hub, source: Source, id: string, content: Content, token: string, durability: Durability)
    ensures var after := ApplyPosted(hub, source, id, content, token, durability).source;
            after == source.(resent := after.resent) && (after.resent.Some? <==> source.resent.Some?)
  {
    hide CommitChanges, Present;
  }

  lemma RemovalKeepsSession(hub: Hub, source: Source, id: string, durability: Durability)
    ensures ApplyRemoved(hub, source, id, durability).source == source
  {
    hide CommitChanges, Present;
  }

  lemma EventKeepsFailure(hub: Hub, source: Source, event: PhoneEvent, token: string, durability: Durability)
    requires source.resent.Some? && !event.PhoneSnapshotEnd?
    ensures var r := PhoneApply(hub, source, event, token, [], durability);
            && r.source.prefix == source.prefix && r.source.name == source.name
            && r.source.resent.Some?
            && (r.source.snapshotFailed <==> source.snapshotFailed || r.error.Some?)
  {
    hide ApplyPosted, ApplyRemoved, ApplyEnd;
    if event.Posted? {
      PostKeepsSession(hub, source, event.id, event.content, token, durability);
    } else if event.Removed? {
      RemovalKeepsSession(hub, source, event.id, durability);
    }
  }

  lemma {:induction false} FailureSticks(p: Progress, turns: seq<Turn>)
    requires p.source.resent.Some? && p.source.snapshotFailed && Inside(turns)
    ensures var s := Continue(p, turns).source;
            s.resent.Some? && s.snapshotFailed && s.prefix == p.source.prefix
  {
    hide PhoneApply;
    if |turns| > 0 {
      var front, last := turns[..|turns| - 1], turns[|turns| - 1];
      FailureSticks(p, front);
      if last.Sent? {
        var before := Continue(p, front);
        EventKeepsFailure(before.hub, before.source, last.event, last.token, last.durability);
      }
    }
  }

  lemma FailedEnd(hub: Hub, source: Source, order: seq<string>, durability: Durability)
    requires source.resent.Some? && source.snapshotFailed
    ensures PhoneApply(hub, source, PhoneSnapshotEnd, "", order, durability)
         == PhoneOutcome(source.(resent := None), hub, Some(PhoneSnapshotIncomplete))
  {
    hide CommitChanges, Withdrawals, Withdrawn;
  }

  /**
   Once anything in a snapshot failed, its end reports the failure and withdraws nothing,
   whatever else the phone sends and whatever else is committed in between, and however
   each write ends.
   */
  lemma FailedSnapshotWithdrawsNothing(
    hub: Hub, source: Source, first: PhoneEvent, token: string, failing: Durability, turns: seq<Turn>,
    order: seq<string>, durability: Durability)
    requires source.resent.Some? && !first.PhoneSnapshotEnd? && Inside(turns)
    requires PhoneApply(hub, source, first, token, [], failing).error.Some?
    ensures var failed := PhoneApply(hub, source, first, token, [], failing);
            var p := Continue(Progress(failed.hub, failed.source), turns);
            var done := PhoneApply(p.hub, p.source, PhoneSnapshotEnd, "", order, durability);
            done.hub == p.hub && done.error == Some(PhoneSnapshotIncomplete) && done.source.resent.None?
  {
    hide Continue, PhoneApply, Inside;
    EventKeepsFailure(hub, source, first, token, failing);
    var failed := PhoneApply(hub, source, first, token, [], failing);
    FailureSticks(Progress(failed.hub, failed.source), turns);
    var p := Continue(Progress(failed.hub, failed.source), turns);
    FailedEnd(p.hub, p.source, order, durability);
  }

  // ----------------------------------------------------- complete snapshots

  /** As far as this phone is concerned, nothing was shown or withdrawn. */
  ghost predicate SameHere(prefix: string, before: StoreValue, after: StoreValue) {
    forall id :: HasPrefix(id, prefix) ==> (Present(before, id) <==> Present(after, id))
  }

  /** What happens meanwhile leaves the owner in order and this phone's ids alone. */
  ghost predicate Minded(p: Progress, turns: seq<Turn>) {
    forall i :: 0 <= i < |turns| ==>
      match turns[i]
      case Sent(_, token, _) => NoSlash(token)
      case Meanwhile(hub) => OwnerHub(hub) && SameHere(p.source.prefix, Continue(p, turns[..i]).hub.mem, hub.mem)
  }

  /** The ids whose last word in the session is a post. */
  ghost function LastPosted(prefix: string, turns: seq<Turn>): set<string> {
    if |turns| == 0 then {}
    else
      var before, turn := LastPosted(prefix, turns[..|turns| - 1]), turns[|turns| - 1];
      if turn.Sent? && turn.event.Posted? then before + {prefix + turn.event.id}
      else if turn.Sent? && turn.event.Removed? then before - {prefix + turn.event.id}
      else before
  }

  /** Where a session without failures stands: noted ids are present unless removed again. */
  ghost predicate Noted(source: Source, store: StoreValue, posted: set<string>) {
    && source.resent.Some? && posted <= source.resent.value
    && (forall id :: id in source.resent.value ==> HasPrefix(id, source.prefix))
    && (forall id :: id in posted ==> Present(store, id))
    && (forall id :: id in source.resent.value && id !in posted ==> !Present(store, id))
  }

  lemma PrefixedIds(prefix: string, id: string)
    ensures HasPrefix(prefix + id, prefix)
  {
  }

  lemma PostNotes(
    hub: Hub, source: Source, id: string, content: Content, token: string, durability: Durability,
    posted: set<string>)
    requires OwnerHub(hub) && NoSlash(token) && Noted(source, hub.mem, posted)
    ensures var r := ApplyPosted(hub, source, id, content, token, durability);
            && OwnerHub(r.hub)
            && (r.error.None? ==> Noted(r.source, r.hub.mem, posted + {source.prefix + id}))
            && (forall other :: other != source.prefix + id ==>
                  (Present(r.hub.mem, other) <==> Present(hub.mem, other)))
  {
    hide OwnerHub, NoSlash, CommitChanges, Lookup, Advances, Dead, PhonesOk, HasPrefix;
    PrefixedIds(source.prefix, id);
    PostedLaw(hub, source, id, content, token, durability);
    PostSource(hub, source, id, content, token, durability);
  }

  lemma PostSource(
    hub: Hub, source: Source, id: string, content: Content, token: string, durability: Durability)
    requires source.resent.Some?
    ensures var r := ApplyPosted(hub, source, id, content, token, durability);
            r.error.None? ==> r.source == source.(resent := Some(source.resent.value + {source.prefix + id}))
  {
    hide QueueBatch, Requests;
  }

  lemma RemovalNotes(hub: Hub, source: Source, id: string, durability: Durability, posted: set<string>)
    requires OwnerHub(hub) && Noted(source, hub.mem, posted)
    ensures var r := ApplyRemoved(hub, source, id, durability);
            && OwnerHub(r.hub)
            && (r.error.None? ==> Noted(r.source, r.hub.mem, posted - {source.prefix + id}))
            && (forall other :: other != source.prefix + id ==>
                  (Present(r.hub.mem, other) <==> Present(hub.mem, other)))
  {
    hide OwnerHub, Lookup, Advances, Dead, PhonesOk, HasPrefix, QueueBatch, Requests;
    RemovedLaw(hub, source, id, durability);
  }

  /** How far an unfinished session has come: failed, or noted as it should be. */
  ghost predicate UnderWay(p: Progress, start: Progress, turns: seq<Turn>) {
    && OwnerHub(p.hub) && p.source.prefix == start.source.prefix && p.source.resent.Some?
    && (!p.source.snapshotFailed ==> Noted(p.source, p.hub.mem, LastPosted(start.source.prefix, turns)))
    && ((forall i :: 0 <= i < |turns| ==> turns[i].Sent?) ==> OthersSame(p, start))
  }

  ghost predicate OthersSame(p: Progress, start: Progress) {
    forall id :: !HasPrefix(id, start.source.prefix) ==>
      (Present(p.hub.mem, id) <==> Present(start.hub.mem, id))
  }

  lemma SentKeeps(p: Progress, start: Progress, turns: seq<Turn>, turn: Turn)
    requires UnderWay(p, start, turns)
    requires turn.Sent? && !turn.event.PhoneSnapshotEnd? && NoSlash(turn.token)
    ensures UnderWay(TakeTurn(p, turn), start, turns + [turn])
  {
    hide OwnerHub, NoSlash, HasPrefix, Present, ApplyPosted, ApplyRemoved, Noted;
    var posted, all := LastPosted(start.source.prefix, turns), turns + [turn];
    assert all[..|turns|] == turns;
    EventKeepsFailure(p.hub, p.source, turn.event, turn.token, turn.durability);
    assert forall i :: 0 <= i < |turns| ==> all[i] == turns[i];
    match turn.event
    case Posted(id, content) =>
      PrefixedIds(p.source.prefix, id);
      SentPost(p, id, content, turn.token, turn.durability, posted);
    case Removed(id) =>
      PrefixedIds(p.source.prefix, id);
      SentRemoval(p, id, turn.durability, posted);
    case PhoneSnapshotStart =>
  }

  lemma SentPost(
    p: Progress, id: string, content: Content, token: string, durability: Durability, posted: set<string>)
    requires OwnerHub(p.hub) && NoSlash(token)
    ensures var r := ApplyPosted(p.hub, p.source, id, content, token, durability);
            && OwnerHub(r.hub)
            && (Noted(p.source, p.hub.mem, posted) && r.error.None? ==>
                  Noted(r.source, r.hub.mem, posted + {p.source.prefix + id}))
            && (forall other :: other != p.source.prefix + id ==>
                  (Present(r.hub.mem, other) <==> Present(p.hub.mem, other)))
  {
    hide OwnerHub, NoSlash, ApplyPosted, Lookup, Advances, Dead, PhonesOk, Noted;
    PostedLaw(p.hub, p.source, id, content, token, durability);
    if Noted(p.source, p.hub.mem, posted) {
      PostNotes(p.hub, p.source, id, content, token, durability, posted);
    }
  }

  lemma SentRemoval(p: Progress, id: string, durability: Durability, posted: set<string>)
    requires OwnerHub(p.hub)
    ensures var r := ApplyRemoved(p.hub, p.source, id, durability);
            && OwnerHub(r.hub)
            && (Noted(p.source, p.hub.mem, posted) && r.error.None? ==>
                  Noted(r.source, r.hub.mem, posted - {p.source.prefix + id}))
            && (forall other :: other != p.source.prefix + id ==>
                  (Present(r.hub.mem, other) <==> Present(p.hub.mem, other)))
  {
    hide OwnerHub, ApplyRemoved, Lookup, Advances, Dead, PhonesOk, Noted;
    RemovedLaw(p.hub, p.source, id, durability);
    if Noted(p.source, p.hub.mem, posted) {
      RemovalNotes(p.hub, p.source, id, durability, posted);
    }
  }

  lemma MeanwhileKeeps(p: Progress, start: Progress, turns: seq<Turn>, turn: Turn)
    requires UnderWay(p, start, turns) && turn.Meanwhile?
    requires OwnerHub(turn.hub) && SameHere(p.source.prefix, p.hub.mem, turn.hub.mem)
    ensures UnderWay(TakeTurn(p, turn), start, turns + [turn])
  {
    hide OwnerHub, HasPrefix, Present;
    assert (turns + [turn])[..|turns|] == turns;
    assert (turns + [turn])[|turns|] == turn;
  }

  lemma {:induction false} SessionKeeps(start: Progress, turns: seq<Turn>)
    requires UnderWay(start, start, []) && Inside(turns) && Minded(start, turns)
    ensures UnderWay(Continue(start, turns), start, turns)
  {
    hide UnderWay, PhoneApply, SameHere, OwnerHub, NoSlash;
    if |turns| > 0 {
      var front, last := turns[..|turns| - 1], turns[|turns| - 1];
      forall i | 0 <= i < |front| ensures front[i] == turns[i] && front[..i] == turns[..i] {
      }
      SessionKeeps(start, front);
      assert front + [last] == turns;
      SamePrefix(Continue(start, front), start, front);
      if last.Sent? {
        SentKeeps(Continue(start, front), start, front, last);
      } else {
        MeanwhileKeeps(Continue(start, front), start, front, last);
      }
    } else {
      assert turns == [];
    }
  }

  lemma SamePrefix(p: Progress, start: Progress, turns: seq<Turn>)
    requires UnderWay(p, start, turns)
    ensures p.source.prefix == start.source.prefix
  {
  }

  /**
   A phone's snapshot is authoritative. When its end is accepted, the ids present for this
   phone are exactly those whose last word since the start was a post, whatever removals and
   repeated posts came between, whatever other phones, peers and this machine committed
   meanwhile. Other phones' ids are as they were just before the end, and when nothing
   happened meanwhile as they were at the start.
   */
  lemma SnapshotIsAuthoritative(
    hub: Hub, source: Source, turns: seq<Turn>, order: seq<string>, durability: Durability)
    requires OwnerHub(hub) && source.resent.None? && Inside(turns)
    requires var started := PhoneApply(hub, source, PhoneSnapshotStart, "", [], durability);
             var start := Progress(started.hub, started.source);
             Minded(start, turns) && Enumerates(order, Continue(start, turns).hub.mem)
    ensures var started := PhoneApply(hub, source, PhoneSnapshotStart, "", [], durability);
            var p := Continue(Progress(started.hub, started.source), turns);
            var done := PhoneApply(p.hub, p.source, PhoneSnapshotEnd, "", order, durability);
            done.error.None? ==>
              && OwnerHub(done.hub)
              && (forall id :: HasPrefix(id, source.prefix) ==>
                    (Present(done.hub.mem, id) <==> id in LastPosted(source.prefix, turns)))
              && (forall id :: !HasPrefix(id, source.prefix) ==>
                    (Present(done.hub.mem, id) <==> Present(p.hub.mem, id)))
              && ((forall i :: 0 <= i < |turns| ==> turns[i].Sent?) ==>
                    forall id :: !HasPrefix(id, source.prefix) ==>
                      (Present(done.hub.mem, id) <==> Present(hub.mem, id)))
  {
    hide OwnerHub, ApplyEnd, Continue, Minded, Inside, Enumerates, Present, HasPrefix, LastPosted, Lookup,
         Advances, Dead;
    var start := Progress(hub, source.(resent := Some({}), snapshotFailed := false));
    StartedUnderWay(start);
    SessionKeeps(start, turns);
    var p := Continue(start, turns);
    EndLaw(p.hub, p.source, order, durability);
  }

  lemma StartedUnderWay(start: Progress)
    requires OwnerHub(start.hub) && start.source.resent == Some({}) && !start.source.snapshotFailed
    ensures UnderWay(start, start, [])
  {
  }

  // ------------------------------------------- what may happen in the meantime

  /** Phones' prefixes end in a slash and differ, so neither extends the other. */
  ghost predicate Apart(a: string, b: string) {
    forall id :: !(HasPrefix(id, a) && HasPrefix(id, b))
  }

  /**
   Peers' operations, this machine's own changes and other phones' events all qualify as
   something that may happen meanwhile.
   */
  lemma OthersAreMinded(hub: Hub, step: HubStep, prefix: string)
    requires HubOk(hub) && !step.Restart?
    requires step.FromPhone? ==> Apart(step.source.prefix, prefix)
    ensures OwnerHub(After(hub, step)) && SameHere(prefix, hub.mem, After(hub, step).mem)
  {
    hide OwnerHub, PhoneApply, BatchStore, Replay, HasPrefix, KeepsLifetimes, PhonesOk, NoSlash, Enumerates;
    AfterKeeps(hub, step);
    if Possible(hub, step) {
      match step
      case FromPhone(source, event, token, order, durability) =>
        OtherPhoneSame(hub, source, event, token, order, durability, prefix);
      case FromPeers(submissions, durability) =>
      case FromLocal(requests, durability) =>
        LocalSame(hub.mem, requests);
    }
  }

  lemma LocalSame(store: StoreValue, requests: seq<Request>)
    requires BatchStore(store, requests, None, true).Some?
    ensures BatchStore(store, requests, None, true).value.phoneInstances == store.phoneInstances
  {
    hide QueueBatch;
    BatchFrame(store, requests, true);
  }

  lemma OtherPhoneSame(
    hub: Hub, source: Source, event: PhoneEvent, token: string, order: seq<string>, durability: Durability,
    prefix: string)
    requires OwnerHub(hub) && Apart(source.prefix, prefix) && NoSlash(token)
    requires event.PhoneSnapshotEnd? ==> Enumerates(order, hub.mem)
    ensures SameHere(prefix, hub.mem, PhoneApply(hub, source, event, token, order, durability).hub.mem)
  {
    hide OwnerHub, ApplyPosted, ApplyRemoved, ApplyEnd, NoSlash, Lookup, Advances, Dead, Enumerates, HasPrefix;
    match event
    case PhoneSnapshotStart =>
    case Posted(id, content) =>
      PrefixedIds(source.prefix, id);
      PostedLaw(hub, source, id, content, token, durability);
    case Removed(id) =>
      PrefixedIds(source.prefix, id);
      RemovedLaw(hub, source, id, durability);
    case PhoneSnapshotEnd =>
      EndLaw(hub, source, order, durability);
  }
}
