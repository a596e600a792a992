/**
 The bridge between one desktop shell and the shared history: which keys stand for the
 shell's own notifications, which for silent copies, and how a pass brings the copies in
 line with the view.
 */
module Bridge {
  import opened Types
  import opened StoreSpec
  import opened LinkSpec
  import LinkObject

  datatype Copy = Copy(id: nat, content: Content)

  datatype Displayed = Displayed(key: Key, content: Content)

  datatype Call =
    | ShowCall(key: Key, content: Content, replaced: nat)
    | CloseCall(id: nat, key: Key)

  predicate LocalPhone(identity: string, key: Key) {
    key.origin == identity && "phone/" <= key.instance
  }

  /**
   The desktop as far as copies go. Showing can fail, closing can fail unnoticed, and an
   entry that is gone when it is replaced may come back under a new number.
   */
  class Tray {
    var entries: map<nat, Displayed>
    var nextId: nat
    ghost var calls: seq<Call>
    ghost var closeFailed: bool
    ghost var refusals: nat  // entries that could not be shown

    method Show(key: Key, content: Content, replaced: nat) returns (id: Option<nat>)
      requires replaced < nextId
      modifies this
      ensures calls == old(calls) + [ShowCall(key, content, replaced)]
      ensures closeFailed == old(closeFailed) && nextId >= old(nextId)
      ensures refusals == old(refusals) + if id.None? then 1 else 0
      ensures id.None? ==> entries == old(entries) && nextId == old(nextId)
      ensures id.Some? ==>
                && 0 < id.value < nextId
                && entries == old(entries)[id.value := Displayed(key, content)]
                && (id.value == replaced || id.value >= old(nextId))
                && (replaced in old(entries) && replaced != 0 ==> id.value == replaced)
    {
      calls := calls + [ShowCall(key, content, replaced)];
      if * {
        refusals := refusals + 1;
        return None;
      }
      var chosen := replaced;
      if replaced == 0 {
        chosen := nextId;
      } else if replaced !in entries {
        if * {
          chosen := nextId;
        }
      }
      if chosen == nextId {
        nextId := nextId + 1;
      }
      entries := entries[chosen := Displayed(key, content)];
      id := Some(chosen);
    }

    method Close(id: nat, ghost key: Key)
      modifies this
      ensures calls == old(calls) + [CloseCall(id, key)]
      ensures nextId == old(nextId) && (old(closeFailed) ==> closeFailed) && refusals == old(refusals)
      ensures entries == old(entries) - {id} || (entries == old(entries) && closeFailed)
    {
      calls := calls + [CloseCall(id, key)];
      if * {
        entries := entries - {id};
      } else {
        closeFailed := true;
      }
    }
  }

  // -------------------------------------------------------------- predicates

  predicate LiveIn(records: seq<Record>, key: Key) {
    exists i :: 0 <= i < |records| && records[i].key == key && records[i].content.Some?
  }

  predicate DeadIn(records: seq<Record>, key: Key) {
    exists i :: 0 <= i < |records| && records[i].key == key && records[i].content.None?
  }

  /** Numbers are real, already handed out, and each stands for one thing. */
  ghost predicate Distinct(native: map<Key, nat>, projections: map<Key, Copy>, limit: nat) {
    && (forall k :: k in native ==> 0 < native[k] < limit)
    && (forall k :: k in projections ==> 0 < projections[k].id < limit)
    && (forall a, b :: a in native && b in native && native[a] == native[b] ==> a == b)
    && (forall a, b :: a in projections && b in projections && projections[a].id == projections[b].id ==> a == b)
    && (forall a, b :: a in native && b in projections ==> native[a] != projections[b].id)
  }

  /** The desktop displays exactly the copies the bridge remembers. */
  ghost predicate Exact(projections: map<Key, Copy>, entries: map<nat, Displayed>) {
    && (forall k :: k in projections ==>
          && projections[k].id in entries
          && entries[projections[k].id] == Displayed(k, projections[k].content))
    && (forall n :: n in entries ==>
          entries[n].key in projections && projections[entries[n].key].id == n)
  }

  /** Nothing is left to do for this record. */
  ghost predicate SettledRecord(
    identity: string, native: map<Key, nat>, projections: map<Key, Copy>, record: Record)
  {
    var key := record.key;
    if LocalPhone(identity, key) then true
    else if record.content.None? then key !in native && key !in projections
    else key in native || (key in projections && projections[key].content == record.content.value)
  }

  ghost predicate Settled(
    identity: string, native: map<Key, nat>, projections: map<Key, Copy>, records: seq<Record>)
  {
    && (forall i :: 0 <= i < |records| ==> SettledRecord(identity, native, projections, records[i]))
    && (forall k :: k in projections ==> LiveIn(records, k))
  }

  ghost predicate Unmapped(native: map<Key, nat>, projections: map<Key, Copy>, id: nat) {
    && (forall k :: k in native ==> native[k] != id)
    && (forall k :: k in projections ==> projections[k].id != id)
  }

  /** A close the bridge asked for itself: of which key, and the view it went by. */
  datatype Closing = Closing(key: Key, view: seq<Record>)

  /**
   What the bridge remembers, the numbers handed out so far, the closes it asked for and the
   keys it has ever kept a copy of.
   */
  datatype Board = Board(
    native: map<Key, nat>, projections: map<Key, Copy>, limit: nat, closes: map<nat, Closing>,
    known: set<Key>)

  /**
   A number the bridge closed stands for nothing any more. Its key was not live, and had
   been shown before unless the view said it was dismissed.
   */
  ghost predicate Remembered(b: Board) {
    && (forall k :: k in b.projections ==> k in b.known)
    && forall id :: id in b.closes ==>
         && 0 < id < b.limit && Unmapped(b.native, b.projections, id)
         && Justified(b.closes[id], b.known)
  }

  ghost predicate Justified(closing: Closing, known: set<Key>) {
    && !LiveIn(closing.view, closing.key)
    && (closing.key in known || DeadIn(closing.view, closing.key))
  }

  /**
   Later, having gone by this view only: what was closed stays closed, new closes are on
   record with the view, and only what it shows live has become known.
   */
  ghost predicate Follows(a: Board, b: Board, view: seq<Record>) {
    && a.limit <= b.limit
    && a.known <= b.known && (forall k :: k in b.known && k !in a.known ==> LiveIn(view, k))
    && (forall id :: id in a.closes ==> id in b.closes && b.closes[id] == a.closes[id])
    && (forall id :: id in b.closes && id !in a.closes ==> b.closes[id].view == view)
    && Remembered(b)
  }

  /** Every close among the calls made since the first `n` is accounted for. */
  ghost predicate Recorded(closes: map<nat, Closing>, view: seq<Record>, calls: seq<Call>, n: nat) {
    forall j :: n <= j < |calls| && calls[j].CloseCall? ==>
      calls[j].id in closes && closes[calls[j].id] == Closing(calls[j].key, view)
  }

  // ------------------------------------------------------------------ lemmas

  /** What a settled, exact bridge means to someone looking at the desktop. */
  lemma DisplayedExactlyWhenLive(
    identity: string, native: map<Key, nat>, projections: map<Key, Copy>, entries: map<nat, Displayed>,
    records: seq<Record>, key: Key)
    requires UniqueKeys(records)
    requires Settled(identity, native, projections, records) && Exact(projections, entries)
    requires (key.origin != identity || !("phone/" <= key.instance)) && key !in native
    ensures (exists n :: n in entries && entries[n].key == key) <==> Live(Lookup(records, key))
    ensures forall n :: n in entries && entries[n].key == key ==>
              Lookup(records, key).Some? && Some(entries[n].content) == Lookup(records, key).value.content
    ensures forall m, n :: m in entries && n in entries && entries[m].key == key == entries[n].key ==> m == n
  {
  }

  lemma DeadIsNotLive(records: seq<Record>, record: Record)
    requires record in records && record.content.None? && UniqueKeys(records)
    ensures !LiveIn(records, record.key) && DeadIn(records, record.key)
  {
  }

  lemma LiveRecord(records: seq<Record>, record: Record)
    requires record in records && record.content.Some?
    ensures LiveIn(records, record.key)
  {
  }

  ghost predicate SameElsewhere(before: map<Key, Copy>, after: map<Key, Copy>, key: Key) {
    forall k :: k != key ==>
      (k in after <==> k in before) && (k in after ==> after[k] == before[k])
  }

  /** Dismissing a key allocates nothing exactly when the view shows the key dead. */
  lemma DismissalIgnoredExactlyWhenDead(store: StoreValue, key: Key, coordinator: bool)
    ensures (QueueLocal(store, key, None, coordinator) == Ok(Queued(store, false)))
              == Dead(Lookup(View(store), key))
  {
    hide Overlay;
  }

  /** The hub after a local change whose failure the bridge only reports. */
  function AfterLocal(hub: Hub, key: Key, content: Option<Content>, durability: Durability): Hub {
    var queued := QueueLocal(hub.mem, key, content, IsCoordinator(hub));
    if queued.Ok? && queued.value.changed then Commit(hub, queued.value.store, durability) else hub
  }

  /** The key a closed entry stands for when the bridge no longer remembers its number. */
  function Candidate(identity: string, instance: Option<string>, key: Option<Key>): Option<Key> {
    if key.Some? then key
    else if instance.Some? then Some(Key(identity, instance.value))
    else None
  }

  /** A closure the bridge missed is the user's when the key is known and it may be ours to dismiss. */
  function Unclaimed(identity: string, view: seq<Record>, reason: nat, key: Option<Key>): Option<Key> {
    if 1 <= reason <= 3 && key.Some? && IndexOf(view, key.value) >= 0
       && (key.value.origin == identity || reason == 2)
    then key else None
  }

  /** The hub after a closure of a number nothing remembers. */
  function AfterUnclaimed(
    hub: Hub, identity: string, reason: nat, instance: Option<string>, key: Option<Key>,
    durability: Durability): Hub
  {
    var dismissed := Unclaimed(identity, View(hub.mem), reason, Candidate(identity, instance, key));
    if dismissed.Some? then AfterLocal(hub, dismissed.value, None, durability) else hub
  }

  /** A dismissal of this key would get a sequence number. */
  predicate Allocates(hub: Hub, key: Key) {
    var queued := QueueLocal(hub.mem, key, None, IsCoordinator(hub));
    queued.Ok? && queued.value.changed
  }

  lemma NotLiveIsDead(view: seq<Record>, key: Key)
    requires !LiveIn(view, key) && IndexOf(view, key) >= 0
    ensures Dead(Lookup(view, key))
  {
  }

  lemma RemovedCopy(native: map<Key, nat>, projections: map<Key, Copy>, entries: map<nat, Displayed>,
                    limit: nat, key: Key)
    requires Distinct(native, projections, limit) && key in projections
    ensures Distinct(native, projections - {key}, limit)
    ensures Unmapped(native, projections - {key}, projections[key].id)
    ensures Exact(projections, entries) ==> Exact(projections - {key}, entries - {projections[key].id})
  {
  }

  lemma RemovedNative(native: map<Key, nat>, projections: map<Key, Copy>, entries: map<nat, Displayed>,
                      limit: nat, key: Key)
    requires Distinct(native, projections, limit) && key in native
    ensures Distinct(native - {key}, projections, limit)
    ensures Unmapped(native - {key}, projections, native[key])
    ensures Exact(projections, entries) ==> Exact(projections, entries - {native[key]})
  {
  }

  lemma ShownExact(projections: map<Key, Copy>, entries: map<nat, Displayed>, key: Key, content: Content, n: nat)
    requires Exact(projections, entries)
    requires if key in projections then n == projections[key].id else n !in entries
    ensures Exact(projections[key := Copy(n, content)], entries[n := Displayed(key, content)])
  {
  }

  lemma ShownDistinct(native: map<Key, nat>, projections: map<Key, Copy>, before: nat, limit: nat,
                      key: Key, content: Content, n: nat)
    requires Distinct(native, projections, before)
    requires 0 < n < limit && before <= limit
    requires n >= before || (key in projections && n == projections[key].id)
    ensures Distinct(native, projections[key := Copy(n, content)], limit)
  {
  }

  lemma CopyIsThere(projections: map<Key, Copy>, entries: map<nat, Displayed>, key: Key)
    requires Exact(projections, entries) && key in projections
    ensures projections[key].id in entries
  {
  }

  /** A number not handed out yet stands for no copy. */
  lemma NewIsFree(native: map<Key, nat>, projections: map<Key, Copy>, entries: map<nat, Displayed>,
                  limit: nat, n: nat)
    requires Distinct(native, projections, limit) && Exact(projections, entries) && n >= limit
    ensures n !in entries
  {
  }

  lemma FollowsTransitive(a: Board, b: Board, c: Board, view: seq<Record>)
    requires Follows(a, b, view) && Follows(b, c, view)
    ensures Follows(a, c, view)
  {
    hide Remembered;
  }

  lemma RecordedLater(
    a: Board, b: Board, view: seq<Record>, calls: seq<Call>, laterCalls: seq<Call>, n: nat)
    requires Follows(a, b, view) && n <= |calls| && calls <= laterCalls
    requires Recorded(a.closes, view, calls, n) && Recorded(b.closes, view, laterCalls, |calls|)
    ensures Recorded(b.closes, view, laterCalls, n)
  {
    hide Remembered;
    forall j | n <= j < |laterCalls| && laterCalls[j].CloseCall?
      ensures laterCalls[j].id in b.closes && b.closes[laterCalls[j].id] == Closing(laterCalls[j].key, view)
    {
      if j < |calls| { assert calls[j] == laterCalls[j]; }
    }
  }

  /** Over any run of the bridge, a number it once closed is never taken up again. */
  lemma {:induction false} ClosedForGood(boards: seq<Board>, views: seq<seq<Record>>, id: nat)
    requires |boards| == |views| + 1 && id in boards[0].closes && Remembered(boards[0])
    requires forall i :: 0 <= i < |views| ==> Follows(boards[i], boards[i + 1], views[i])
    ensures var last := boards[|boards| - 1];
            && id in last.closes && last.closes[id] == boards[0].closes[id]
            && Unmapped(last.native, last.projections, id)
  {
    hide Unmapped, LiveIn, Justified;
    if |views| > 0 {
      ClosedForGood(boards[..|views|], views[..|views| - 1], id);
      assert Follows(boards[|views| - 1], boards[|views|], views[|views| - 1]);
    }
  }

  lemma ClosedCopy(b: Board, key: Key, view: seq<Record>)
    requires Distinct(b.native, b.projections, b.limit) && Remembered(b)
    requires key in b.projections && !LiveIn(view, key)
    ensures var id := b.projections[key].id;
            var after := b.(projections := b.projections - {key}, closes := b.closes[id := Closing(key, view)]);
            id !in b.closes && Follows(b, after, view)
  {
    hide LiveIn, DeadIn;
  }

  lemma ClosedNative(b: Board, key: Key, view: seq<Record>)
    requires Distinct(b.native, b.projections, b.limit) && Remembered(b)
    requires key in b.native && !LiveIn(view, key) && DeadIn(view, key)
    ensures var id := b.native[key];
            var after := b.(native := b.native - {key}, closes := b.closes[id := Closing(key, view)]);
            id !in b.closes && Follows(b, after, view)
  {
    hide LiveIn, DeadIn;
  }

  lemma ForgottenDistinct(b: Board, native: map<Key, nat>, projections: map<Key, Copy>)
    requires Distinct(b.native, b.projections, b.limit)
    requires forall k :: k in native ==> k in b.native && native[k] == b.native[k]
    requires forall k :: k in projections ==> k in b.projections && projections[k] == b.projections[k]
    ensures Distinct(native, projections, b.limit)
  {
  }

  lemma ForgottenFollows(b: Board, native: map<Key, nat>, projections: map<Key, Copy>)
    requires Remembered(b)
    requires forall k :: k in native ==> k in b.native && native[k] == b.native[k]
    requires forall k :: k in projections ==> k in b.projections && projections[k] == b.projections[k]
    ensures Follows(b, b.(native := native, projections := projections), [])
  {
    hide LiveIn, Justified;
  }

  /** A number stands for one key at most. */
  lemma OneKey(native: map<Key, nat>, projections: map<Key, Copy>, limit: nat, id: nat)
    requires Distinct(native, projections, limit)
    ensures forall a, b :: a in native && b in native && native[a] == id == native[b] ==> a == b
    ensures forall a, b :: a in projections && b in projections && projections[a].id == id == projections[b].id ==>
              a == b
    ensures forall a, b :: a in native && b in projections && native[a] == id ==> projections[b].id != id
  {
  }

  lemma ShownFollows(b: Board, key: Key, content: Content, n: nat, limit: nat, view: seq<Record>)
    requires Remembered(b) && b.limit <= limit && LiveIn(view, key)
    requires n >= b.limit || (key in b.projections && n == b.projections[key].id)
    ensures Follows(b, b.(projections := b.projections[key := Copy(n, content)], limit := limit,
                          known := b.known + {key}), view)
  {
    hide LiveIn, DeadIn;
  }

  lemma NothingRecorded(closes: map<nat, Closing>, view: seq<Record>, calls: seq<Call>)
    ensures Recorded(closes, view, calls, |calls|)
  {
  }

  lemma SameFollows(b: Board, limit: nat, view: seq<Record>)
    requires Remembered(b) && b.limit <= limit
    ensures Follows(b, b.(limit := limit), view)
  {
    hide LiveIn, Unmapped, Justified;
  }

  lemma SettledElsewhere(
    identity: string, native: map<Key, nat>, projections: map<Key, Copy>,
    laterNative: map<Key, nat>, laterProjections: map<Key, Copy>, record: Record, key: Key)
    requires record.key != key
    requires SettledRecord(identity, native, projections, record)
    requires laterNative == native || laterNative == native - {key}
    requires SameElsewhere(projections, laterProjections, key)
    ensures SettledRecord(identity, laterNative, laterProjections, record)
  {
  }

  lemma SettledAfterRemoval(
    identity: string, native: map<Key, nat>, copies: map<Key, Copy>, kept: map<Key, Copy>,
    records: seq<Record>, i: nat)
    requires i < |records| && SettledRecord(identity, native, copies, records[i])
    requires kept == map k | k in copies && LiveIn(records, k) :: copies[k]
    ensures SettledRecord(identity, native, kept, records[i])
  {
  }

  /** The shell's own notifications keep their entries until their key is dismissed. */
  ghost predicate NativeKept(before: map<Key, nat>, after: map<Key, nat>, records: seq<Record>) {
    && (forall k :: k in after ==> k in before && after[k] == before[k])
    && (forall k :: k in before ==> k in after || DeadIn(records, k))
  }

  // ------------------------------------------------------------------ bridge

  class DesktopBridge {
    const identity: string
    var native: map<Key, nat>
    var projections: map<Key, Copy>
    ghost var closes: map<nat, Closing>  // the numbers this bridge had closed
    ghost var known: set<Key>            // the keys it has had a copy of

    ghost predicate Valid(tray: Tray)
      reads this, tray
    {
      tray.nextId > 0 && Distinct(native, projections, tray.nextId) && Remembered(BoardOn(tray))
    }

    ghost function BoardOn(tray: Tray): Board
      reads this, tray
    {
      Board(native, projections, tray.nextId, closes, known)
    }

    constructor (identity: string, tray: Tray)
      requires tray.nextId > 0
      ensures this.identity == identity && Valid(tray)
    {
      this.identity := identity;
      native, projections, closes, known := map[], map[], map[], {};
    }

    ghost predicate ExactOn(tray: Tray)
      reads this, tray
    {
      Exact(projections, tray.entries)
    }

    /** Takes the copy of a key down; the mapping goes first. */
    method DropCopy(key: Key, ghost view: seq<Record>, tray: Tray)
      requires Valid(tray) && key in projections && !LiveIn(view, key)
      modifies this`projections, this`closes, tray
      ensures tray.refusals == old(tray.refusals)
      ensures Valid(tray) && Follows(old(BoardOn(tray)), BoardOn(tray), view)
      ensures projections == old(projections) - {key}
      ensures closes == old(closes)[old(projections)[key].id := Closing(key, view)]
      ensures tray.calls == old(tray.calls) + [CloseCall(old(projections)[key].id, key)]
      ensures old(tray.closeFailed) ==> tray.closeFailed
      ensures old(ExactOn(tray)) && !tray.closeFailed ==> ExactOn(tray)
    {
      hide Exact, Distinct, LiveIn, DeadIn, Unmapped;
      var id := projections[key].id;
      RemovedCopy(native, projections, tray.entries, tray.nextId, key);
      ClosedCopy(BoardOn(tray), key, view);
      projections := projections - {key};
      closes := closes[id := Closing(key, view)];
      tray.Close(id, key);
    }

    method DropNative(key: Key, ghost view: seq<Record>, tray: Tray)
      requires Valid(tray) && key in native && !LiveIn(view, key) && DeadIn(view, key)
      modifies this`native, this`closes, tray
      ensures tray.refusals == old(tray.refusals)
      ensures Valid(tray) && Follows(old(BoardOn(tray)), BoardOn(tray), view)
      ensures native == old(native) - {key}
      ensures closes == old(closes)[old(native)[key] := Closing(key, view)]
      ensures tray.calls == old(tray.calls) + [CloseCall(old(native)[key], key)]
      ensures old(tray.closeFailed) ==> tray.closeFailed
      ensures old(ExactOn(tray)) && !tray.closeFailed ==> ExactOn(tray)
    {
      hide Exact, Distinct, LiveIn, DeadIn, Unmapped;
      var id := native[key];
      RemovedNative(native, projections, tray.entries, tray.nextId, key);
      ClosedNative(BoardOn(tray), key, view);
      native := native - {key};
      closes := closes[id := Closing(key, view)];
      tray.Close(id, key);
    }

    /** Shows a copy silently, in place of the key's earlier copy if there is one. */
    method ShowCopy(key: Key, content: Content, ghost view: seq<Record>, tray: Tray) returns (ok: bool)
      requires Valid(tray) && LiveIn(view, key)
      modifies this`projections, this`known, tray
      ensures tray.refusals == old(tray.refusals) + if ok then 0 else 1
      ensures Valid(tray) && Follows(old(BoardOn(tray)), BoardOn(tray), view)
      ensures tray.closeFailed == old(tray.closeFailed)
      ensures |tray.calls| == |old(tray.calls)| + 1 && old(tray.calls) <= tray.calls
      ensures tray.calls[|old(tray.calls)|].ShowCall?
      ensures if ok then
                && key in projections && projections[key].content == content
                && projections == old(projections)[key := projections[key]]
              else projections == old(projections)
      ensures old(ExactOn(tray)) ==> ExactOn(tray)
    {
      var replaced := if key in projections then projections[key].id else 0;
      ghost var entries, before := tray.entries, tray.nextId;
      var shown := tray.Show(key, content, replaced);
      hide Exact, Distinct, LiveIn, DeadIn, Unmapped;
      if shown.None? {
        SameFollows(old(BoardOn(tray)), tray.nextId, view);
        return false;
      }
      ShownDistinct(native, projections, before, tray.nextId, key, content, shown.value);
      if Exact(projections, entries) {
        if key !in projections {
          NewIsFree(native, projections, entries, before, shown.value);
        } else {
          CopyIsThere(projections, entries, key);
        }
        ShownExact(projections, entries, key, content, shown.value);
      }
      ShownFollows(old(BoardOn(tray)), key, content, shown.value, tray.nextId, view);
      known := known + {key};
      projections := projections[key := Copy(shown.value, content)];
      ok := true;
    }

    method RemoveDead(key: Key, ghost records: seq<Record>, tray: Tray)
      requires Valid(tray) && !LiveIn(records, key) && DeadIn(records, key)
      modifies this`native, this`projections, this`closes, tray
      ensures tray.refusals == old(tray.refusals)
      ensures Valid(tray) && Follows(old(BoardOn(tray)), BoardOn(tray), records)
      ensures native == old(native) - {key} && projections == old(projections) - {key}
      ensures old(tray.closeFailed) ==> tray.closeFailed
      ensures old(ExactOn(tray)) && !tray.closeFailed ==> ExactOn(tray)
      ensures old(tray.calls) <= tray.calls
      ensures Recorded(closes, records, tray.calls, |old(tray.calls)|)
      ensures key !in old(native) && key !in old(projections) ==>
                tray.calls == old(tray.calls) && tray.entries == old(tray.entries)
    {
      hide Exact, LiveIn, Distinct, Unmapped;
      SameFollows(BoardOn(tray), tray.nextId, records);
      if key in native {
        DropNative(key, records, tray);
      }
      if key in projections {
        DropCopy(key, records, tray);
      }
    }

    /** Brings one record's copy in line: closes it, shows it, or leaves it alone. */
    method ReconcileRecord(record: Record, ghost records: seq<Record>, tray: Tray) returns (ok: bool)
      requires Valid(tray)
      requires record in records && UniqueKeys(records)
      modifies this`native, this`projections, this`closes, this`known, tray
      ensures tray.refusals == old(tray.refusals) + if ok then 0 else 1
      ensures Valid(tray) && Follows(old(BoardOn(tray)), BoardOn(tray), records)
      ensures record.key.origin == identity && "phone/" <= record.key.instance ==>
                native == old(native) && projections == old(projections) && tray.calls == old(tray.calls)
      ensures ok ==> SettledRecord(identity, native, projections, record)
      ensures || native == old(native)
              || (native == old(native) - {record.key} && record.content.None? && DeadIn(records, record.key))
      ensures SameElsewhere(old(projections), projections, record.key)
      ensures old(tray.closeFailed) ==> tray.closeFailed
      ensures old(ExactOn(tray)) && !tray.closeFailed ==> ExactOn(tray)
      ensures old(tray.calls) <= tray.calls
      ensures Recorded(closes, records, tray.calls, |old(tray.calls)|)
      ensures old(SettledRecord(identity, native, projections, record)) ==>
                ok && native == old(native) && projections == old(projections)
                && tray.calls == old(tray.calls) && tray.entries == old(tray.entries)
    {
      hide Exact, LiveIn, Distinct, UniqueKeys, Unmapped;
      SameFollows(BoardOn(tray), tray.nextId, records);
      ok := true;
      var key := record.key;
      if LocalPhone(identity, key) {
        return;
      }
      if record.content.None? {
        DeadIsNotLive(records, record);
        RemoveDead(key, records, tray);
      } else if key !in native {
        var content := record.content.value;
        if key !in projections || projections[key].content != content {
          LiveRecord(records, record);
          ok := ShowCopy(key, content, records, tray);
        }
      }
    }

    /** The first half of a pass: every record in turn; a copy that cannot be shown stops it. */
    method ReconcileRecords(records: seq<Record>, tray: Tray) returns (ok: bool)
      requires Valid(tray) && UniqueKeys(records)
      modifies this`native, this`projections, this`closes, this`known, tray
      ensures tray.refusals == old(tray.refusals) + if ok then 0 else 1
      ensures Valid(tray) && Follows(old(BoardOn(tray)), BoardOn(tray), records)
      ensures ok ==> forall i :: 0 <= i < |records| ==> SettledRecord(identity, native, projections, records[i])
      ensures NativeKept(old(native), native, records)
      ensures old(tray.closeFailed) ==> tray.closeFailed
      ensures old(ExactOn(tray)) && !tray.closeFailed ==> ExactOn(tray)
      ensures old(tray.calls) <= tray.calls
      ensures Recorded(closes, records, tray.calls, |old(tray.calls)|)
      ensures old(forall i :: 0 <= i < |records| ==> SettledRecord(identity, native, projections, records[i])) ==>
                ok && native == old(native) && projections == old(projections)
                && tray.calls == old(tray.calls) && tray.entries == old(tray.entries)
    {
      hide Exact, LiveIn, Distinct, SettledRecord, Remembered, DeadIn;
      SameFollows(BoardOn(tray), tray.nextId, records);
      hide Follows, Recorded;
      NothingRecorded(closes, records, tray.calls);
      var i := 0;
      while i < |records|
        invariant 0 <= i <= |records|
        invariant Valid(tray) && Follows(old(BoardOn(tray)), BoardOn(tray), records)
        invariant forall j :: 0 <= j < i ==> SettledRecord(identity, native, projections, records[j])
        invariant tray.refusals == old(tray.refusals)
        invariant NativeKept(old(native), native, records)
        invariant old(tray.closeFailed) ==> tray.closeFailed
        invariant old(ExactOn(tray)) && !tray.closeFailed ==> ExactOn(tray)
        invariant old(tray.calls) <= tray.calls
        invariant Recorded(closes, records, tray.calls, |old(tray.calls)|)
        invariant old(forall i :: 0 <= i < |records| ==> SettledRecord(identity, native, projections, records[i])) ==>
                    native == old(native) && projections == old(projections)
                    && tray.calls == old(tray.calls) && tray.entries == old(tray.entries)
      {
        ghost var wasNative, wasCopies, before, calls := native, projections, BoardOn(tray), tray.calls;
        ok := ReconcileRecord(records[i], records, tray);
        FollowsTransitive(old(BoardOn(tray)), before, BoardOn(tray), records);
        RecordedLater(before, BoardOn(tray), records, calls, tray.calls, |old(tray.calls)|);
        if !ok {
          return;
        }
        forall j | 0 <= j < i ensures SettledRecord(identity, native, projections, records[j]) {
          SettledElsewhere(identity, wasNative, wasCopies, native, projections, records[j], records[i].key);
        }
        i := i + 1;
      }
      ok := true;
    }

    /** The second half: copies whose key the view does not show live are taken down. */
    method RemoveAbsent(records: seq<Record>, tray: Tray)
      requires Valid(tray)
      modifies this`projections, this`closes, tray
      ensures tray.refusals == old(tray.refusals)
      ensures Valid(tray) && Follows(old(BoardOn(tray)), BoardOn(tray), records)
      ensures projections == map k | k in old(projections) && LiveIn(records, k) :: old(projections)[k]
      ensures old(tray.closeFailed) ==> tray.closeFailed
      ensures old(ExactOn(tray)) && !tray.closeFailed ==> ExactOn(tray)
      ensures old(tray.calls) <= tray.calls
      ensures Recorded(closes, records, tray.calls, |old(tray.calls)|)
      ensures (forall k :: k in old(projections) ==> LiveIn(records, k)) ==>
                tray.calls == old(tray.calls) && tray.entries == old(tray.entries)
    {
      hide Exact, LiveIn, Distinct, Unmapped;
      SameFollows(BoardOn(tray), tray.nextId, records);
      var absent := set k | k in projections && !LiveIn(records, k);
      ghost var all := absent;
      while absent != {}
        invariant absent <= all
        invariant projections == old(projections) - (all - absent)
        invariant Valid(tray) && Follows(old(BoardOn(tray)), BoardOn(tray), records)
        invariant old(tray.closeFailed) ==> tray.closeFailed
        invariant old(ExactOn(tray)) && !tray.closeFailed ==> ExactOn(tray)
        invariant old(tray.calls) <= tray.calls
        invariant Recorded(closes, records, tray.calls, |old(tray.calls)|)
        invariant tray.refusals == old(tray.refusals)
        invariant all == {} ==> tray.calls == old(tray.calls) && tray.entries == old(tray.entries)
        decreases absent
      {
        var key :| key in absent;
        absent := absent - {key};
        ghost var before := BoardOn(tray);
        DropCopy(key, records, tray);
        FollowsTransitive(old(BoardOn(tray)), before, BoardOn(tray), records);
      }
    }

    /**
     A whole pass over a view. When it completes, nothing is left to do: the same view again
     makes no desktop call. Every close it asked for is of a key that is not live and of a
     number nothing remembers, and as long as no close failed the desktop displays exactly
     the remembered copies.
     */
    method Reconcile(records: seq<Record>, tray: Tray) returns (ok: bool)
      requires Valid(tray) && UniqueKeys(records)
      modifies this`native, this`projections, this`closes, this`known, tray
      ensures tray.refusals == old(tray.refusals) + if ok then 0 else 1
      ensures Valid(tray) && Follows(old(BoardOn(tray)), BoardOn(tray), records)
      ensures ok ==> Settled(identity, native, projections, records)
      ensures NativeKept(old(native), native, records)
      ensures old(tray.closeFailed) ==> tray.closeFailed
      ensures old(ExactOn(tray)) && !tray.closeFailed ==> ExactOn(tray)
      ensures old(tray.calls) <= tray.calls
      ensures Recorded(closes, records, tray.calls, |old(tray.calls)|)
      ensures old(Settled(identity, native, projections, records)) ==>
                ok && native == old(native) && projections == old(projections)
                && tray.calls == old(tray.calls) && tray.entries == old(tray.entries)
    {
      hide Exact, LiveIn, Distinct, SettledRecord, Follows, Recorded, Remembered;
      ok := ReconcileRecords(records, tray);
      if !ok {
        return;
      }
      ghost var copies, before, calls := projections, BoardOn(tray), tray.calls;
      RemoveAbsent(records, tray);
      FollowsTransitive(old(BoardOn(tray)), before, BoardOn(tray), records);
      RecordedLater(before, BoardOn(tray), records, calls, tray.calls, |old(tray.calls)|);
      forall i | 0 <= i < |records| ensures SettledRecord(identity, native, projections, records[i]) {
        SettledAfterRemoval(identity, native, copies, projections, records, i);
      }
    }

    /** Forgets a remembered number; says whether there was one and whether the user meant it. */
    method Forget(id: nat, reason: nat, ghost tray: Tray) returns (found: bool, dismissed: Option<Key>)
      requires Valid(tray)
      modifies this`native, this`projections
      ensures Valid(tray) && Follows(old(BoardOn(tray)), BoardOn(tray), [])
      ensures Unmapped(native, projections, id)
      ensures found <==> !old(Unmapped(native, projections, id))
      ensures !found ==> native == old(native) && projections == old(projections) && dismissed == None
      ensures forall k :: k in old(native) && old(native)[k] == id ==>
                && native == old(native) - {k} && projections == old(projections)
                && dismissed == (if 1 <= reason <= 3 then Some(k) else None)
      ensures forall k :: k in old(projections) && old(projections)[k].id == id ==>
                && native == old(native) && projections == old(projections) - {k}
                && dismissed == (if reason == 2 then Some(k) else None)
    {
      OneKey(native, projections, tray.nextId, id);
      hide Distinct, Remembered, Follows;
      found, dismissed := true, None;
      if k :| k in native && native[k] == id {
        native := native - {k};
        if 1 <= reason <= 3 {
          dismissed := Some(k);
        }
      } else if k :| k in projections && projections[k].id == id {
        projections := projections - {k};
        if reason == 2 {
          dismissed := Some(k);
        }
      } else {
        found := false;
      }
      ForgottenDistinct(old(BoardOn(tray)), native, projections);
      ForgottenFollows(old(BoardOn(tray)), native, projections);
    }

    /** A dismissal on the user's behalf; its outcome is only reported. */
    method Dismiss(key: Key, hub: LinkObject.NotificationHub, durability: Durability)
      modifies hub
      ensures hub.Value() == AfterLocal(old(hub.Value()), key, None, durability)
      ensures Dead(Lookup(View(old(hub.Value()).mem), key)) ==>
                hub.Value() == old(hub.Value()) && hub.generation == old(hub.generation)
    {
      hide QueueLocal, View;
      DismissalIgnoredExactlyWhenDead(hub.Value().mem, key, IsCoordinator(hub.Value()));
      var ignored := hub.Local(key, None, durability);
    }

    /**
     An entry was closed on the desktop, with the Desktop Notifications reason: 1 expired,
     2 dismissed by the user, 3 closed by a call. The shell's own entries are dismissed for
     all three, copies only by the user. When nothing remembers the number and the view does
     not show the key live, no operation is allocated.
     */
    method Closed(
      id: nat, reason: nat, instance: Option<string>, key: Option<Key>,
      hub: LinkObject.NotificationHub, durability: Durability, ghost tray: Tray)
      returns (dismissed: Option<Key>)
      requires Valid(tray)
      modifies this`native, this`projections, hub
      ensures Valid(tray) && Follows(old(BoardOn(tray)), BoardOn(tray), [])
      ensures Unmapped(native, projections, id)
      ensures forall k :: k in old(native) && old(native)[k] == id ==>
                && native == old(native) - {k} && projections == old(projections)
                && dismissed == (if 1 <= reason <= 3 then Some(k) else None)
      ensures forall k :: k in old(projections) && old(projections)[k].id == id ==>
                && native == old(native) && projections == old(projections) - {k}
                && dismissed == (if reason == 2 then Some(k) else None)
      ensures old(Unmapped(native, projections, id)) ==>
                && native == old(native) && projections == old(projections)
                && dismissed == Unclaimed(identity, View(old(hub.Value()).mem), reason,
                                          Candidate(identity, instance, key))
                && hub.Value() == AfterUnclaimed(old(hub.Value()), identity, reason, instance, key, durability)
      ensures hub.Value() == (if dismissed.Some?
                              then AfterLocal(old(hub.Value()), dismissed.value, None, durability)
                              else old(hub.Value()))
      ensures old(Unmapped(native, projections, id)) && Candidate(identity, instance, key).Some?
              && !LiveIn(View(old(hub.Value()).mem), Candidate(identity, instance, key).value) ==>
                hub.Value() == old(hub.Value()) && hub.generation == old(hub.generation)
    {
      hide LiveIn, QueueLocal, View, Distinct, Unmapped, AfterLocal, Remembered, Follows;
      var found;
      found, dismissed := Forget(id, reason, tray);
      if !found {
        var candidate := Candidate(identity, instance, key);
        var view := hub.state.View();
        dismissed := Unclaimed(identity, view, reason, candidate);
        if dismissed.Some? && !LiveIn(view, candidate.value) {
          NotLiveIsDead(view, candidate.value);
        }
      }
      if dismissed.Some? {
        Dismiss(dismissed.value, hub, durability);
      }
    }
  }
}
