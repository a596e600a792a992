/**
 The incremental mirror of one phone on the desktop: which desktop entry stands for which
 phone id, and why that is the same as clearing the desktop and drawing everything again.
 */
module Mirror {
  import opened Types

  datatype Notification = Notification(appName: string, summary: string, body: string, icon: Option<seq<byte>>)

  datatype Notice =
    | Posted(id: nat, notification: Notification)
    | Removed(id: nat)
    | SnapshotStart
    | SnapshotEnd

  datatype Shown = Shown(desktopId: nat, digest: nat)

  // ----------------------------------------------------------- what is meant

  /** What a phone currently has, and which ids its running snapshot repeated. */
  datatype Picture = Picture(notifications: map<nat, Notification>, resent: Option<set<nat>>)

  function Draw(picture: Picture, notice: Notice): Picture {
    match notice
    case Posted(id, notification) =>
      Picture(picture.notifications[id := notification],
              if picture.resent.Some? then Some(picture.resent.value + {id}) else None)
    case Removed(id) => picture.(notifications := picture.notifications - {id})
    case SnapshotStart => picture.(resent := Some({}))
    case SnapshotEnd =>
      if picture.resent.None? then picture
      else
        Picture(Repeated(picture.notifications, picture.resent.value), None)
  }

  function Repeated(notifications: map<nat, Notification>, resent: set<nat>): map<nat, Notification> {
    map id | id in notifications && id in resent :: notifications[id]
  }

  function DrawAll(picture: Picture, notices: seq<Notice>): Picture {
    if |notices| == 0 then picture
    else Draw(DrawAll(picture, notices[..|notices| - 1]), notices[|notices| - 1])
  }

  predicate InsideSnapshot(notice: Notice) {
    notice.Posted? || notice.Removed?
  }

  lemma {:induction false} SnapshotForgets(a: Picture, b: Picture, notices: seq<Notice>)
    requires a.resent == b.resent == Some({})
    requires forall i :: 0 <= i < |notices| ==> InsideSnapshot(notices[i])
    ensures var x, y := DrawAll(a, notices), DrawAll(b, notices);
            && x.resent == y.resent && x.resent.Some?
            && forall id :: id in x.resent.value ==>
                 && (id in x.notifications <==> id in y.notifications)
                 && (id in x.notifications ==> x.notifications[id] == y.notifications[id])
  {
    if |notices| > 0 {
      var last := |notices| - 1;
      SnapshotForgets(a, b, notices[..last]);
      assert InsideSnapshot(notices[last]);
    }
  }

  /** A complete snapshot leaves the same picture whatever was there before: a redraw. */
  lemma SnapshotRedraws(before: Picture, notices: seq<Notice>)
    requires forall i :: 0 <= i < |notices| ==> InsideSnapshot(notices[i])
    ensures DrawAll(before, [SnapshotStart] + notices + [SnapshotEnd])
         == DrawAll(Picture(map[], None), [SnapshotStart] + notices + [SnapshotEnd])
  {
    var empty := Picture(map[], None);
    DrawSplit(before, notices);
    DrawSplit(empty, notices);
    var a, b := before.(resent := Some({})), empty.(resent := Some({}));
    SnapshotForgets(a, b, notices);
    var x, y := DrawAll(a, notices), DrawAll(b, notices);
    assert Draw(x, SnapshotEnd).notifications == Draw(y, SnapshotEnd).notifications;
  }

  lemma {:induction false} DrawFromStart(picture: Picture, notices: seq<Notice>)
    ensures DrawAll(picture, [SnapshotStart] + notices) == DrawAll(Draw(picture, SnapshotStart), notices)
  {
    var all := [SnapshotStart] + notices;
    if |notices| == 0 {
      assert all == [SnapshotStart];
      assert DrawAll(picture, all[..0]) == picture;
    } else {
      assert all[..|all| - 1] == [SnapshotStart] + notices[..|notices| - 1];
      DrawFromStart(picture, notices[..|notices| - 1]);
    }
  }

  lemma DrawSplit(picture: Picture, notices: seq<Notice>)
    ensures DrawAll(picture, [SnapshotStart] + notices + [SnapshotEnd])
         == Draw(DrawAll(picture.(resent := Some({})), notices), SnapshotEnd)
  {
    var all := [SnapshotStart] + notices + [SnapshotEnd];
    assert all[..|all| - 1] == [SnapshotStart] + notices;
    DrawFromStart(picture, notices);
  }

  // ------------------------------------------------------------- the desktop

  /**
   The notification daemon. Any call may fail, and the daemon may restart during a call:
   the call then fails, its entries are gone and its numbers start over.
   */
  class Desktop {
    var generation: nat
    var entries: map<nat, Notification>
    var nextId: nat
    ghost var given: set<(nat, nat)>  // every (generation, number) a caller ever received
    ghost var failures: nat           // calls that came back with an error

    ghost predicate Valid()
      reads this
    {
      && nextId > 0 && generation > 0
      && (forall id :: id in entries ==> 0 < id < nextId)
      && (forall pair :: pair in given ==> pair.0 <= generation && 0 < pair.1)
      && (forall pair :: pair in given && pair.0 == generation ==> pair.1 < nextId)
    }

    method MaybeFail() returns (failed: bool)
      requires Valid()
      modifies this
      ensures Valid() && given == old(given) && generation >= old(generation)
      ensures !failed || generation == old(generation) ==>
                generation == old(generation) && entries == old(entries) && nextId == old(nextId)
      ensures failures == old(failures)
    {
      failed := false;
      if * {
        failed := true;
        if * {
          generation, entries, nextId := generation + 1, map[], 1;
        }
      }
    }

    method Generation() returns (current: Option<nat>)
      requires Valid()
      modifies this
      ensures Valid() && given == old(given) && generation >= old(generation)
      ensures current.Some? ==> current.value == generation
      ensures generation == old(generation) ==> entries == old(entries)
      ensures failures == old(failures) + if current.None? then 1 else 0
      ensures current.Some? ==> generation == old(generation)
    {
      var failed := MaybeFail();
      failures := failures + if failed then 1 else 0;
      current := if failed then None else Some(generation);
    }

    /** Shows a notification in a new entry, or in place of one this generation handed out. */
    method Show(notification: Notification, replaced: nat, expected: nat) returns (id: Option<nat>)
      requires Valid()
      requires replaced != 0 ==> (expected, replaced) in given
      modifies this
      ensures Valid() && generation >= old(generation)
      ensures id.None? ==> given == old(given)
      ensures id.None? && generation == old(generation) ==> entries == old(entries)
      ensures id.Some? ==>
                && generation == old(generation) == expected
                && id.value > 0 && given == old(given) + {(expected, id.value)}
                && entries == old(entries)[id.value := notification]
                && (replaced != 0 ==> id.value == replaced)
                && (replaced == 0 ==>
                      id.value !in old(entries) && (expected, id.value) !in old(given))
      ensures failures == old(failures) + if id.None? then 1 else 0
    {
      var failed := MaybeFail();
      if failed || generation != expected {
        failures := failures + 1;
        return None;
      }
      var chosen := replaced;
      if replaced == 0 {
        chosen := nextId;
        nextId := nextId + 1;
      }
      entries := entries[chosen := notification];
      given := given + {(expected, chosen)};
      id := Some(chosen);
    }

    method Close(id: nat, expected: nat) returns (ok: bool)
      requires Valid()
      requires (expected, id) in given
      modifies this
      ensures Valid() && generation >= old(generation) && given == old(given)
      ensures ok ==> generation == old(generation) == expected && entries == old(entries) - {id}
      ensures !ok && generation == old(generation) ==> entries == old(entries)
      ensures failures == old(failures) + if ok then 0 else 1
    {
      var failed := MaybeFail();
      if failed || generation != expected {
        failures := failures + 1;
        return false;
      }
      entries := entries - {id};
      ok := true;
    }
  }

  // -------------------------------------------------------------- the mirror

  datatype Saved = Saved(owner: nat, shown: map<nat, Shown>)

  /** The cache file: absent, too large or not readable as one, or what an earlier mirror saved. */
  datatype CacheFile = Missing | Unusable | Stored(saved: Saved)

  function Contents(cache: CacheFile): Option<Saved> {
    if cache.Stored? then Some(cache.saved) else None
  }

  ghost predicate AllGiven(owner: nat, shown: map<nat, Shown>, given: set<(nat, nat)>) {
    forall id :: id in shown ==> (owner, shown[id].desktopId) in given
  }

  ghost predicate IsOwn(shown: map<nat, Shown>, n: nat) {
    exists id :: id in shown && shown[id].desktopId == n
  }

  /** Every remembered entry is there with the content remembered, and no two are the same. */
  ghost predicate Matches(
    shown: map<nat, Shown>, entries: map<nat, Notification>, digest: Notification -> nat)
  {
    && (forall id :: id in shown ==>
          && shown[id].desktopId in entries
          && shown[id].digest == digest(entries[shown[id].desktopId]))
    && (forall a, b :: a in shown && b in shown && shown[a].desktopId == shown[b].desktopId ==> a == b)
  }

  ghost function OwnPart(shown: map<nat, Shown>, entries: map<nat, Notification>): map<nat, Notification> {
    map id | id in shown && shown[id].desktopId in entries :: entries[shown[id].desktopId]
  }

  ghost function OtherPart(shown: map<nat, Shown>, entries: map<nat, Notification>): map<nat, Notification> {
    map n | n in entries && !IsOwn(shown, n) :: entries[n]
  }

  ghost predicate Available(shown: map<nat, Shown>, entries: map<nat, Notification>, id: nat, n: nat) {
    if id in shown then n == shown[id].desktopId else n !in entries
  }

  lemma DrawnMatches(
    shown: map<nat, Shown>, entries: map<nat, Notification>, digest: Notification -> nat,
    id: nat, n: nat, notification: Notification)
    requires Matches(shown, entries, digest) && Available(shown, entries, id, n)
    ensures Matches(shown[id := Shown(n, digest(notification))], entries[n := notification], digest)
  {
  }

  lemma DrawnOwn(
    shown: map<nat, Shown>, entries: map<nat, Notification>, digest: Notification -> nat,
    id: nat, n: nat, notification: Notification)
    requires Matches(shown, entries, digest) && Available(shown, entries, id, n)
    ensures OwnPart(shown[id := Shown(n, digest(notification))], entries[n := notification])
         == OwnPart(shown, entries)[id := notification]
  {
  }

  lemma DrawnIsOwn(
    shown: map<nat, Shown>, entries: map<nat, Notification>, id: nat, n: nat, digest: nat, m: nat)
    requires Available(shown, entries, id, n) && (m in entries || m == n)
    ensures IsOwn(shown[id := Shown(n, digest)], m) <==> m == n || IsOwn(shown, m)
  {
    var s := shown[id := Shown(n, digest)];
    if m == n { assert s[id].desktopId == m; }
    if IsOwn(shown, m) && m != n {
      var k :| k in shown && shown[k].desktopId == m;
      assert s[k].desktopId == m;
    }
  }

  lemma DrawnOther(
    shown: map<nat, Shown>, entries: map<nat, Notification>, id: nat, n: nat, digest: nat,
    notification: Notification)
    requires Available(shown, entries, id, n)
    ensures OtherPart(shown[id := Shown(n, digest)], entries[n := notification]) == OtherPart(shown, entries)
  {
    hide IsOwn;
    var s, e := shown[id := Shown(n, digest)], entries[n := notification];
    forall m | m in e ensures IsOwn(s, m) <==> m == n || IsOwn(shown, m) {
      DrawnIsOwn(shown, entries, id, n, digest, m);
    }
    if n in entries { assert IsOwn(shown, n) by { OwnNumber(shown, id); } }
    assert OtherPart(s, e) == OtherPart(shown, entries);
  }

  lemma OwnNumber(shown: map<nat, Shown>, id: nat)
    requires id in shown
    ensures IsOwn(shown, shown[id].desktopId)
  {
  }

  lemma DrawnOver(
    shown: map<nat, Shown>, entries: map<nat, Notification>, digest: Notification -> nat,
    id: nat, n: nat, notification: Notification)
    requires Matches(shown, entries, digest) && Available(shown, entries, id, n)
    ensures var s, e := shown[id := Shown(n, digest(notification))], entries[n := notification];
            && Matches(s, e, digest)
            && OwnPart(s, e) == OwnPart(shown, entries)[id := notification]
            && OtherPart(s, e) == OtherPart(shown, entries)
  {
    hide *;
    DrawnMatches(shown, entries, digest, id, n, notification);
    DrawnOwn(shown, entries, digest, id, n, notification);
    DrawnOther(shown, entries, id, n, digest(notification), notification);
  }

  lemma Closed(
    shown: map<nat, Shown>, entries: map<nat, Notification>, digest: Notification -> nat, id: nat)
    requires Matches(shown, entries, digest) && id in shown
    ensures var s, e := shown - {id}, entries - {shown[id].desktopId};
            && Matches(s, e, digest) && Matches(s, entries, digest)
            && OwnPart(s, e) == OwnPart(shown, entries) - {id}
            && OtherPart(s, e) == OtherPart(shown, entries)
  {
    var n := shown[id].desktopId;
    var s, e := shown - {id}, entries - {n};
    assert OwnPart(s, e) == OwnPart(shown, entries) - {id};
    assert IsOwn(shown, n);
    forall m | m in e ensures IsOwn(s, m) <==> IsOwn(shown, m) {
      if IsOwn(shown, m) {
        var k :| k in shown && shown[k].desktopId == m;
        assert k in s && s[k].desktopId == m;
      }
    }
    assert OtherPart(s, e) == OtherPart(shown, entries);
  }

  lemma RepeatedIsRest(shown: map<nat, Shown>, entries: map<nat, Notification>, repeated: set<nat>)
    ensures OwnPart(shown, entries) - (shown.Keys - repeated) == Repeated(OwnPart(shown, entries), repeated)
  {
  }

  ghost predicate Keeps(before: map<nat, Notification>, after: map<nat, Notification>) {
    forall n :: n in before ==> n in after && after[n] == before[n]
  }

  lemma ForgottenKeepsOthers(shown: map<nat, Shown>, entries: map<nat, Notification>, id: nat)
    ensures Keeps(OtherPart(shown, entries), OtherPart(shown - {id}, entries))
    ensures Keeps(OtherPart(shown, entries), entries)
  {
  }

  lemma NothingOwn(entries: map<nat, Notification>)
    ensures OtherPart(map[], entries) == entries
  {
  }

  class NotificationMirror {
    const digest: Notification -> nat
    var shown: map<nat, Shown>
    var resent: Option<set<nat>>
    var owner: nat
    var restored: bool
    var saved: Option<Saved>
    ghost var lost: nat  // saves that failed

    /** How many desktop calls and saves have failed. */
    ghost function Trouble(desktop: Desktop): nat
      reads this, desktop
    {
      desktop.failures + lost
    }

    /** Every number the mirror remembers was handed out by the generation it attributes it to. */
    ghost predicate Safe(desktop: Desktop)
      reads this, desktop
    {
      && desktop.Valid()
      && AllGiven(owner, shown, desktop.given)
      && (saved.Some? ==> AllGiven(saved.value.owner, saved.value.shown, desktop.given))
    }

    ghost predicate Faithful(desktop: Desktop)
      reads this, desktop
    {
      owner == desktop.generation ==> Matches(shown, desktop.entries, digest)
    }

    /** What the phone's ids show on the desktop right now, and the snapshot in progress. */
    ghost function Now(desktop: Desktop): Picture
      reads this, desktop
    {
      if owner != desktop.generation then Picture(map[], None)
      else Picture(OwnPart(shown, desktop.entries), resent)
    }

    /** The desktop's entries that are none of this phone's. */
    ghost function Foreign(desktop: Desktop): map<nat, Notification>
      reads this, desktop
    {
      if owner != desktop.generation then desktop.entries else OtherPart(shown, desktop.entries)
    }

    constructor (digest: Notification -> nat)
      ensures shown == map[] && resent == None && owner == 0 && !restored && saved == None
      ensures this.digest == digest
    {
      this.digest := digest;
      shown, resent, owner, restored, saved, lost := map[], None, 0, false, None, 0;
    }

    /** Forgets everything when another daemon generation is running. */
    method SyncOwner(desktop: Desktop) returns (ok: bool)
      requires Safe(desktop)
      modifies this`shown, this`resent, this`owner, desktop
      ensures Safe(desktop) && (old(Faithful(desktop)) ==> Faithful(desktop))
      ensures desktop.generation >= old(desktop.generation)
      ensures Trouble(desktop) >= old(Trouble(desktop)) && (ok <==> Trouble(desktop) == old(Trouble(desktop)))
      ensures ok ==> owner == desktop.generation == old(desktop.generation)
      ensures !ok ==> shown == old(shown) && resent == old(resent) && owner == old(owner)
      ensures desktop.generation == old(desktop.generation) ==>
                Now(desktop) == old(Now(desktop)) && Foreign(desktop) == old(Foreign(desktop))
    {
      var current := desktop.Generation();
      if current.None? {
        return false;
      }
      if owner != current.value {
        shown := map[];
        resent := None;
        owner := current.value;
        assert OtherPart(shown, desktop.entries) == desktop.entries;
        assert OwnPart(shown, desktop.entries) == map[];
      }
      ok := true;
    }

    /** Saves numbers and digests for the next start, once a path is known. */
    method Persist() returns (ok: bool)
      modifies this`saved, this`lost
      ensures saved == if ok && restored then Some(Saved(owner, shown)) else old(saved)
      ensures lost == old(lost) + if ok then 0 else 1
    {
      ok := true;
      if restored {
        if * {
          lost := lost + 1;
          return false;
        }
        saved := Some(Saved(owner, shown));
      }
    }

    /** Draws a post in a new entry or over the phone id's own one; identical posts do nothing. */
    method Post(id: nat, notification: Notification, desktop: Desktop) returns (ok: bool, drew: bool)
      requires Safe(desktop) && owner == desktop.generation
      requires forall other :: digest(other) == digest(notification) ==> other == notification
      modifies this`shown, desktop
      ensures Safe(desktop) && (old(Faithful(desktop)) ==> Faithful(desktop))
      ensures desktop.generation >= old(desktop.generation)
      ensures Trouble(desktop) >= old(Trouble(desktop)) && (ok <==> Trouble(desktop) == old(Trouble(desktop)))
      ensures ok ==> desktop.generation == old(desktop.generation)
      ensures ok ==> id in shown && shown[id].digest == digest(notification)
                     && (drew <==> !(id in old(shown) && old(shown)[id].digest == digest(notification)))
      ensures id in old(shown) && old(shown)[id].digest == digest(notification) ==> ok
      ensures ok && !drew ==> unchanged(desktop) && shown == old(shown)
      ensures ok && old(Faithful(desktop)) ==>
                && OwnPart(shown, desktop.entries) == old(OwnPart(shown, desktop.entries))[id := notification]
                && Foreign(desktop) == old(Foreign(desktop))
    {
      var replaced := 0;
      if id in shown {
        if shown[id].digest == digest(notification) {
          assert Faithful(desktop) ==>
            OwnPart(shown, desktop.entries) == OwnPart(shown, desktop.entries)[id := notification];
          return true, false;
        }
        replaced := shown[id].desktopId;
      }
      ghost var was, entries := shown, desktop.entries;
      var drawn := desktop.Show(notification, replaced, owner);
      if drawn.None? {
        return false, false;
      }
      if Matches(was, entries, digest) {
        DrawnOver(was, entries, digest, id, drawn.value, notification);
      }
      shown := shown[id := Shown(drawn.value, digest(notification))];
      ok, drew := true, true;
    }

    /** Takes the phone id's entry down; a failed close forgets the entry all the same. */
    method Withdraw(id: nat, desktop: Desktop) returns (ok: bool)
      requires Safe(desktop) && owner == desktop.generation
      modifies this`shown, desktop
      ensures Safe(desktop) && (old(Faithful(desktop)) ==> Faithful(desktop))
      ensures desktop.generation >= old(desktop.generation)
      ensures Trouble(desktop) >= old(Trouble(desktop)) && (ok <==> Trouble(desktop) == old(Trouble(desktop)))
      ensures shown == old(shown) - {id}
      ensures ok ==> desktop.generation == old(desktop.generation)
      ensures ok && old(Faithful(desktop)) ==>
                && OwnPart(shown, desktop.entries) == old(OwnPart(shown, desktop.entries)) - {id}
                && Foreign(desktop) == old(Foreign(desktop))
    {
      ok := true;
      if id in shown {
        var entry := shown[id];
        if Faithful(desktop) { Closed(shown, desktop.entries, digest, id); }
        shown := shown - {id};
        ok := desktop.Close(entry.desktopId, owner);
      }
    }

    /** Ends a snapshot: everything it did not repeat is taken down, in any order. */
    method WithdrawMissing(repeated: set<nat>, desktop: Desktop) returns (ok: bool)
      requires Safe(desktop) && owner == desktop.generation
      modifies this`shown, desktop
      ensures Safe(desktop) && (old(Faithful(desktop)) ==> Faithful(desktop))
      ensures desktop.generation >= old(desktop.generation)
      ensures Trouble(desktop) >= old(Trouble(desktop)) && (ok <==> Trouble(desktop) == old(Trouble(desktop)))
      ensures ok ==> desktop.generation == old(desktop.generation)
      ensures ok && old(Faithful(desktop)) ==>
                && OwnPart(shown, desktop.entries) == Repeated(old(OwnPart(shown, desktop.entries)), repeated)
                && Foreign(desktop) == old(Foreign(desktop))
    {
      hide OwnPart, OtherPart, IsOwn, Matches, AllGiven;
      var gone := shown.Keys - repeated;
      ghost var first := OwnPart(shown, desktop.entries);
      ghost var removed: set<nat> := {};
      while gone != {}
        invariant Safe(desktop) && (old(Faithful(desktop)) ==> Faithful(desktop))
        invariant owner == desktop.generation == old(desktop.generation)
        invariant Trouble(desktop) == old(Trouble(desktop))
        invariant removed + gone == old(shown).Keys - repeated
        invariant old(Faithful(desktop)) ==>
                    && OwnPart(shown, desktop.entries) == first - removed
                    && Foreign(desktop) == old(Foreign(desktop))
        decreases gone
      {
        var id :| id in gone;
        gone := gone - {id};
        ghost var now := OwnPart(shown, desktop.entries);
        ok := Withdraw(id, desktop);
        assert now == first - removed ==> now - {id} == first - (removed + {id});
        removed := removed + {id};
        if !ok {
          return false;
        }
      }
      RepeatedIsRest(old(shown), old(desktop.entries), repeated);
      ok := true;
    }

    /** A post, also noted as repeated while a snapshot runs. */
    method ApplyPosted(id: nat, notification: Notification, desktop: Desktop) returns (ok: bool)
      requires Safe(desktop) && owner == desktop.generation
      requires forall other :: digest(other) == digest(notification) ==> other == notification
      modifies this, desktop
      ensures Safe(desktop) && (old(Faithful(desktop)) ==> Faithful(desktop))
      ensures desktop.generation >= old(desktop.generation)
      ensures Trouble(desktop) >= old(Trouble(desktop)) && (ok <==> Trouble(desktop) == old(Trouble(desktop)))
      ensures ok ==> owner == desktop.generation == old(desktop.generation)
      ensures ok && old(Faithful(desktop)) ==>
                && Now(desktop) == Draw(old(Now(desktop)), Posted(id, notification))
                && Foreign(desktop) == old(Foreign(desktop))
    {
      hide OwnPart, OtherPart, IsOwn, Matches, AllGiven;
      if resent.Some? {
        resent := Some(resent.value + {id});
      }
      var drew;
      ok, drew := Post(id, notification, desktop);
      if ok && drew {
        ok := Persist();
      }
    }

    method ApplyRemoved(id: nat, desktop: Desktop) returns (ok: bool)
      requires Safe(desktop) && owner == desktop.generation
      modifies this, desktop
      ensures Safe(desktop) && (old(Faithful(desktop)) ==> Faithful(desktop))
      ensures desktop.generation >= old(desktop.generation)
      ensures Trouble(desktop) >= old(Trouble(desktop)) && (ok <==> Trouble(desktop) == old(Trouble(desktop)))
      ensures ok ==> owner == desktop.generation == old(desktop.generation)
      ensures ok && old(Faithful(desktop)) ==>
                && Now(desktop) == Draw(old(Now(desktop)), Removed(id))
                && Foreign(desktop) == old(Foreign(desktop))
    {
      hide OwnPart, OtherPart, IsOwn, Matches, AllGiven;
      ok := Withdraw(id, desktop);
      if ok {
        ok := Persist();
      }
    }

    /** The end of a snapshot takes down what it did not repeat; without a start it is ignored. */
    method ApplyEnd(desktop: Desktop) returns (ok: bool)
      requires Safe(desktop) && owner == desktop.generation
      modifies this, desktop
      ensures Safe(desktop) && (old(Faithful(desktop)) ==> Faithful(desktop))
      ensures desktop.generation >= old(desktop.generation)
      ensures Trouble(desktop) >= old(Trouble(desktop)) && (ok <==> Trouble(desktop) == old(Trouble(desktop)))
      ensures ok ==> owner == desktop.generation == old(desktop.generation)
      ensures ok && old(Faithful(desktop)) ==>
                && Now(desktop) == Draw(old(Now(desktop)), SnapshotEnd)
                && Foreign(desktop) == old(Foreign(desktop))
    {
      hide OwnPart, OtherPart, IsOwn, Matches, AllGiven;
      if resent.None? {
        return true;
      }
      var repeated := resent.value;
      resent := None;
      ok := WithdrawMissing(repeated, desktop);
      if ok {
        ok := Persist();
      }
    }

    /**
     One event from the phone. Without desktop errors the desktop shows exactly the picture
     the events describe, next to untouched entries of other programs; with errors or
     restarts the mirror still only ever names entries of the running generation.
     */
    method Apply(notice: Notice, desktop: Desktop) returns (ok: bool)
      requires Safe(desktop)
      requires notice.Posted? ==>
        forall other :: digest(other) == digest(notice.notification) ==> other == notice.notification
      modifies this, desktop
      ensures Safe(desktop) && (old(Faithful(desktop)) ==> Faithful(desktop))
      ensures desktop.generation >= old(desktop.generation)
      ensures Trouble(desktop) >= old(Trouble(desktop)) && (ok <==> Trouble(desktop) == old(Trouble(desktop)))
      ensures ok && old(Faithful(desktop)) && desktop.generation == old(desktop.generation) ==>
                && owner == desktop.generation
                && Now(desktop) == Draw(old(Now(desktop)), notice)
                && Foreign(desktop) == old(Foreign(desktop))
    {
      hide OwnPart, OtherPart, IsOwn, Matches, AllGiven;
      ok := SyncOwner(desktop);
      if !ok {
        return;
      }
      match notice {
        case Posted(id, notification) => ok := ApplyPosted(id, notification, desktop);
        case Removed(id) => ok := ApplyRemoved(id, desktop);
        case SnapshotStart =>
          resent := Some({});
          ok := Persist();
        case SnapshotEnd => ok := ApplyEnd(desktop);
      }
    }

    /** A whole session: with no errors and no restart, the desktop ends up as described. */
    method ApplyAll(notices: seq<Notice>, desktop: Desktop) returns (ok: bool)
      requires Safe(desktop)
      requires forall a, b :: digest(a) == digest(b) ==> a == b
      modifies this, desktop
      ensures Safe(desktop) && (old(Faithful(desktop)) ==> Faithful(desktop))
      ensures desktop.generation >= old(desktop.generation)
      ensures Trouble(desktop) >= old(Trouble(desktop)) && (ok <==> Trouble(desktop) == old(Trouble(desktop)))
      ensures ok && old(Faithful(desktop)) && desktop.generation == old(desktop.generation) ==>
                && Now(desktop) == DrawAll(old(Now(desktop)), notices)
                && Foreign(desktop) == old(Foreign(desktop))
    {
      hide OwnPart, OtherPart, IsOwn, Matches, AllGiven, Draw;
      ok := true;
      var i := 0;
      while i < |notices|
        invariant 0 <= i <= |notices| && ok
        invariant Safe(desktop) && (old(Faithful(desktop)) ==> Faithful(desktop))
        invariant Trouble(desktop) == old(Trouble(desktop))
        invariant desktop.generation >= old(desktop.generation)
        invariant old(Faithful(desktop)) && desktop.generation == old(desktop.generation) ==>
                    && Now(desktop) == DrawAll(old(Now(desktop)), notices[..i])
                    && Foreign(desktop) == old(Foreign(desktop))
      {
        assert notices[..i + 1][..i] == notices[..i];
        ok := Apply(notices[i], desktop);
        if !ok {
          return;
        }
        i := i + 1;
      }
      assert notices[..i] == notices;
    }

    /** Closes one entry and forgets it, whatever the desktop says. */
    method CloseOne(id: nat, desktop: Desktop)
      requires Safe(desktop) && id in shown
      modifies this`shown, desktop
      ensures Safe(desktop) && (old(Faithful(desktop)) ==> Faithful(desktop))
      ensures desktop.generation >= old(desktop.generation)
      ensures shown == old(shown) - {id}
      ensures old(Faithful(desktop)) && desktop.generation == old(desktop.generation) ==>
                Keeps(old(Foreign(desktop)), Foreign(desktop))
      ensures desktop.failures >= old(desktop.failures)
      ensures desktop.failures == old(desktop.failures) && owner == old(desktop.generation) ==>
                desktop.generation == old(desktop.generation)
      ensures desktop.failures == old(desktop.failures) && owner == old(desktop.generation)
              && old(Faithful(desktop)) ==>
                Foreign(desktop) == old(Foreign(desktop))
    {
      hide IsOwn, Matches, OwnPart, OtherPart;
      var entry := shown[id];
      if owner == desktop.generation {
        if Faithful(desktop) { Closed(shown, desktop.entries, digest, id); }
        ForgottenKeepsOthers(shown, desktop.entries, id);
      }
      shown := shown - {id};
      var ignored := desktop.Close(entry.desktopId, owner);
    }

    /**
     Closes everything the phone has on the desktop. Failed closes are ignored, so an entry
     may stay behind, but no entry of another program is ever touched.
     */
    method CloseAll(desktop: Desktop)
      requires Safe(desktop)
      modifies this, desktop
      ensures Safe(desktop) && (old(Faithful(desktop)) ==> Faithful(desktop))
      ensures desktop.generation >= old(desktop.generation)
      ensures (shown == map[] && resent == None) || (shown == old(shown) && resent == old(resent))
      ensures old(Faithful(desktop)) && desktop.generation == old(desktop.generation) ==>
                Keeps(old(Foreign(desktop)), desktop.entries)
      ensures desktop.failures == old(desktop.failures) && old(Faithful(desktop)) ==>
                && shown == map[] && resent == None && desktop.generation == old(desktop.generation)
                && desktop.entries == old(Foreign(desktop))
    {
      hide IsOwn, Matches, OwnPart, OtherPart, AllGiven;
      var synced := SyncOwner(desktop);
      ForgottenKeepsOthers(shown, desktop.entries, 0);
      if !synced {
        return;
      }
      while shown != map[]
        invariant Safe(desktop) && (old(Faithful(desktop)) ==> Faithful(desktop))
        invariant desktop.generation >= old(desktop.generation)
        invariant old(Faithful(desktop)) && desktop.generation == old(desktop.generation) ==>
                    Keeps(old(Foreign(desktop)), Foreign(desktop))
        invariant desktop.failures >= old(desktop.failures)
        invariant desktop.failures == old(desktop.failures) && old(Faithful(desktop)) ==>
                    && owner == desktop.generation == old(desktop.generation)
                    && Foreign(desktop) == old(Foreign(desktop))
        decreases shown.Keys
      {
        var id :| id in shown.Keys;
        CloseOne(id, desktop);
      }
      NothingOwn(desktop.entries);
      resent := None;
      ForgottenKeepsOthers(shown, desktop.entries, 0);
      var ignored := Persist();
    }

    /** Takes over retained entries of the running generation after a restart of this program. */
    method Restore(desktop: Desktop, cache: CacheFile) returns (ok: bool)
      requires desktop.Valid()
      modifies this, desktop
      ensures desktop.Valid() && desktop.generation >= old(desktop.generation)
      ensures ok ==>
                (shown, owner, restored)
                  == Restored(old(shown), old(owner), old(restored), desktop.generation, Contents(cache))
      ensures if old(restored) then ok else cache.Unusable? ==> !ok
      ensures !ok ==> cache.Unusable? || desktop.failures > old(desktop.failures)
      ensures ok && !old(restored) && cache.Stored? && cache.saved.owner == desktop.generation ==>
                shown == cache.saved.shown
      ensures ok && !old(restored) && !(cache.Stored? && cache.saved.owner == desktop.generation) ==>
                shown == old(shown)
      ensures ok && !old(restored) ==> owner == desktop.generation
      ensures desktop.generation == old(desktop.generation) ==> desktop.entries == old(desktop.entries)
      ensures !ok ==> shown == old(shown) && owner == old(owner) && restored == old(restored)
      ensures resent == old(resent) && saved == old(saved) && desktop.given == old(desktop.given)
      ensures var file := Contents(cache);
              old(Safe(desktop)) && (file.Some? ==> AllGiven(file.value.owner, file.value.shown, desktop.given))
              && RestoreIsTimely(old(shown), old(owner), old(restored), desktop.generation, file) ==>
                Safe(desktop)
    {
      if restored {
        return true;
      }
      var current := desktop.Generation();
      if current.None? {
        return false;
      }
      if cache.Unusable? {
        return false;
      }
      if cache.Stored? && cache.saved.owner == current.value {
        shown := cache.saved.shown;
      }
      owner := current.value;
      restored := true;
      ok := true;
    }
  }

  // ------------------------------------------------------- restoring the cache

  function Restored(
    shown: map<nat, Shown>, owner: nat, restored: bool, generation: nat, file: Option<Saved>)
    : (map<nat, Shown>, nat, bool)
  {
    if restored then (shown, owner, true)
    else
      (if file.Some? && file.value.owner == generation then file.value.shown else shown, generation, true)
  }

  /** Checkable before the call: nothing stale would be attributed to the running generation. */
  predicate RestoreIsTimely(
    shown: map<nat, Shown>, owner: nat, restored: bool, generation: nat, file: Option<Saved>)
  {
    || restored
    || shown == map[]
    || owner == generation
    || (file.Some? && file.value.owner == generation)
  }

  /** The numbers the mirror and its file know about, and nothing else. */
  ghost function Known(owner: nat, shown: map<nat, Shown>, file: Option<Saved>): set<(nat, nat)> {
    (set id | id in shown :: (owner, shown[id].desktopId))
    + (if file.Some? then set id | id in file.value.shown :: (file.value.owner, file.value.shown[id].desktopId)
       else {})
  }

  /**
   Restoring keeps every remembered number attributed to the generation that handed it out
   exactly when it is timely: the mirror is still empty, or already follows the running
   generation, or the file does.
   */
  lemma RestoreExactlyWhenTimely(
    shown: map<nat, Shown>, owner: nat, restored: bool, generation: nat, file: Option<Saved>)
    ensures var (after, attributed, _) := Restored(shown, owner, restored, generation, file);
            AllGiven(attributed, after, Known(owner, shown, file)) ==
              RestoreIsTimely(shown, owner, restored, generation, file)
  {
  }

  /** The untimely case: posts under one daemon, a restart, and only then a restore. */
  lemma LateRestoreMisattributes()
    ensures var shown := map[7 := Shown(1, 0)];
            var (after, attributed, _) := Restored(shown, 1, false, 2, None);
            attributed == 2 && after[7].desktopId == 1 && !AllGiven(attributed, after, {(1, 1)})
  {
  }

  /**
   The same through the object itself: a new mirror posts, the daemon restarts, and only
   then the mirror restores, with no cache file there. If every call succeeds, what it
   remembers is attributed to a daemon that never handed it out.
   */
  method LateRestore(mirror: NotificationMirror, desktop: Desktop, id: nat, notification: Notification)
    returns (posted: bool, restarted: bool, restored: bool)
    requires desktop.Valid() && mirror.shown == map[] && !mirror.restored && mirror.saved.None?
    requires forall other :: mirror.digest(other) == mirror.digest(notification) ==> other == notification
    modifies mirror, desktop
    ensures posted && restarted && restored ==>
              && id in mirror.shown && mirror.owner == desktop.generation
              && (mirror.owner, mirror.shown[id].desktopId) !in desktop.given
              && !mirror.Safe(desktop)
  {
    posted, restarted, restored := false, false, false;
    var synced := mirror.SyncOwner(desktop);
    if !synced {
      return;
    }
    var drew;
    posted, drew := mirror.Post(id, notification, desktop);
    if !posted {
      return;
    }
    assert id in OwnPart(mirror.shown, desktop.entries);
    ghost var first := desktop.generation;
    var asked := desktop.Generation();
    restarted := asked.Some? && asked.value != mirror.owner;
    restored := mirror.Restore(desktop, Missing);
  }

  /**
   The round trip: a new mirror that restores what an earlier one saved under the running
   daemon shows exactly what that one showed, and a repost of a notification that is on the
   desktop makes no call and leaves every entry as it is.
   */
  method Reopen(
    earlier: NotificationMirror, later: NotificationMirror, desktop: Desktop, id: nat, notification: Notification)
    returns (restored: bool, reposted: bool)
    requires earlier != later && earlier.Safe(desktop) && earlier.Faithful(desktop)
    requires earlier.owner == desktop.generation && earlier.saved == Some(Saved(earlier.owner, earlier.shown))
    requires later.shown == map[] && !later.restored && later.resent.None? && later.saved.None?
    requires later.digest == earlier.digest
    requires forall other :: later.digest(other) == later.digest(notification) ==> other == notification
    requires id in earlier.shown && desktop.entries[earlier.shown[id].desktopId] == notification
    modifies later, desktop
    ensures restored && desktop.generation == old(desktop.generation) ==>
              && later.Safe(desktop) && later.Faithful(desktop)
              && later.Now(desktop).notifications == old(earlier.Now(desktop).notifications)
              && later.Foreign(desktop) == old(earlier.Foreign(desktop))
              && reposted && desktop.entries == old(desktop.entries)
  {
    hide OwnPart, OtherPart, IsOwn;
    reposted := false;
    restored := later.Restore(desktop, Stored(earlier.saved.value));
    if restored && later.owner == earlier.owner {
      var drew;
      reposted, drew := later.Post(id, notification, desktop);
    }
  }

  /** A cache that another daemon wrote adds nothing. */
  method ReopenElsewhere(later: NotificationMirror, desktop: Desktop, saved: Saved) returns (restored: bool)
    requires desktop.Valid() && later.shown == map[] && !later.restored
    modifies later, desktop
    ensures restored && saved.owner != desktop.generation ==>
              && later.shown == map[] && later.owner == desktop.generation
              && later.Now(desktop).notifications == map[] && later.Foreign(desktop) == desktop.entries
  {
    restored := later.Restore(desktop, Stored(saved));
    assert OtherPart(map[], desktop.entries) == desktop.entries;
  }
}
