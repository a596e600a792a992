/** Which notifications of a phone are on the desktop after any list of events, told from the list alone. */
module PictureLaws {
  import opened Types
  import opened Mirror

  predicate PostOf(notice: Notice, id: nat) {
    notice.Posted? && notice.id == id
  }

  /** A snapshot that started here has not ended since. */
  predicate StillRunning(notices: seq<Notice>, k: nat) {
    && k < |notices| && notices[k].SnapshotStart?
    && forall m :: k < m < |notices| ==> !notices[m].SnapshotEnd?
  }

  /** A post since which no snapshot started. */
  predicate Repeats(notices: seq<Notice>, id: nat, p: nat) {
    && p < |notices| && PostOf(notices[p], id)
    && forall m :: p < m < |notices| ==> !notices[m].SnapshotStart?
  }

  /** The event ends a snapshot that started after the post. */
  predicate Withdraws(notices: seq<Notice>, i: nat, j: nat) {
    && i < j < |notices| && notices[j].SnapshotEnd?
    && exists k :: i < k < j && StillRunning(notices[..j], k)
  }

  /** The last word about an id is this post: nothing after it replaced, removed or withdrew it. */
  ghost predicate Stands(notices: seq<Notice>, id: nat, i: nat) {
    && i < |notices| && PostOf(notices[i], id)
    && forall j :: i < j < |notices| ==>
         !PostOf(notices[j], id) && notices[j] != Removed(id) && !Withdraws(notices, i, j)
  }

  const NOTHING: Picture := Picture(map[], None)

  lemma StandsLater(front: seq<Notice>, notice: Notice, id: nat, i: nat)
    requires i < |front|
    ensures Stands(front + [notice], id, i) <==>
              && Stands(front, id, i) && !PostOf(notice, id) && notice != Removed(id)
              && !Withdraws(front + [notice], i, |front|)
  {
    var all := front + [notice];
    forall j | i < j < |front| ensures Withdraws(all, i, j) <==> Withdraws(front, i, j) {
      assert all[..j] == front[..j];
    }
    if Stands(all, id, i) {
      forall j | i < j < |front|
        ensures !PostOf(front[j], id) && front[j] != Removed(id) && !Withdraws(front, i, j)
      {
        assert all[j] == front[j];
      }
      assert all[|front|] == notice;
    }
  }

  lemma RunningLater(front: seq<Notice>, notice: Notice, k: nat)
    ensures StillRunning(front + [notice], k) <==>
              (k == |front| && notice.SnapshotStart?)
              || (k < |front| && StillRunning(front, k) && !notice.SnapshotEnd?)
  {
    var all := front + [notice];
    if StillRunning(all, k) && k < |front| {
      forall m | k < m < |front| ensures !front[m].SnapshotEnd? { assert all[m] == front[m]; }
      assert !all[|front|].SnapshotEnd?;
    }
  }

  lemma RepeatsLater(front: seq<Notice>, notice: Notice, id: nat, p: nat)
    ensures Repeats(front + [notice], id, p) <==>
              (p == |front| && PostOf(notice, id))
              || (p < |front| && Repeats(front, id, p) && !notice.SnapshotStart?)
  {
    var all := front + [notice];
    if Repeats(all, id, p) && p < |front| {
      forall m | p < m < |front| ensures !front[m].SnapshotStart? { assert all[m] == front[m]; }
      assert !all[|front|].SnapshotStart?;
    }
  }

  /** With a snapshot running, the last post was repeated in it unless the snapshot started later. */
  lemma RepeatedOrOverdue(front: seq<Notice>, id: nat, i: nat, k: nat)
    requires Stands(front, id, i) && StillRunning(front, k)
    ensures (exists p :: Repeats(front, id, p)) <==> !exists m :: i < m < |front| && StillRunning(front, m)
  {
    if p: nat :| Repeats(front, id, p) {
      assert p <= i;
      forall m | i < m < |front| ensures !StillRunning(front, m) {
        assert !front[m].SnapshotStart?;
      }
    }
    if !exists m :: i < m < |front| && StillRunning(front, m) {
      assert k < i;
      forall m | i < m < |front| ensures !front[m].SnapshotStart? {
        if front[m].SnapshotStart? {
          assert StillRunning(front, m);
        }
      }
      assert Repeats(front, id, i);
    }
  }

  lemma StandsNow(front: seq<Notice>, notice: Notice, id: nat)
    ensures Stands(front + [notice], id, |front|) <==> PostOf(notice, id)
  {
  }

  /** A snapshot that started after the post is still running. */
  ghost predicate Overdue(front: seq<Notice>, i: nat) {
    exists k :: i < k < |front| && StillRunning(front, k)
  }

  /** What one more event changes about posts, snapshots and repetitions. */
  lemma Facts(front: seq<Notice>, notice: Notice, id: nat)
    ensures forall i: nat :: Stands(front + [notice], id, i) <==>
              (i == |front| && PostOf(notice, id))
              || (i < |front| && Stands(front, id, i) && !PostOf(notice, id) && notice != Removed(id)
                  && !(notice.SnapshotEnd? && Overdue(front, i)))
    ensures forall k: nat :: StillRunning(front + [notice], k) <==>
              (k == |front| && notice.SnapshotStart?)
              || (k < |front| && StillRunning(front, k) && !notice.SnapshotEnd?)
    ensures forall p: nat :: Repeats(front + [notice], id, p) <==>
              (p == |front| && PostOf(notice, id))
              || (p < |front| && Repeats(front, id, p) && !notice.SnapshotStart?)
  {
    var all := front + [notice];
    assert all[..|front|] == front;
    StandsNow(front, notice, id);
    forall i: nat
      ensures Stands(all, id, i) <==>
                (i == |front| && PostOf(notice, id))
                || (i < |front| && Stands(front, id, i) && !PostOf(notice, id) && notice != Removed(id)
                    && !(notice.SnapshotEnd? && Overdue(front, i)))
    {
      if i < |front| {
        StandsLater(front, notice, id, i);
      }
    }
    forall k: nat {
      RunningLater(front, notice, k);
    }
    forall p: nat {
      RepeatsLater(front, notice, id, p);
    }
  }

  /** What the running snapshot is told to have repeated. */
  ghost predicate ToldSnapshot(picture: Picture, notices: seq<Notice>, id: nat) {
    && (picture.resent.Some? <==> exists k: nat :: StillRunning(notices, k))
    && (picture.resent.Some? ==>
          (id in picture.resent.value <==> exists p: nat :: Repeats(notices, id, p)))
  }

  ghost predicate ToldShown(picture: Picture, notices: seq<Notice>, id: nat) {
    && (id in picture.notifications <==> exists i: nat :: Stands(notices, id, i))
    && (forall i: nat :: Stands(notices, id, i) ==>
          id in picture.notifications && notices[i] == Posted(id, picture.notifications[id]))
  }

  lemma SnapshotStep(picture: Picture, front: seq<Notice>, notice: Notice, id: nat)
    requires ToldSnapshot(picture, front, id)
    ensures ToldSnapshot(Draw(picture, notice), front + [notice], id)
  {
    Facts(front, notice, id);
    var all := front + [notice];
    hide StillRunning, Repeats, Stands, Overdue;
    if PostOf(notice, id) {
      assert Repeats(all, id, |front|);
    }
    if notice.SnapshotStart? {
      assert StillRunning(all, |front|);
    } else if !notice.SnapshotEnd? {
      if k: nat :| StillRunning(front, k) {
        InRange(front, id, k);
        assert StillRunning(all, k);
      }
      if p: nat :| Repeats(front, id, p) {
        InRange(front, id, p);
        assert Repeats(all, id, p);
      }
    }
  }

  lemma InRange(notices: seq<Notice>, id: nat, k: nat)
    ensures StillRunning(notices, k) || Repeats(notices, id, k) ==> k < |notices|
  {
  }

  lemma ShownStep(picture: Picture, front: seq<Notice>, notice: Notice, id: nat)
    requires ToldShown(picture, front, id) && ToldSnapshot(picture, front, id)
    ensures ToldShown(Draw(picture, notice), front + [notice], id)
  {
    Facts(front, notice, id);
    var all, after := front + [notice], Draw(picture, notice);
    if notice.SnapshotEnd? && picture.resent.Some? {
      var k: nat :| StillRunning(front, k);
      forall i: nat | Stands(front, id, i)
        ensures Overdue(front, i) <==> id !in picture.resent.value
      {
        RepeatedOrOverdue(front, id, i, k);
      }
    } else if notice.SnapshotEnd? {
      forall i: nat ensures !Overdue(front, i) {
      }
    }
    InBounds(front, id);
    hide StillRunning, Repeats, Stands, Overdue, ToldSnapshot;
    if PostOf(notice, id) {
      assert Stands(all, id, |front|);
    }
    forall i: nat | Stands(all, id, i)
      ensures id in after.notifications && all[i] == Posted(id, after.notifications[id])
    {
      if i < |front| { assert all[i] == front[i] && Stands(front, id, i); }
    }
    if id in after.notifications && !PostOf(notice, id) {
      var i: nat :| Stands(front, id, i);
      assert Stands(all, id, i);
    }
  }

  lemma InBounds(notices: seq<Notice>, id: nat)
    ensures forall i: nat :: Stands(notices, id, i) ==> i < |notices| && PostOf(notices[i], id)
  {
  }

  /**
   After any events, starting from nothing, an id is on the desktop exactly when some post of
   it stands: no later post replaced it, no removal and no end of a snapshot that started
   after it took it down. And then it shows that post's content.
   */
  lemma {:induction false} ShownExactlyWhenItStands(notices: seq<Notice>, id: nat)
    ensures var picture := DrawAll(NOTHING, notices);
            && (id in picture.notifications <==> exists i: nat :: Stands(notices, id, i))
            && (forall i: nat :: Stands(notices, id, i) ==>
                  id in picture.notifications && notices[i] == Posted(id, picture.notifications[id]))
            && ToldSnapshot(picture, notices, id)
  {
    hide Stands, Repeats, StillRunning, Draw, ToldSnapshot;
    if |notices| == 0 {
      NothingStands(id);
    } else {
      var front, last := notices[..|notices| - 1], notices[|notices| - 1];
      ShownExactlyWhenItStands(front, id);
      SnapshotStep(DrawAll(NOTHING, front), front, last, id);
      ShownStep(DrawAll(NOTHING, front), front, last, id);
      assert front + [last] == notices;
    }
  }

  lemma NothingStands(id: nat)
    ensures ToldSnapshot(NOTHING, [], id) && ToldShown(NOTHING, [], id)
  {
  }
}
