/**
 Applying operations is a join: the state reached under a key depends only on which
 operations were applied, not on their order or on repetitions.
 */
module JoinLaws {
  import opened Types
  import opened StoreSpec
  import opened OverlayLaws

  /** What a user can tell apart under one key; a tombstone's own sequence is not part of it. */
  datatype Status = Absent | Dismissed | Shown(sequence: nat, content: Content)

  function StatusOf(records: seq<Record>, key: Key): Status {
    var record := Lookup(records, key);
    if record.None? then Absent
    else if record.value.content.None? then Dismissed
    else Shown(record.value.sourceSequence, record.value.content.value)
  }

  /** Every content operation on the key carries the content its sequence stands for. */
  ghost predicate SequenceDetermines(ops: set<Operation>, before: Status, key: Key) {
    && (forall a, b ::
          (a in ops && b in ops && a.key == b.key == key
           && a.content.Some? && b.content.Some? && a.sequence == b.sequence) ==> a == b)
    && (before.Shown? ==>
          forall a ::
            (a in ops && a.key == key && a.content.Some? && a.sequence == before.sequence) ==>
              a.content.value == before.content)
  }

  /**
   The status a set of operations must lead to, without reference to any order: dismissed
   as soon as anything dismissed it, otherwise the highest-sequenced content offered.
   */
  ghost predicate JoinOf(before: Status, ops: set<Operation>, key: Key, after: Status) {
    var dismissed := before.Dismissed? || exists op :: op in ops && op.key == key && op.content.None?;
    && (dismissed <==> after.Dismissed?)
    && (after.Absent? <==> before.Absent? && forall op :: op in ops ==> op.key != key)
    && (after.Shown? ==>
          && (after == before
              || exists op :: op in ops && op.key == key && op.content == Some(after.content)
                   && op.sequence == after.sequence)
          && (before.Shown? ==> before.sequence <= after.sequence)
          && forall op :: op in ops && op.key == key ==> op.sequence <= after.sequence)
  }

  function Operations(submissions: seq<Submission>): set<Operation> {
    set i | 0 <= i < |submissions| :: submissions[i].operation
  }

  function NamedKeys(submissions: seq<Submission>): set<Key> {
    set i | 0 <= i < |submissions| :: submissions[i].operation.key
  }

  /** All operations fit: every key named by the records or the operations has room. */
  ghost predicate Fits(records: seq<Record>, submissions: seq<Submission>) {
    |KeySet(records) + NamedKeys(submissions)| <= MAX_RECORDS
  }

  ghost predicate Authorised(submissions: seq<Submission>) {
    forall i :: 0 <= i < |submissions| ==>
      Refusal(submissions[i].sender, submissions[i].operation).None?
  }

  lemma {:induction false} ReplayKeepsValid(records: seq<Record>, submissions: seq<Submission>)
    requires ValidRecords(records)
    ensures ValidRecords(Replay(records, submissions))
    ensures Advances(records, Replay(records, submissions))
    ensures KeySet(Replay(records, submissions)) <= KeySet(records) + NamedKeys(submissions)
  {
    hide Refusal, ValidRecord;
    if |submissions| > 0 {
      var last := |submissions| - 1;
      ReplayKeepsValid(records, submissions[..last]);
      var before := Replay(records, submissions[..last]);
      var op := submissions[last].operation;
      var after := Attempt(before, submissions[last].sender, op);
      AttemptKeepsValid(before, submissions[last].sender, op);
      AdvancesTransitive(records, before, after);
      AttemptKeys(before, submissions[last].sender, op);
      assert NamedKeys(submissions[..last]) <= NamedKeys(submissions);
      assert op.key in NamedKeys(submissions);
    }
  }

  lemma FitsPrefix(records: seq<Record>, submissions: seq<Submission>, n: nat)
    requires n <= |submissions| && Fits(records, submissions)
    ensures Fits(records, submissions[..n])
  {
    assert NamedKeys(submissions[..n]) <= NamedKeys(submissions);
    SubsetSize(KeySet(records) + NamedKeys(submissions[..n]), KeySet(records) + NamedKeys(submissions));
  }

  lemma RoomFor(records: seq<Record>, submissions: seq<Submission>, n: nat)
    requires ValidRecords(records) && n < |submissions| && Fits(records, submissions)
    requires Lookup(Replay(records, submissions[..n]), submissions[n].operation.key).None?
    ensures |Replay(records, submissions[..n])| < MAX_RECORDS
  {
    hide Attempt, Replay, ValidRecord;
    var before, key := Replay(records, submissions[..n]), submissions[n].operation.key;
    ReplayKeepsValid(records, submissions[..n]);
    KeySetSize(before);
    assert NamedKeys(submissions[..n]) <= NamedKeys(submissions);
    assert key in NamedKeys(submissions);
    assert key !in KeySet(before);
    SubsetSize(KeySet(before), KeySet(records) + NamedKeys(submissions) - {key});
  }

  lemma {:induction false} ReplayIsJoin(records: seq<Record>, submissions: seq<Submission>, key: Key)
    requires ValidRecords(records)
    requires Authorised(submissions)
    requires Fits(records, submissions)
    ensures JoinOf(StatusOf(records, key), Operations(submissions), key,
                   StatusOf(Replay(records, submissions), key))
  {
    hide Refusal, ValidRecord, Attempt, Lookup, StatusOf, JoinOf, Fits, ValidRecords, NamedKeys;
    if |submissions| > 0 {
      var last := |submissions| - 1;
      var front, op := submissions[..last], submissions[last].operation;
      FitsPrefix(records, submissions, last);
      ReplayIsJoin(records, front, key);
      var before := Replay(records, front);
      if Lookup(before, op.key).None? {
        RoomFor(records, submissions, last);
      }
      StatusStep(before, submissions[last].sender, op, key);
      assert Operations(submissions) == Operations(front) + {op} by {
        assert forall i :: 0 <= i < last ==> submissions[i] == front[i];
      }
      JoinStep(StatusOf(records, key), Operations(front), key, StatusOf(before, key), op,
               StatusOf(Replay(records, submissions), key));
    } else {
      assert Operations(submissions) == {};
      JoinOfNone(StatusOf(records, key), key);
    }
  }

  lemma JoinOfNone(status: Status, key: Key)
    ensures JoinOf(status, {}, key, status)
  {
  }

  lemma StatusStep(records: seq<Record>, sender: string, op: Operation, key: Key)
    requires Refusal(sender, op).None?
    requires Lookup(records, op.key).None? ==> |records| < MAX_RECORDS
    ensures var before := StatusOf(records, key);
            StatusOf(Attempt(records, sender, op), key)
              == if op.key != key || before.Dismissed? then before
                 else if op.content.None? then Dismissed
                 else if before.Absent? || op.sequence > before.sequence then Shown(op.sequence, op.content.value)
                 else before
  {
    hide Refusal, Attempt, Lookup;
    AttemptLookup(records, sender, op, key);
  }

  lemma JoinStep(
    start: Status, ops: set<Operation>, key: Key, middle: Status, op: Operation, after: Status)
    requires JoinOf(start, ops, key, middle)
    requires after ==
      if op.key != key || middle.Dismissed? then middle
      else if op.content.None? then Dismissed
      else if middle.Absent? || op.sequence > middle.sequence then Shown(op.sequence, op.content.value)
      else middle
    ensures JoinOf(start, ops + {op}, key, after)
  {
  }

  /** The order-free description leaves only one possible status. */
  lemma JoinUnique(before: Status, ops: set<Operation>, key: Key, a: Status, b: Status)
    requires SequenceDetermines(ops, before, key)
    requires JoinOf(before, ops, key, a)
    requires JoinOf(before, ops, key, b)
    ensures a == b
  {
  }

  /**
   Reordering and repeating operations, of one or many senders, leads every key to the
   same status.
   */
  lemma ApplyIsJoin(
    records: seq<Record>, one: seq<Submission>, other: seq<Submission>, key: Key)
    requires ValidRecords(records)
    requires Authorised(one) && Authorised(other)
    requires Operations(one) == Operations(other)
    requires Fits(records, one)
    requires SequenceDetermines(Operations(one), StatusOf(records, key), key)
    ensures StatusOf(Replay(records, one), key) == StatusOf(Replay(records, other), key)
  {
    hide Authorised, Replay, JoinOf, SequenceDetermines, StatusOf;
    SameKeys(one, other);
    SameKeys(other, one);
    assert Fits(records, other) by {
      assert NamedKeys(one) == NamedKeys(other);
    }
    ReplayIsJoin(records, one, key);
    ReplayIsJoin(records, other, key);
    JoinUnique(StatusOf(records, key), Operations(one), key,
               StatusOf(Replay(records, one), key), StatusOf(Replay(records, other), key));
  }

  lemma SameKeys(one: seq<Submission>, other: seq<Submission>)
    requires Operations(one) <= Operations(other)
    ensures NamedKeys(one) <= NamedKeys(other)
  {
    forall k | k in NamedKeys(one) ensures k in NamedKeys(other) {
      var i :| 0 <= i < |one| && one[i].operation.key == k;
      assert one[i].operation in Operations(other);
    }
  }
}
