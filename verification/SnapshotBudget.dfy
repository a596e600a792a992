/**
 Between a session and its worker: snapshot frames are staged and queued within a shared
 byte budget, and reach the link end as the same stream of events.
 */
module SnapshotBudget {
  import opened Types
  import opened StoreSpec
  import opened LinkSpec
  import LinkObject

  const QUEUE: nat := 32

  /** A snapshot and the bytes its budget has reserved. */
  datatype Snapshot = Snapshot(epoch: string, records: seq<Record>, reserved: nat)

  datatype Incoming = Single(event: Event) | Whole(snapshot: Snapshot)

  /** The snapshot the worker is handing over and how many of its events it has handed. */
  datatype Progress = Progress(snapshot: Snapshot, handed: nat)

  datatype Refused =
    | NestedSnapshot
    | BadEpoch
    | OutsideSnapshot
    | TooLarge
    | BufferFull
    | EndWithoutStart
    | Interrupted
    | QueueFull
    | Stopped

  /** The length of a text in bytes: its UTF-8 encoding takes one to four for a character. */
  function Utf8Length(text: string): nat {
    if |text| == 0 then 0
    else
      var c := text[|text| - 1] as int;
      Utf8Length(text[..|text| - 1])
        + if c < 0x80 then 1 else if c < 0x800 then 2 else if c < 0x1_0000 then 3 else 4
  }

  function Size(record: Record): nat {
    Utf8Length(record.key.origin) + Utf8Length(record.key.instance) + 256
      + if record.content.None? then 0
        else
          var c := record.content.value;
          Utf8Length(c.appName) + Utf8Length(c.title) + |c.body| + Utf8Length(c.icon)
            + if c.iconPng.None? then 0 else |c.iconPng.value|
  }

  function Bytes(records: seq<Record>): nat {
    if |records| == 0 then 0
    else Bytes(records[..|records| - 1]) + Size(records[|records| - 1])
  }

  function ItemBytes(item: Incoming): nat {
    if item.Whole? then Bytes(item.snapshot.records) else 0
  }

  function QueueBytes(queue: seq<Incoming>): nat {
    if |queue| == 0 then 0 else ItemBytes(queue[0]) + QueueBytes(queue[1..])
  }

  /** The events of a snapshot that has not been ended. */
  function Opened(s: Snapshot): seq<Event> {
    [SnapshotStart(s.epoch)] + RecordEvents(s.records)
  }

  function AllEvents(s: Snapshot): seq<Event> {
    Opened(s) + [SnapshotEnd]
  }

  function ItemEvents(item: Incoming): seq<Event> {
    if item.Whole? then AllEvents(item.snapshot) else [item.event]
  }

  function QueueEvents(queue: seq<Incoming>): seq<Event> {
    if |queue| == 0 then [] else ItemEvents(queue[0]) + QueueEvents(queue[1..])
  }

  lemma {:induction false} QueueAppend(queue: seq<Incoming>, item: Incoming)
    ensures QueueBytes(queue + [item]) == QueueBytes(queue) + ItemBytes(item)
    ensures QueueEvents(queue + [item]) == QueueEvents(queue) + ItemEvents(item)
  {
    hide ItemBytes, ItemEvents;
    if |queue| > 0 {
      QueueAppend(queue[1..], item);
      assert (queue + [item])[1..] == queue[1..] + [item];
    } else {
      assert (queue + [item])[1..] == [];
      assert queue + [item] == [item];
    }
  }

  lemma RecordsGrow(s: Snapshot, record: Record, reserved: nat)
    ensures Bytes(s.records + [record]) == Bytes(s.records) + Size(record)
    ensures Opened(Snapshot(s.epoch, s.records + [record], reserved)) == Opened(s) + [SnapshotRecord(record)]
  {
  }

  /** What the worker has still to hand over of its snapshot. */
  ghost function Rest(applying: Option<Progress>): seq<Event> {
    if applying.None? || applying.value.handed > |AllEvents(applying.value.snapshot)| then []
    else AllEvents(applying.value.snapshot)[applying.value.handed..]
  }

  /** What was accepted and not handed over yet, in order. */
  ghost function Waiting(applying: Option<Progress>, queue: seq<Incoming>, staged: Option<Snapshot>): seq<Event> {
    Rest(applying) + QueueEvents(queue) + (if staged.Some? then Opened(staged.value) else [])
  }

  lemma OpenWaits(applying: Option<Progress>, queue: seq<Incoming>, epoch: string)
    ensures Waiting(applying, queue, Some(Snapshot(epoch, [], 0)))
         == Waiting(applying, queue, None) + [SnapshotStart(epoch)]
  {
  }

  lemma StageWaits(applying: Option<Progress>, queue: seq<Incoming>, s: Snapshot, record: Record, reserved: nat)
    ensures Waiting(applying, queue, Some(Snapshot(s.epoch, s.records + [record], reserved)))
         == Waiting(applying, queue, Some(s)) + [SnapshotRecord(record)]
  {
  }

  lemma SendWaits(applying: Option<Progress>, queue: seq<Incoming>, s: Snapshot)
    ensures Waiting(applying, queue + [Whole(s)], None) == Waiting(applying, queue, Some(s)) + [SnapshotEnd]
  {
    hide Rest, QueueEvents, Opened;
    QueueAppend(queue, Whole(s));
  }

  lemma SingleWaits(applying: Option<Progress>, queue: seq<Incoming>, event: Event)
    ensures Waiting(applying, queue + [Single(event)], None) == Waiting(applying, queue, None) + [event]
  {
    hide Rest, QueueEvents;
    QueueAppend(queue, Single(event));
  }

  lemma TakeWaits(queue: seq<Incoming>, staged: Option<Snapshot>)
    requires queue != []
    ensures var applying := if queue[0].Whole? then Some(Progress(queue[0].snapshot, 0)) else None;
            Waiting(None, queue, staged)
              == (if queue[0].Single? then [queue[0].event] else []) + Waiting(applying, queue[1..], staged)
  {
    hide AllEvents, Opened;
    var rest := QueueEvents(queue[1..]);
    assert QueueEvents(queue) == ItemEvents(queue[0]) + rest;
  }

  /** The event at a position of a snapshot's stream. */
  function EventAt(s: Snapshot, n: nat): Event
    requires n < |s.records| + 2
  {
    if n == 0 then SnapshotStart(s.epoch)
    else if n <= |s.records| then SnapshotRecord(s.records[n - 1])
    else SnapshotEnd
  }

  lemma EventsFrom(s: Snapshot, n: nat)
    requires n < |s.records| + 2
    ensures |AllEvents(s)| == |s.records| + 2
    ensures AllEvents(s)[n..] == [EventAt(s, n)] + AllEvents(s)[n + 1..]
  {
  }

  lemma HandWaits(s: Snapshot, n: nat, queue: seq<Incoming>, staged: Option<Snapshot>)
    requires n < |s.records| + 2
    ensures Waiting(Some(Progress(s, n)), queue, staged)
         == [EventAt(s, n)] + Waiting(Some(Progress(s, n + 1)), queue, staged)
  {
    hide QueueEvents, AllEvents, EventAt, Opened;
    EventsFrom(s, n);
  }

  lemma DoneWaits(s: Snapshot, queue: seq<Incoming>, staged: Option<Snapshot>)
    ensures Waiting(Some(Progress(s, |s.records| + 2)), queue, staged) == Waiting(None, queue, staged)
  {
    hide QueueEvents;
  }

  lemma ReservedBytes(s: Snapshot)
    requires Reserved(s)
    ensures s.reserved == Bytes(s.records)
  {
  }

  // ------------------------------------------------------------------ stage

  /** Why a request does not get into the queue. */
  function SendRefusal(queued: nat, stopped: bool): Option<Refused> {
    if stopped then Some(Stopped) else if queued >= QUEUE then Some(QueueFull) else None
  }

  /** Why the stage refuses an event, given what it holds and how full queue and budget are. */
  function StageRefusal(
    staged: Option<Snapshot>, queued: nat, used: nat, stopped: bool, event: Event): Option<Refused>
  {
    match event
    case SnapshotStart(epoch) =>
      if staged.Some? then Some(Refused.NestedSnapshot)
      else if |epoch| != 32 then Some(BadEpoch)
      else None
    case SnapshotRecord(record) =>
      if staged.None? then Some(Refused.OutsideSnapshot)
      else if |staged.value.records| >= MAX_RECORDS then Some(TooLarge)
      else if used + Size(record) > MAX_STORE_BYTES then Some(BufferFull)
      else None
    case SnapshotEnd =>
      if staged.None? then Some(Refused.EndWithoutStart) else SendRefusal(queued, stopped)
    case _ =>
      if staged.Some? then Some(Interrupted) else SendRefusal(queued, stopped)
  }

  /** Every refusal has its reason, and without one an event is accepted. */
  lemma StagedExactlyWhen(staged: Option<Snapshot>, queued: nat, used: nat, stopped: bool, event: Event)
    ensures var refused := StageRefusal(staged, queued, used, stopped, event);
            var single := !event.SnapshotStart? && !event.SnapshotRecord? && !event.SnapshotEnd?;
            var sent := (event.SnapshotEnd? && staged.Some?) || (single && staged.None?);
            var staging := event.SnapshotRecord? && staged.Some?;
            && (refused == Some(Refused.NestedSnapshot) <==> event.SnapshotStart? && staged.Some?)
            && (refused == Some(BadEpoch) <==> event.SnapshotStart? && staged.None? && |event.epoch| != 32)
            && (refused == Some(Refused.OutsideSnapshot) <==> event.SnapshotRecord? && staged.None?)
            && (refused == Some(TooLarge) <==> staging && |staged.value.records| >= MAX_RECORDS)
            && (refused == Some(BufferFull) <==>
                  staging && |staged.value.records| < MAX_RECORDS && used + Size(event.record) > MAX_STORE_BYTES)
            && (refused == Some(Refused.EndWithoutStart) <==> event.SnapshotEnd? && staged.None?)
            && (refused == Some(Interrupted) <==> single && staged.Some?)
            && (refused == Some(Stopped) <==> sent && stopped)
            && (refused == Some(QueueFull) <==> sent && !stopped && queued >= 32)
  {
    hide Size;
  }

  lemma {:induction false} Utf8Bounds(text: string)
    ensures |text| <= Utf8Length(text) <= 4 * |text|
    ensures (forall i :: 0 <= i < |text| ==> text[i] as int < 0x80) ==> Utf8Length(text) == |text|
  {
    if |text| > 0 {
      Utf8Bounds(text[..|text| - 1]);
    }
  }

  /** A record's bytes are those of its texts, body and picture and a fixed share: at least one a character. */
  lemma SizeBounds(record: Record)
    ensures record.content.None? ==>
              |record.key.origin| + |record.key.instance| + 256 <= Size(record)
              <= 4 * (|record.key.origin| + |record.key.instance|) + 256
    ensures record.content.Some? ==>
              var c := record.content.value;
              var texts := |record.key.origin| + |record.key.instance| + |c.appName| + |c.title| + |c.icon|;
              var data := |c.body| + (if c.iconPng.Some? then |c.iconPng.value| else 0) + 256;
              texts + data <= Size(record) <= 4 * texts + data
  {
    Utf8Bounds(record.key.origin);
    Utf8Bounds(record.key.instance);
    if record.content.Some? {
      Utf8Bounds(record.content.value.appName);
      Utf8Bounds(record.content.value.title);
      Utf8Bounds(record.content.value.icon);
    }
  }

  /** What is staged after an event was accepted. */
  function StagedNext(staged: Option<Snapshot>, event: Event): Option<Snapshot> {
    match event
    case SnapshotStart(epoch) => Some(Snapshot(epoch, [], 0))
    case SnapshotRecord(record) =>
      if staged.None? then None
      else
        var s := staged.value;
        Some(Snapshot(s.epoch, s.records + [record], s.reserved + Size(record)))
    case SnapshotEnd => None
    case _ => staged
  }

  function StagedAfter(events: seq<Event>): Option<Snapshot> {
    if |events| == 0 then None
    else StagedNext(StagedAfter(events[..|events| - 1]), events[|events| - 1])
  }

  lemma StagedAppend(events: seq<Event>, event: Event)
    ensures StagedAfter(events + [event]) == StagedNext(StagedAfter(events), event)
  {
    assert (events + [event])[..|events|] == events;
  }

  ghost predicate Reserved(s: Snapshot) {
    s.reserved == Bytes(s.records) && |s.records| <= MAX_RECORDS && |s.epoch| == 32
  }

  /** The bytes a budget keeps are those of its records, which only whole snapshots hold. */
  ghost predicate AllReserved(queue: seq<Incoming>) {
    forall i :: 0 <= i < |queue| ==>
      if queue[i].Whole? then Reserved(queue[i].snapshot) else !queue[i].event.SnapshotRecord?
  }

  /** The bytes of the records among some events. */
  function RecordBytes(events: seq<Event>): nat {
    if |events| == 0 then 0
    else
      var last := events[|events| - 1];
      RecordBytes(events[..|events| - 1]) + if last.SnapshotRecord? then Size(last.record) else 0
  }

  lemma {:induction false} RecordBytesAppend(a: seq<Event>, b: seq<Event>)
    ensures RecordBytes(a + b) == RecordBytes(a) + RecordBytes(b)
  {
    hide Size;
    if |b| == 0 {
      assert a + b == a;
    } else {
      RecordBytesAppend(a, b[..|b| - 1]);
      assert (a + b)[..|a + b| - 1] == a + b[..|b| - 1];
    }
  }

  lemma {:induction false} SnapshotBytes(records: seq<Record>)
    ensures RecordBytes(RecordEvents(records)) == Bytes(records)
  {
    hide Size;
    if |records| > 0 {
      SnapshotBytes(records[..|records| - 1]);
      assert RecordEvents(records)[..|records| - 1] == RecordEvents(records[..|records| - 1]);
    }
  }

  /** What a queue is charged for is the records it will hand over. */
  lemma {:induction false} QueueIsChargedForItsRecords(queue: seq<Incoming>)
    requires AllReserved(queue)
    ensures QueueBytes(queue) == RecordBytes(QueueEvents(queue))
  {
    hide Size, Bytes;
    if |queue| > 0 {
      QueueIsChargedForItsRecords(queue[1..]);
      RecordBytesAppend(ItemEvents(queue[0]), QueueEvents(queue[1..]));
      if queue[0].Whole? {
        var s := queue[0].snapshot;
        SnapshotBytes(s.records);
        RecordBytesAppend([SnapshotStart(s.epoch)], RecordEvents(s.records));
        RecordBytesAppend(Opened(s), [SnapshotEnd]);
      }
    }
  }

  class SessionLink {
    var staged: Option<Snapshot>
    var queue: seq<Incoming>
    var applying: Option<Progress>
    var stopped: bool               // the worker has ended
    var used: nat                   // the counter all budgets share
    ghost var received: seq<Event>  // what the session accepted
    ghost var handed: seq<Event>    // what the worker handed to the link end

    /** The shared counter is exactly what is staged, queued or being applied, within the limit. */
    ghost predicate Accounted()
      reads this
    {
      Held() && (applying.Some? ==> applying.value.handed < |applying.value.snapshot.records| + 2)
    }

    ghost predicate Held()
      reads this
    {
      && used == StagedBytes() + QueueBytes(queue) + ApplyingBytes()
      && used <= MAX_STORE_BYTES && |queue| <= QUEUE
      && (staged.Some? ==> Reserved(staged.value))
      && AllReserved(queue)
      && (applying.Some? ==>
            Reserved(applying.value.snapshot) && applying.value.handed <= |applying.value.snapshot.records| + 2)
      && (stopped ==> queue == [] && applying.None?)
    }

    /** While the worker runs, nothing accepted is lost, doubled or reordered. */
    ghost predicate Streamed()
      reads this
    {
      handed <= received && (!stopped ==> received == handed + Waiting(applying, queue, staged))
    }

    /** What is staged is what the accepted events have left open. */
    ghost predicate Shaped()
      reads this
    {
      staged == StagedAfter(received)
    }

    ghost function StagedBytes(): nat
      reads this
    {
      if staged.Some? then Bytes(staged.value.records) else 0
    }

    ghost function ApplyingBytes(): nat
      reads this
    {
      if applying.Some? then Bytes(applying.value.snapshot.records) else 0
    }

    constructor ()
      ensures Accounted() && Streamed() && Shaped() && used == 0 && received == []
    {
      staged, queue, applying, stopped, used := None, [], None, false, 0;
      received, handed := [], [];
    }

    /** Takes bytes from the shared budget, or refuses and changes nothing. */
    method Reserve(bytes: nat) returns (ok: bool)
      modifies this`used
      ensures ok <==> old(used) + bytes <= MAX_STORE_BYTES
      ensures used == old(used) + if ok then bytes else 0
    {
      ok := used + bytes <= MAX_STORE_BYTES;
      if ok {
        used := used + bytes;
      }
    }

    method Open(epoch: string) returns (refused: Option<Refused>)
      requires Accounted() && Streamed()
      modifies this`staged, this`received
      ensures Accounted() && Streamed()
      ensures received == old(received) + if refused.None? then [SnapshotStart(epoch)] else []
      ensures refused == StageRefusal(old(staged), |queue|, used, stopped, SnapshotStart(epoch))
      ensures staged == if refused.None? then StagedNext(old(staged), SnapshotStart(epoch)) else old(staged)
    {
      hide Waiting, QueueBytes, AllReserved;
      if staged.Some? {
        return Some(Refused.NestedSnapshot);
      }
      if |epoch| != 32 {
        return Some(BadEpoch);
      }
      OpenWaits(applying, queue, epoch);
      staged := Some(Snapshot(epoch, [], 0));
      received := received + [SnapshotStart(epoch)];
      refused := None;
    }

    /** Adds a record to the staged snapshot; without room in the budget nothing changes. */
    method Stage(record: Record) returns (refused: Option<Refused>)
      requires Accounted() && Streamed()
      modifies this`staged, this`received, this`used
      ensures Accounted() && Streamed()
      ensures received == old(received) + if refused.None? then [SnapshotRecord(record)] else []
      ensures refused == StageRefusal(old(staged), |queue|, old(used), stopped, SnapshotRecord(record))
      ensures staged == if refused.None? then StagedNext(old(staged), SnapshotRecord(record)) else old(staged)
      ensures refused.Some? ==> used == old(used)
    {
      hide Waiting, QueueBytes, AllReserved, Bytes, Size;
      if staged.None? {
        return Some(Refused.OutsideSnapshot);
      }
      var snapshot := staged.value;
      if |snapshot.records| >= MAX_RECORDS {
        return Some(TooLarge);
      }
      var reserved := Reserve(Size(record));
      if !reserved {
        return Some(BufferFull);
      }
      var total := snapshot.reserved + Size(record);
      RecordsGrow(snapshot, record, total);
      StageWaits(applying, queue, snapshot, record, total);
      var records := snapshot.records + [record];
      staged := Some(Snapshot(snapshot.epoch, records, total));
      received := received + [SnapshotRecord(record)];
      refused := None;
    }

    /** Queues one request; the queue refuses when it is full or its worker has ended. */
    method Send(item: Incoming) returns (refused: Option<Refused>)
      modifies this`queue
      ensures refused == SendRefusal(|old(queue)|, stopped)
      ensures queue == if refused.None? then old(queue) + [item] else old(queue)
    {
      if stopped {
        return Some(Stopped);
      }
      if |queue| >= QUEUE {
        return Some(QueueFull);
      }
      queue := queue + [item];
      refused := None;
    }

    /** Ends the staged snapshot; when the queue does not take it, its bytes are given back. */
    method SendStaged() returns (refused: Option<Refused>)
      requires Accounted() && Streamed()
      modifies this`staged, this`queue, this`used, this`received
      ensures Accounted() && (refused.None? ==> Streamed())
      ensures received == old(received) + if refused.None? then [SnapshotEnd] else []
      ensures used == if refused.None? then old(used) else old(used) - old(StagedBytes())
      ensures refused == StageRefusal(old(staged), |old(queue)|, old(used), stopped, SnapshotEnd)
      ensures staged.None?
    {
      hide Waiting, QueueBytes, Bytes;
      if staged.None? {
        return Some(Refused.EndWithoutStart);
      }
      var snapshot := staged.value;
      QueueAppend(queue, Whole(snapshot));
      SendWaits(applying, queue, snapshot);
      staged := None;
      refused := Send(Whole(snapshot));
      if refused.Some? {
        used := used - snapshot.reserved;
      } else {
        received := received + [SnapshotEnd];
      }
    }

    method SendSingle(event: Event) returns (refused: Option<Refused>)
      requires Accounted() && Streamed()
      requires !event.SnapshotStart? && !event.SnapshotRecord? && !event.SnapshotEnd?
      modifies this`queue, this`received
      ensures Accounted() && Streamed()
      ensures received == old(received) + if refused.None? then [event] else []
      ensures refused == StageRefusal(staged, |old(queue)|, used, stopped, event)
    {
      hide Waiting, QueueBytes, Bytes;
      if staged.Some? {
        return Some(Interrupted);
      }
      QueueAppend(queue, Single(event));
      SingleWaits(applying, queue, event);
      refused := Send(Single(event));
      if refused.None? {
        received := received + [event];
      }
    }

    /** One event at the stage: accepted and staged or queued, or refused for the reason named. */
    method Enqueue(event: Event) returns (refused: Option<Refused>)
      requires Accounted() && Streamed() && Shaped()
      modifies this`staged, this`queue, this`used, this`received
      ensures Accounted() && (refused.None? ==> Streamed() && Shaped())
      ensures received == old(received) + if refused.None? then [event] else []
      ensures refused == StageRefusal(StagedAfter(old(received)), |old(queue)|, old(used), stopped, event)
      ensures refused.Some? ==> used <= old(used)
    {
      hide Waiting, QueueBytes, Bytes, Size, AllReserved, Reserved, StagedAfter;
      StagedAppend(received, event);
      if event.SnapshotStart? {
        refused := Open(event.epoch);
      } else if event.SnapshotRecord? {
        refused := Stage(event.record);
      } else if event.SnapshotEnd? {
        refused := SendStaged();
      } else {
        refused := SendSingle(event);
      }
    }

    /** Ends the worker: what it holds and what is queued is dropped, and its bytes come back. */
    method StopWorker()
      requires Held() && handed <= received
      modifies this`queue, this`applying, this`stopped, this`used
      ensures Accounted() && Streamed() && stopped
      ensures used == StagedBytes()
    {
      hide Waiting, Bytes, Reserved;
      stopped := true;
      if applying.Some? {
        ReservedBytes(applying.value.snapshot);
        used := used - applying.value.snapshot.reserved;
        applying := None;
      }
      while queue != []
        invariant stopped && AllReserved(queue) && |queue| <= QUEUE && applying.None?
        invariant used == StagedBytes() + QueueBytes(queue)
        invariant used <= MAX_STORE_BYTES
        decreases |queue|
      {
        if queue[0].Whole? {
          ReservedBytes(queue[0].snapshot);
          used := used - queue[0].snapshot.reserved;
        }
        queue := queue[1..];
      }
    }

    /** Dropping the session returns every byte. */
    method Drop()
      requires Accounted() && handed <= received
      modifies this
      ensures Accounted() && Streamed() && used == 0
      ensures staged.None? && queue == [] && applying.None? && stopped
      ensures handed == old(handed) && received == old(received)
    {
      hide Waiting, Bytes;
      StopWorker();
      if staged.Some? {
        used := used - staged.value.reserved;
        staged := None;
      }
    }

    /** An event from the peer; a refused one ends the session. */
    method Receive(event: Event) returns (alive: bool)
      requires Accounted() && Streamed() && Shaped()
      modifies this
      ensures Accounted() && Streamed()
      ensures alive <==> StageRefusal(StagedAfter(old(received)), |old(queue)|, old(used), old(stopped), event).None?
      ensures alive ==> received == old(received) + [event] && stopped == old(stopped) && Shaped()
      ensures !alive ==> used == 0 && stopped && received == old(received)
      ensures handed == old(handed)
    {
      hide StageRefusal, StagedAfter;
      var refused := Enqueue(event);
      if refused.Some? {
        Drop();
      }
      alive := refused.None?;
    }

    /** The next event for the link end: the head of the queue, or of the snapshot taken from it. */
    method TakeNext() returns (event: Option<Event>)
      requires Accounted() && Streamed()
      modifies this`queue, this`applying, this`handed
      ensures Held() && Streamed()
      ensures handed == old(handed) + if event.Some? then [event.value] else []
      ensures event.None? <==> stopped || (old(queue) == [] && old(applying).None?)
      ensures event.None? ==> queue == old(queue) && applying == old(applying)
    {
      hide Waiting, Bytes;
      if stopped {
        return None;
      }
      if applying.None? {
        if queue == [] {
          return None;
        }
        var head := queue[0];
        TakeWaits(queue, staged);
        queue := queue[1..];
        if head.Single? {
          handed := handed + [head.event];
          return Some(head.event);
        }
        applying := Some(Progress(head.snapshot, 0));
      }
      var snapshot, n := applying.value.snapshot, applying.value.handed;
      HandWaits(snapshot, n, queue, staged);
      event := Some(EventAt(snapshot, n));
      handed := handed + [event.value];
      applying := Some(Progress(snapshot, n + 1));
    }

    /** Gives the bytes of a snapshot back once its end was taken. */
    method Finish()
      requires Held() && Streamed()
      modifies this`applying, this`used
      ensures Accounted() && Streamed() && used <= old(used)
    {
      hide Waiting, Bytes;
      if applying.Some? && applying.value.handed == |applying.value.snapshot.records| + 2 {
        ReservedBytes(applying.value.snapshot);
        DoneWaits(applying.value.snapshot, queue, staged);
        used := used - applying.value.snapshot.reserved;
        applying := None;
      }
    }

    /**
     One step of the worker: it takes up the next request, or hands the link end the next
     event of the one it has. The budget of a snapshot is kept until it was taken whole.
     */
    method Work(link: LinkObject.NotificationLink, durability: Durability) returns (event: Option<Event>)
      requires Accounted() && Streamed() && link.Valid()
      modifies this, link, link.hub
      ensures Accounted() && Streamed() && link.Valid() && (old(Shaped()) ==> Shaped())
      ensures received == old(received) && staged == old(staged)
      ensures handed == old(handed) + if event.Some? then [event.value] else []
      ensures event.None? <==> old(stopped) || (old(queue) == [] && old(applying).None?)
      ensures event.Some? ==> |old(handed)| < |received| && event.value == received[|old(handed)|]
      ensures event.Some? ==>
                var taken := LinkSpec.Receive(old(link.hub.Value()), old(link.Value()), event.value, durability);
                && link.hub.Value() == taken.hub && link.Value() == taken.link
                && stopped == taken.error.Some?
      ensures event.None? ==> link.hub.Value() == old(link.hub.Value()) && link.Value() == old(link.Value())
      ensures used <= old(used)
      ensures staged.None? && queue == [] && applying.None? ==> used == 0
      ensures staged.None? && queue == [] && applying.None? && !stopped ==> handed == received
    {
      hide LinkSpec.Receive, LinkSpec.NewLink, Bytes, Reserved, AllReserved, AllEvents, Opened;
      event := TakeNext();
      if event.Some? {
        var error := link.Receive(event.value, durability);
        if error.Some? {
          StopWorker();
        } else {
          Finish();
        }
      }
    }
  }
}
