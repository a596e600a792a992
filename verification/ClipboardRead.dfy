/**
 Reading the local clipboard beside the session loop: reads are merged, and a result that a
 remote write overtook is read again instead of being offered.
 */
module ClipboardRead {
  import opened Types

  /** One spawned read; `started` is when, and tells reads apart. */
  datatype Read = Read(generation: nat, started: nat)

  datatype Reader = Reader(task: Option<Read>, rerun: bool)

  /** A request starts a read, or asks the running one to be followed by another. */
  function Requested(r: Reader, generation: nat, now: nat): Reader {
    if r.task.Some? then r.(rerun := true) else r.(task := Some(Read(generation, now)))
  }

  /** The reader once the finished read is taken up, and whether its result is still current. */
  function Taken(r: Reader, current: nat, now: nat): (Reader, bool)
    requires r.task.Some?
  {
    var stale := r.task.value.generation != current;
    var idle := Reader(None, false);
    (if r.rerun || stale then Requested(idle, current, now) else idle, !stale)
  }

  // ------------------------------------------------------------- every interleaving

  datatype Session = Session(
    reader: Reader,
    generation: nat,
    now: nat,
    lastWrite: nat,         // when a remote item was last written
    running: set<nat>,      // the reads the runtime is executing
    requests: set<nat>,     // when local changes asked for a read
    delivered: set<nat>)    // the starts of the reads whose result was passed on

  datatype Event = Change | RemoteWrite | Completion

  function Spawned(before: Reader, after: Reader): set<nat> {
    if after.task.Some? && after.task != before.task then {after.task.value.started} else {}
  }

  function Next(s: Session, e: Event): Session {
    match e
    case Change =>
      var reader := Requested(s.reader, s.generation, s.now);
      s.(reader := reader, now := s.now + 1,
         running := s.running + Spawned(s.reader, reader), requests := s.requests + {s.now})
    case RemoteWrite => s.(generation := s.generation + 1, lastWrite := s.now, now := s.now + 1)
    case Completion =>
      if s.reader.task.None? then s
      else
        var (reader, current) := Taken(s.reader, s.generation, s.now);
        var read := s.reader.task.value.started;
        s.(reader := reader, now := s.now + 1,
           running := s.running - {read} + Spawned(s.reader, reader),
           delivered := if current then s.delivered + {read} else s.delivered)
  }

  function Run(s: Session, events: seq<Event>): Session {
    if |events| == 0 then s else Next(Run(s, events[..|events| - 1]), events[|events| - 1])
  }

  predicate Init(s: Session) {
    && s.reader == Reader(None, false) && s.lastWrite < s.now
    && s.running == {} && s.requests == {} && s.delivered == {}
  }

  ghost predicate Covered(s: Session, request: nat) {
    || (exists read :: read in s.delivered && read >= request)
    || (s.reader.task.Some? && (s.reader.task.value.started >= request || s.reader.rerun))
  }

  ghost predicate Inv(s: Session) {
    && s.lastWrite < s.now
    && s.running == (if s.reader.task.Some? then {s.reader.task.value.started} else {})
    && (s.reader.task.None? ==> !s.reader.rerun)
    && (s.reader.task.Some? ==>
          && s.reader.task.value.started < s.now
          && s.reader.task.value.generation <= s.generation
          && (s.reader.task.value.generation == s.generation <==> s.reader.task.value.started > s.lastWrite))
    && (forall request :: request in s.requests ==> request < s.now && Covered(s, request))
  }

  lemma NextKeeps(s: Session, e: Event)
    requires Inv(s)
    ensures Inv(Next(s, e))
  {
  }

  /**
   In every run: at most one read is executing, and every request is covered by a passed-on
   read started no earlier, by such a read still running, or by a running read that will be
   followed by another.
   */
  lemma {:induction false} AlwaysCovered(s: Session, events: seq<Event>)
    requires Init(s)
    ensures var t := Run(s, events);
            Inv(t) && |t.running| <= 1 && forall request :: request in t.requests ==> Covered(t, request)
  {
    hide Next, Covered;
    if |events| > 0 {
      AlwaysCovered(s, events[..|events| - 1]);
      NextKeeps(Run(s, events[..|events| - 1]), events[|events| - 1]);
    }
  }

  /** Once idle, every local change has been followed by a read that was passed on. */
  lemma IdleMeansRead(s: Session, events: seq<Event>, request: nat)
    requires Init(s) && request in Run(s, events).requests && Run(s, events).reader.task.None?
    ensures exists read :: read in Run(s, events).delivered && read >= request
  {
    AlwaysCovered(s, events);
    assert Covered(Run(s, events), request);
  }

  lemma NextRecords(s: Session, e: Event)
    ensures s.requests <= Next(s, e).requests && s.now <= Next(s, e).now
    ensures e == Change ==> s.now in Next(s, e).requests && s.now < Next(s, e).now
  {
  }

  lemma {:induction false} ChangeIsRecorded(s: Session, events: seq<Event>, i: nat)
    requires i < |events| && events[i] == Change
    ensures Run(s, events[..i]).now in Run(s, events).requests
    ensures Run(s, events[..i]).now < Run(s, events).now
  {
    hide Next;
    var last := |events| - 1;
    NextRecords(Run(s, events[..last]), events[last]);
    if i < last {
      ChangeIsRecorded(s, events[..last], i);
      assert events[..last][..i] == events[..i];
    }
  }

  /** However it got there: a session at rest has passed on a read begun after every local change. */
  lemma EveryChangeIsRead(s: Session, events: seq<Event>, i: nat)
    requires Init(s) && i < |events| && events[i] == Change && Run(s, events).reader == Reader(None, false)
    ensures exists read :: read in Run(s, events).delivered && read >= Run(s, events[..i]).now
  {
    ChangeIsRecorded(s, events, i);
    IdleMeansRead(s, events, Run(s, events[..i]).now);
  }

  /**
   In every run: a completed read is passed on exactly when it started after the last remote
   write; otherwise a new read starts at once, under the current generation.
   */
  lemma PassedOnExactlyWhenCurrent(s: Session, events: seq<Event>)
    requires Init(s) && Run(s, events).reader.task.Some?
    ensures var t := Run(s, events);
            var u := Next(t, Completion);
            var read := t.reader.task.value.started;
            && (Taken(t.reader, t.generation, t.now).1 <==> read > t.lastWrite)
            && (read <= t.lastWrite ==>
                  && u.delivered == t.delivered
                  && u.reader == Reader(Some(Read(t.generation, t.now)), false))
            && (read > t.lastWrite ==> u.delivered == t.delivered + {read})
  {
    AlwaysCovered(s, events);
  }

  /** Without further events two completions are enough to become idle. */
  lemma TwoCompletionsSettle(s: Session)
    ensures Next(Next(s, Completion), Completion).reader.task.None?
  {
  }

  // ------------------------------------------------------------------ the code

  class BackgroundClipboardRead {
    var task: Option<Read>
    var rerun: bool

    ghost function Value(): Reader
      reads this
    {
      Reader(task, rerun)
    }

    constructor ()
      ensures Value() == Reader(None, false)
    {
      task, rerun := None, false;
    }

    method Request(generation: nat, now: nat)
      modifies this
      ensures Value() == Requested(old(Value()), generation, now)
    {
      if task.Some? {
        rerun := true;
        return;
      }
      task := Some(Read(generation, now));
    }

    /** The read that completed; a reader with nothing in flight never completes. */
    method Finished() returns (read: Read)
      requires task.Some?
      modifies this`task
      ensures task == None && Some(read) == old(task)
    {
      read := task.value;
      task := None;
    }

    method TakeRerun() returns (was: bool)
      modifies this`rerun
      ensures was == old(rerun) && !rerun
    {
      was := rerun;
      rerun := false;
    }
  }

  method Accept<T>(reader: BackgroundClipboardRead, current: nat, readGeneration: nat, result: T, now: nat)
    returns (accepted: Option<T>)
    requires reader.task.None?
    modifies reader
    ensures var (after, passed) :=
              Taken(Reader(Some(Read(readGeneration, 0)), old(reader.rerun)), current, now);
            reader.Value() == after && accepted == (if passed then Some(result) else None)
  {
    var stale := readGeneration != current;
    var again := reader.TakeRerun();
    if again || stale {
      reader.Request(current, now);
    }
    accepted := if stale then None else Some(result);
  }
}
