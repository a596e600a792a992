/**
 The paste barrier of a Windows session: a paste that needs clipboard data the peer does not
 have yet is held, with everything typed after it, until the data is across.
 */
module PasteBarrier {
  import opened Types

  /** A clipboard item, which is also its content id. */
  datatype Item = Text(text: string) | Image(sha: nat)

  datatype Reason = Replaced | TimedOut

  datatype ClipboardEvent =
    | TextOffer(sequence: nat, text: string)
    | Part(transfer: nat)
    | End(transfer: nat)
    | Cancel(transfer: nat, reason: Reason)

  datatype Frame =
    | Motion(dx: int, dy: int)
    | KeyPress(code: nat, down: bool)
    | AllKeysUp
    | Button(code: nat, down: bool)
    | Clipboard(event: ClipboardEvent)

  /** A transfer in progress: how many frames are left before its end. */
  datatype Transfer = Transfer(id: nat, item: Item, parts: nat)

  datatype Config = Config(enabled: bool, images: bool, textChunks: bool, frameLimit: nat)

  datatype State = State(
    ctrlDown: bool,
    outgoing: Option<Transfer>,
    outgoingId: Option<Item>,
    lastSent: Option<Item>,
    held: seq<Frame>,
    deadline: Option<nat>,
    nextTransfer: nat)

  const TIMEOUT: nat := 5_000_000_000
  const KEY_V: nat := 47

  /** What the clipboard, the change tracker and the chunking make of an offer. */
  datatype Offer = Offer(current: Option<Item>, sequence: Option<nat>, parts: nat)

  datatype Out = Out(state: State, frames: seq<Frame>)

  // -------------------------------------------------------------- operations

  function Replacing(s: State): seq<Frame> {
    if s.outgoing.Some? then [Clipboard(Cancel(s.outgoing.value.id, Replaced))] else []
  }

  function NextId(id: nat): nat {
    if id >= MAX_U64 then 1 else id + 1
  }

  /** Starts a transfer in place of whatever was running. */
  function Start(s: State, item: Item, parts: nat): State {
    var id := NextId(s.nextTransfer);
    s.(outgoing := Some(Transfer(id, item, parts)), outgoingId := Some(item), nextTransfer := id)
  }

  function OfferText(s: State, c: Config, sequence: nat, text: string, parts: nat): Out {
    var cleared := s.(outgoing := None, outgoingId := None);
    if |text| <= c.frameLimit then Out(cleared, Replacing(s) + [Clipboard(TextOffer(sequence, text))])
    else if !c.textChunks then Out(cleared, Replacing(s))
    else Out(Start(cleared, Text(text), parts), Replacing(s))
  }

  function OfferItem(s: State, c: Config, o: Offer): Out {
    if o.sequence.None? || o.current.None? then Out(s, [])
    else if o.current.value.Text? then OfferText(s, c, o.sequence.value, o.current.value.text, o.parts)
    else if c.images then Out(Start(s, o.current.value, o.parts), Replacing(s))
    else Out(s, [])
  }

  function Hold(s: State, frame: Frame, now: nat): State {
    s.(held := s.held + [frame], deadline := Some(now + TIMEOUT))
  }

  predicate IsPaste(s: State, frame: Frame) {
    frame == KeyPress(KEY_V, true) && s.ctrlDown
  }

  /** What to write for an input frame now; `read` fails when the clipboard cannot be read. */
  function Prepare(s: State, c: Config, frame: Frame, read: Option<Offer>, now: nat): Out {
    if s.deadline.Some? then
      if frame.Motion? then Out(s, [frame]) else Out(s.(held := s.held + [frame]), [])
    else if !c.enabled || !IsPaste(s, frame) || read.None? then Out(s, [frame])
    else
      var current := read.value.current;
      if current.Some? && current.value.Image? && c.images then
        if s.lastSent == current then Out(s, [frame])
        else
          var offered := if s.outgoingId == current then Out(s, []) else OfferItem(s, c, read.value);
          Out(Hold(offered.state, frame, now), offered.frames)
      else
        var offered := OfferItem(s, c, read.value);
        if offered.state.outgoing.Some? && offered.state.outgoing.value.item.Text? then
          Out(Hold(offered.state, frame, now), offered.frames)
        else Out(offered.state, offered.frames + [frame])
  }

  /** The next frame of the transfer; its end also names what the peer now has. */
  function NextFrame(s: State): Out {
    if s.outgoing.None? then Out(s, [])
    else
      var t := s.outgoing.value;
      if t.parts > 0 then
        Out(s.(outgoing := Some(t.(parts := t.parts - 1))), [Clipboard(Part(t.id))])
      else
        Out(s.(outgoing := None, lastSent := s.outgoingId, outgoingId := None), [Clipboard(End(t.id))])
  }

  predicate Completes(s: State) {
    s.outgoing.Some? && s.outgoing.value.parts == 0
  }

  function Release(s: State): Out {
    Out(s.(held := [], deadline := None), s.held)
  }

  /** Gives up the barrier and the transfer it waited for. */
  function Expire(s: State): Out {
    Out(s.(deadline := None, outgoingId := None, outgoing := None),
        if s.outgoing.Some? then [Clipboard(Cancel(s.outgoing.value.id, TimedOut))] else [])
  }

  function CtrlAfter(down: bool, frame: Frame): bool {
    if frame.KeyPress? && (frame.code == 29 || frame.code == 97) then frame.down
    else if frame.AllKeysUp? then false
    else down
  }

  function CtrlAfterAll(down: bool, frames: seq<Frame>): bool {
    if |frames| == 0 then down
    else CtrlAfter(CtrlAfterAll(down, frames[..|frames| - 1]), frames[|frames| - 1])
  }

  // ---------------------------------------------------------------- sessions

  datatype Session = Session(
    state: State,
    written: seq<Frame>,
    received: seq<Frame>,         // the input frames handed to the barrier
    peerItem: Option<Item>,       // the last item the peer was given completely
    cancelled: Option<Item>)      // what the peer last cancelled, until something else is offered

  datatype Step =
    | Input(c: Config, frame: Frame, read: Option<Offer>, now: nat)
    | Offered(c: Config, offer: Offer)  // a request, a background read or a newer local item
    | Bulk
    | Tick(now: nat)
    | PeerCancel(c: Config, transfer: nat)

  predicate Expired(s: State, now: nat) {
    s.deadline.Some? && now >= s.deadline.value
  }

  predicate CancelsActive(s: State, c: Config, transfer: nat) {
    c.enabled && s.outgoing.Some? && s.outgoing.value.id == transfer
  }

  /** What the peer holds after some frames, if that came from here. */
  function PeerAfterAll(item: Option<Item>, frames: seq<Frame>): Option<Item> {
    if |frames| == 0 then item
    else
      var last := frames[|frames| - 1];
      if last.Clipboard? && last.event.TextOffer? then Some(Text(last.event.text))
      else PeerAfterAll(item, frames[..|frames| - 1])
  }

  /** Writes frames; what was typed decides whether control is down. */
  function Write(s: Session, out: Out): Session {
    s.(state := out.state.(ctrlDown := CtrlAfterAll(out.state.ctrlDown, out.frames)),
       written := s.written + out.frames,
       peerItem := PeerAfterAll(s.peerItem, out.frames))
  }

  /** Sends the next frame of the transfer and, at its end, everything held. */
  function Advance(s: Session): Session {
    var sent := Write(s, NextFrame(s.state));
    if Completes(s.state) then
      Write(sent.(peerItem := sent.state.lastSent), Release(sent.state))
    else sent
  }

  function Next(s: Session, step: Step): Session {
    match step
    case Input(c, frame, read, now) =>
      Write(s, Prepare(s.state, c, frame, read, now)).(received := s.received + [frame])
    case Offered(c, offer) =>
      Write(s, OfferItem(s.state, c, offer))
    case Bulk => Advance(s)
    case Tick(now) =>
      if Expired(s.state, now) then
        var gone := Write(s, Expire(s.state));
        Write(gone, Release(gone.state))
      else Advance(s)
    case PeerCancel(c, transfer) =>
      if CancelsActive(s.state, c, transfer) then
        var stopped := s.state.(outgoing := None);
        Write(s.(cancelled := s.state.outgoingId), Release(stopped))
      else s
  }

  function Run(s: Session, steps: seq<Step>): Session {
    if |steps| == 0 then s else Next(Run(s, steps[..|steps| - 1]), steps[|steps| - 1])
  }

  function Begin(nextTransfer: nat): Session {
    Session(State(false, None, None, None, [], None, nextTransfer), [], [], None, None)
  }

  predicate InputsOnly(steps: seq<Step>) {
    forall i :: 0 <= i < |steps| && steps[i].Input? ==> !steps[i].frame.Clipboard?
  }

  // -------------------------------------------------------------- invariants

  predicate Ordered(frame: Frame) {
    !frame.Motion? && !frame.Clipboard?
  }

  /** The keys, buttons and releases among some frames, in order. */
  function Keys(frames: seq<Frame>): seq<Frame> {
    if |frames| == 0 then []
    else
      Keys(frames[..|frames| - 1])
        + if Ordered(frames[|frames| - 1]) then [frames[|frames| - 1]] else []
  }

  function Motions(frames: seq<Frame>): seq<Frame> {
    if |frames| == 0 then []
    else
      Motions(frames[..|frames| - 1])
        + if frames[|frames| - 1].Motion? then [frames[|frames| - 1]] else []
  }

  /** Keys, buttons and releases: written, then held, is what came in. Motion is never held. */
  predicate InOrder(received: seq<Frame>, written: seq<Frame>, held: seq<Frame>) {
    && Keys(received) == Keys(written) + held
    && Motions(received) == Motions(written)
  }

  ghost predicate BarrierOk(s: State) {
    && (forall i :: 0 <= i < |s.held| ==> Ordered(s.held[i]))
    && (s.held != [] <==> s.deadline.Some?)
  }

  /** The running transfer is the newest, under a number the frames can carry. */
  predicate Newest(s: State) {
    s.outgoing.Some? ==>
      && s.outgoingId == Some(s.outgoing.value.item)
      && s.outgoing.value.id == s.nextTransfer && 1 <= s.nextTransfer <= MAX_U64
  }

  /** The id noted is that of the running transfer, or what the peer cancelled. */
  predicate TransferOk(s: State, cancelled: Option<Item>) {
    && Newest(s)
    && (s.outgoing.None? && s.outgoingId.Some? ==> cancelled == s.outgoingId)
  }

  predicate Gives(frame: Frame) {
    frame.Clipboard? && (frame.event.TextOffer? || frame.event.End?)
  }

  /** The last frame that gave the peer an item: a short text, or the end of a transfer. */
  function LastGiven(frames: seq<Frame>): Option<Frame> {
    if |frames| == 0 then None
    else
      var last := frames[|frames| - 1];
      if Gives(last) then Some(last) else LastGiven(frames[..|frames| - 1])
  }

  predicate EndedLast(written: seq<Frame>) {
    var given := LastGiven(written);
    given.Some? && given.value.Clipboard? && given.value.event.End?
  }

  /** What the peer holds follows from what was written: its own item at an end, else the text. */
  predicate Given(written: seq<Frame>, peerItem: Option<Item>, lastSent: Option<Item>) {
    var given := LastGiven(written);
    if given.None? then peerItem.None? && lastSent.None?
    else if EndedLast(written) then lastSent.Some? && peerItem == lastSent
    else
      && given.value.Clipboard? && given.value.event.TextOffer?
      && peerItem == Some(Text(given.value.event.text))
  }

  predicate PeerOk(s: Session) {
    Given(s.written, s.peerItem, s.state.lastSent)
  }

  ghost predicate NoEnd(frames: seq<Frame>) {
    forall i :: 0 <= i < |frames| ==> !(frames[i].Clipboard? && frames[i].event.End?)
  }

  ghost predicate Inv(s: Session) {
    && InOrder(s.received, s.written, s.state.held)
    && BarrierOk(s.state) && TransferOk(s.state, s.cancelled) && PeerOk(s)
  }

  lemma {:induction false} KeysAppend(a: seq<Frame>, b: seq<Frame>)
    ensures Keys(a + b) == Keys(a) + Keys(b)
  {
    hide Ordered;
    if |b| == 0 {
      assert a + b == a;
    } else {
      KeysAppend(a, b[..|b| - 1]);
      assert (a + b)[..|a + b| - 1] == a + b[..|b| - 1];
    }
  }

  lemma {:induction false} MotionsAppend(a: seq<Frame>, b: seq<Frame>)
    ensures Motions(a + b) == Motions(a) + Motions(b)
  {
    if |b| == 0 {
      assert a + b == a;
    } else {
      MotionsAppend(a, b[..|b| - 1]);
      assert (a + b)[..|a + b| - 1] == a + b[..|b| - 1];
    }
  }

  lemma {:induction false} OnlyKeys(held: seq<Frame>)
    requires forall i :: 0 <= i < |held| ==> Ordered(held[i])
    ensures Keys(held) == held && Motions(held) == []
  {
    if |held| > 0 {
      OnlyKeys(held[..|held| - 1]);
      assert held == held[..|held| - 1] + [held[|held| - 1]];
    }
  }

  lemma {:induction false} NoInput(frames: seq<Frame>)
    requires forall i :: 0 <= i < |frames| ==> frames[i].Clipboard?
    ensures Keys(frames) == [] && Motions(frames) == []
  {
    if |frames| > 0 {
      NoInput(frames[..|frames| - 1]);
    }
  }

  lemma OneFrame(frame: Frame)
    ensures Keys([frame]) == (if Ordered(frame) then [frame] else [])
    ensures Motions([frame]) == (if frame.Motion? then [frame] else [])
  {
  }

  /** An offer only writes clipboard frames and leaves the barrier alone. */
  lemma OfferFrames(s: State, c: Config, o: Offer)
    ensures var out := OfferItem(s, c, o);
            && out.state.held == s.held && out.state.deadline == s.deadline
            && out.state.lastSent == s.lastSent && out.state.ctrlDown == s.ctrlDown
            && NoEnd(out.frames)
            && forall i :: 0 <= i < |out.frames| ==> out.frames[i].Clipboard?
  {
  }

  lemma OfferTransfer(s: State, c: Config, o: Offer)
    requires Newest(s)
    ensures var t := OfferItem(s, c, o).state;
            && Newest(t)
            && (t.outgoing.None? && t.outgoingId.Some? ==> s.outgoing.None? && t.outgoingId == s.outgoingId)
  {
  }

  lemma WriteInOrder(received: seq<Frame>, written: seq<Frame>, held: seq<Frame>,
                     got: seq<Frame>, frames: seq<Frame>, later: seq<Frame>)
    requires InOrder(received, written, held)
    requires Keys(frames) + later == held + Keys(got) && Motions(frames) == Motions(got)
    ensures InOrder(received + got, written + frames, later)
  {
    hide Keys, Motions;
    KeysAppend(received, got);
    KeysAppend(written, frames);
    MotionsAppend(received, got);
    MotionsAppend(written, frames);
    assert (Keys(written) + held) + Keys(got) == Keys(written) + (held + Keys(got));
    assert (Keys(written) + Keys(frames)) + later == Keys(written) + (Keys(frames) + later);
  }

  /** An input frame is written behind clipboard frames or held; motion is never held. */
  lemma PrepareForm(s: State, c: Config, frame: Frame, read: Option<Offer>, now: nat)
    returns (offered: seq<Frame>, kept: bool)
    requires !frame.Clipboard?
    ensures forall i :: 0 <= i < |offered| ==> offered[i].Clipboard?
    ensures var out := Prepare(s, c, frame, read, now);
            if kept then
              && out.frames == offered && out.state.held == s.held + [frame]
              && out.state.deadline.Some? && Ordered(frame)
            else
              && out.frames == offered + [frame] && out.state.held == s.held
              && out.state.deadline == s.deadline && (s.deadline.Some? ==> frame.Motion?)
  {
    hide OfferItem;
    var out := Prepare(s, c, frame, read, now);
    kept := |out.state.held| > |s.held|;
    if read.Some? {
      OfferFrames(s, c, read.value);
    }
    if kept {
      offered := out.frames;
    } else {
      offered := out.frames[..|out.frames| - 1];
      assert out.frames == offered + [frame];
    }
  }

  lemma PrepareInOrder(s: State, c: Config, frame: Frame, read: Option<Offer>, now: nat)
    requires BarrierOk(s) && !frame.Clipboard?
    ensures var out := Prepare(s, c, frame, read, now);
            && Keys(out.frames) + out.state.held == s.held + Keys([frame])
            && Motions(out.frames) == Motions([frame])
            && BarrierOk(out.state)
  {
    hide Prepare, Keys, Motions;
    var offered, kept := PrepareForm(s, c, frame, read, now);
    OneFrame(frame);
    NoInput(offered);
    KeysAppend(offered, [frame]);
    MotionsAppend(offered, [frame]);
  }

  lemma PrepareTransfer(s: State, c: Config, frame: Frame, read: Option<Offer>, now: nat, cancelled: Option<Item>)
    requires TransferOk(s, cancelled)
    ensures TransferOk(Prepare(s, c, frame, read, now).state, cancelled)
  {
    hide OfferItem;
    if read.Some? {
      OfferTransfer(s, c, read.value);
    }
  }

  lemma InputKeeps(s: Session, c: Config, frame: Frame, read: Option<Offer>, now: nat)
    requires Inv(s) && !frame.Clipboard?
    ensures Inv(Next(s, Input(c, frame, read, now)))
  {
    hide Prepare, InOrder, BarrierOk, Keys, Motions;
    var out := Prepare(s.state, c, frame, read, now);
    PrepareInOrder(s.state, c, frame, read, now);
    PrepareTransfer(s.state, c, frame, read, now, s.cancelled);
    WriteInOrder(s.received, s.written, s.state.held, [frame], out.frames, out.state.held);
    PreparePeer(s, c, frame, read, now);
    BarrierFrame(out.state, CtrlAfterAll(out.state.ctrlDown, out.frames));
  }

  lemma BarrierFrame(s: State, down: bool)
    ensures BarrierOk(s) <==> BarrierOk(s.(ctrlDown := down))
  {
  }

  lemma {:induction false} GivenAppend(
    written: seq<Frame>, peerItem: Option<Item>, lastSent: Option<Item>, frames: seq<Frame>)
    requires Given(written, peerItem, lastSent) && NoEnd(frames)
    ensures Given(written + frames, PeerAfterAll(peerItem, frames), lastSent)
  {
    if |frames| == 0 {
      assert written + frames == written;
    } else {
      var last := |frames| - 1;
      GivenAppend(written, peerItem, lastSent, frames[..last]);
      assert (written + frames)[..|written| + last] == written + frames[..last];
    }
  }

  lemma PreparePeer(s: Session, c: Config, frame: Frame, read: Option<Offer>, now: nat)
    requires PeerOk(s) && !frame.Clipboard?
    ensures PeerOk(Write(s, Prepare(s.state, c, frame, read, now)))
  {
    hide OfferItem, Given, PeerAfterAll, CtrlAfterAll;
    if read.Some? {
      OfferFrames(s.state, c, read.value);
    }
    GivenAppend(s.written, s.peerItem, s.state.lastSent, Prepare(s.state, c, frame, read, now).frames);
  }

  /** Writing clipboard frames or what is held keeps the order. */
  lemma SentInOrder(s: Session, frames: seq<Frame>)
    requires InOrder(s.received, s.written, s.state.held)
    requires forall i :: 0 <= i < |frames| ==> frames[i].Clipboard?
    ensures InOrder(s.received, s.written + frames, s.state.held)
  {
    hide InOrder, Keys, Motions;
    NoInput(frames);
    NoInput([]);
    WriteInOrder(s.received, s.written, s.state.held, [], frames, s.state.held);
    assert s.received + [] == s.received;
  }

  lemma ReleasedInOrder(s: Session)
    requires InOrder(s.received, s.written, s.state.held) && BarrierOk(s.state)
    ensures InOrder(s.received, s.written + s.state.held, [])
    ensures PeerOk(s) ==> Given(s.written + s.state.held, PeerAfterAll(s.peerItem, s.state.held), s.state.lastSent)
  {
    hide InOrder, Keys, Motions, Given;
    OnlyKeys(s.state.held);
    NoInput([]);
    WriteInOrder(s.received, s.written, s.state.held, [], s.state.held, []);
    assert s.received + [] == s.received;
    if PeerOk(s) {
      GivenAppend(s.written, s.peerItem, s.state.lastSent, s.state.held);
    }
  }

  lemma OfferedKeeps(s: Session, c: Config, offer: Offer)
    requires Inv(s)
    ensures Inv(Next(s, Offered(c, offer)))
  {
    hide OfferItem, InOrder, Given, PeerAfterAll, CtrlAfterAll;
    var out := OfferItem(s.state, c, offer);
    OfferFrames(s.state, c, offer);
    OfferTransfer(s.state, c, offer);
    SentInOrder(s, out.frames);
    GivenAppend(s.written, s.peerItem, s.state.lastSent, out.frames);
  }

  lemma AdvanceKeeps(s: Session)
    requires Inv(s)
    ensures Inv(Advance(s))
  {
    hide InOrder, CtrlAfterAll, Given, PeerAfterAll, LastGiven;
    var out := NextFrame(s.state);
    SentInOrder(s, out.frames);
    if Completes(s.state) {
      var sent := Write(s, out);
      EndGives(s.written, s.state.outgoing.value.id, s.state.outgoingId);
      ReleasedInOrder(sent.(peerItem := sent.state.lastSent));
    } else {
      GivenAppend(s.written, s.peerItem, s.state.lastSent, out.frames);
    }
  }

  /** An end gives the peer the item that was under way. */
  lemma EndGives(written: seq<Frame>, transfer: nat, item: Option<Item>)
    requires item.Some?
    ensures Given(written + [Clipboard(End(transfer))], item, item)
  {
  }

  lemma TickKeeps(s: Session, now: nat)
    requires Inv(s)
    ensures Inv(Next(s, Tick(now)))
  {
    hide InOrder, CtrlAfterAll, Advance, Given, PeerAfterAll;
    if Expired(s.state, now) {
      var out := Expire(s.state);
      SentInOrder(s, out.frames);
      GivenAppend(s.written, s.peerItem, s.state.lastSent, out.frames);
      var gone := Write(s, out);
      ExpiredRelease(s, gone);
    } else {
      AdvanceKeeps(s);
    }
  }

  lemma ExpiredRelease(s: Session, gone: Session)
    requires BarrierOk(s.state) && gone.state.held == s.state.held && gone.state.lastSent == s.state.lastSent
    requires InOrder(gone.received, gone.written, gone.state.held)
    ensures InOrder(gone.received, gone.written + gone.state.held, [])
    ensures PeerOk(gone) ==>
              Given(gone.written + gone.state.held, PeerAfterAll(gone.peerItem, gone.state.held), gone.state.lastSent)
  {
    hide InOrder, Given;
    ReleasedInOrder(gone.(state := s.state));
  }

  lemma CancelKeeps(s: Session, c: Config, transfer: nat)
    requires Inv(s)
    ensures Inv(Next(s, PeerCancel(c, transfer)))
  {
    hide InOrder, CtrlAfterAll, Given, PeerAfterAll;
    ReleasedInOrder(s);
  }

  lemma NextKeeps(s: Session, step: Step)
    requires Inv(s) && (step.Input? ==> !step.frame.Clipboard?)
    ensures Inv(Next(s, step))
  {
    hide Inv, Next, Advance;
    match step
    case Input(c, frame, read, now) => InputKeeps(s, c, frame, read, now);
    case Offered(c, offer) => OfferedKeeps(s, c, offer);
    case Bulk => AdvanceKeeps(s); BulkIsAdvance(s);
    case Tick(now) => TickKeeps(s, now);
    case PeerCancel(c, transfer) => CancelKeeps(s, c, transfer);
  }

  lemma BulkIsAdvance(s: Session)
    ensures Next(s, Bulk) == Advance(s)
  {
  }

  // ---------------------------------------------------------------- theorems

  lemma {:induction false} RunKeeps(begun: nat, steps: seq<Step>)
    requires InputsOnly(steps)
    ensures Inv(Run(Begin(begun), steps))
  {
    hide Inv, Next;
    if |steps| > 0 {
      RunKeeps(begun, steps[..|steps| - 1]);
      NextKeeps(Run(Begin(begun), steps[..|steps| - 1]), steps[|steps| - 1]);
    } else {
      BeginHolds(begun);
    }
  }

  lemma BeginHolds(begun: nat)
    ensures Inv(Begin(begun))
  {
  }

  /**
   At every loop head: the keys, buttons and releases written, followed by those held, are
   those received, in order, none lost or doubled; motion is all written; and something is
   held exactly while a deadline is set.
   */
  lemma NothingLostOrReordered(begun: nat, steps: seq<Step>)
    requires InputsOnly(steps)
    ensures var s := Run(Begin(begun), steps);
            && Keys(s.received) == Keys(s.written) + s.state.held
            && Motions(s.received) == Motions(s.written)
            && (s.state.held != [] <==> s.state.deadline.Some?)
  {
    hide Next, Keys, Motions;
    RunKeeps(begun, steps);
  }

  predicate Releases(s: State, step: Step) {
    match step
    case Input(_, _, _, _) => false
    case Offered(_, _) => false
    case Bulk => s.outgoing.Some? && s.outgoing.value.parts == 0
    case Tick(now) =>
      (s.deadline.Some? && s.deadline.value <= now) || (s.outgoing.Some? && s.outgoing.value.parts == 0)
    case PeerCancel(c, transfer) => c.enabled && s.outgoing.Some? && s.outgoing.value.id == transfer
  }

  predicate EndsWith(frames: seq<Frame>, tail: seq<Frame>) {
    |tail| <= |frames| && frames[|frames| - |tail|..] == tail
  }

  /**
   A held paste is written by the end of a transfer, the peer's cancel of the running one
   or the deadline, all of it and in order, and by nothing else.
   */
  lemma HeldUntilReleased(s: Session, step: Step)
    ensures var t := Next(s, step);
            if Releases(s.state, step) then t.state.held == [] && EndsWith(t.written, s.state.held)
            else s.state.held <= t.state.held
  {
    hide OfferItem, CtrlAfterAll, PeerAfterAll;
    if step.Input? && step.read.Some? {
      OfferFrames(s.state, step.c, step.read.value);
    }
    if step.Offered? {
      OfferFrames(s.state, step.c, step.offer);
    }
  }

  /** Whether a paste may go out at once: there is nothing to wait for, or it is across already. */
  predicate MayPass(s: State, c: Config, item: Item) {
    if item.Text? then |item.text| <= c.frameLimit || !c.textChunks
    else if c.images then s.lastSent == Some(item)
    else s.outgoing.None? || !s.outgoing.value.item.Text?
  }

  /**
   When the tracker has the clipboard's item to offer, a paste goes out at once exactly when
   it need not wait: short text is written just before it, text or images the peer cannot
   take are not waited for, an image sent last is there. Otherwise it is held, and unless
   the noted id is the image's already, a transfer of that very item is under way.
   */
  lemma PasteFollowsItsItem(s: State, c: Config, offer: Offer, now: nat)
    requires BarrierOk(s) && s.deadline.None? && s.ctrlDown && c.enabled
    requires offer.sequence.Some? && offer.current.Some?
    ensures var paste, item := KeyPress(KEY_V, true), offer.current.value;
            var out := Prepare(s, c, paste, Some(offer), now);
            && (paste in out.frames <==> MayPass(s, c, item))
            && (paste in out.frames ==> out.frames[|out.frames| - 1] == paste && out.state.held == [])
            && (paste !in out.frames ==> out.state.held == [paste] && out.state.deadline == Some(now + TIMEOUT))
            && (item.Text? && |item.text| <= c.frameLimit ==>
                  |out.frames| >= 2
                  && out.frames[|out.frames| - 2] == Clipboard(TextOffer(offer.sequence.value, item.text)))
            && (paste !in out.frames && (item.Text? || c.images) && s.outgoingId != Some(item) ==>
                  out.state.outgoing.Some? && out.state.outgoing.value.item == item)
  {
  }

  /** While nothing is held, only a paste can wait; every other frame goes out as it came. */
  lemma OnlyPastesWait(s: Session, c: Config, frame: Frame, read: Option<Offer>, now: nat)
    requires s.state.deadline.None?
    requires !c.enabled || frame != KeyPress(47, true) || !s.state.ctrlDown || read.None?
    ensures var t := Next(s, Input(c, frame, read, now));
            t.written == s.written + [frame] && t.state.held == s.state.held && t.state.deadline.None?
            && t.state.outgoing == s.state.outgoing
  {
    hide CtrlAfterAll, PeerAfterAll;
  }

  /** While something is held, motion goes out and everything else waits behind it. */
  lemma MotionGoesOn(s: Session, c: Config, frame: Frame, read: Option<Offer>, now: nat)
    requires s.state.deadline.Some?
    ensures var t := Next(s, Input(c, frame, read, now));
            && t.state.deadline == s.state.deadline
            && (if frame.Motion? then t.written == s.written + [frame] && t.state.held == s.state.held
                else t.written == s.written && t.state.held == s.state.held + [frame])
  {
    hide CtrlAfterAll, PeerAfterAll;
    assert s.written + [] == s.written;
  }

  // ------------------------------------------------------------------ control

  predicate ControlKey(frame: Frame, down: bool) {
    frame == KeyPress(29, down) || frame == KeyPress(97, down)
  }

  /** Control was pressed here and not let go since. */
  predicate PressedAt(frames: seq<Frame>, i: nat) {
    && i < |frames| && ControlKey(frames[i], true)
    && forall j :: i < j < |frames| ==> !ControlKey(frames[j], false) && !frames[j].AllKeysUp?
  }

  /** Control counts as down from its press until its release or the release of all keys. */
  lemma {:induction false} ControlDownExactlyWhen(frames: seq<Frame>)
    ensures CtrlAfterAll(false, frames) <==> exists i :: PressedAt(frames, i)
  {
    if |frames| > 0 {
      var last := |frames| - 1;
      var front := frames[..last];
      ControlDownExactlyWhen(front);
      if CtrlAfterAll(false, front) && CtrlAfter(true, frames[last]) {
        var i :| PressedAt(front, i);
        assert PressedAt(frames, i) || ControlKey(frames[last], true);
      }
      if ControlKey(frames[last], true) {
        assert PressedAt(frames, last);
      }
      if i: nat :| PressedAt(frames, i) {
        assert i == last || PressedAt(front, i);
      }
    }
  }

  lemma {:induction false} ControlAppend(down: bool, a: seq<Frame>, b: seq<Frame>)
    ensures CtrlAfterAll(down, a + b) == CtrlAfterAll(CtrlAfterAll(down, a), b)
  {
    hide CtrlAfter;
    if |b| == 0 {
      assert a + b == a;
    } else {
      ControlAppend(down, a, b[..|b| - 1]);
      assert (a + b)[..|a + b| - 1] == a + b[..|b| - 1];
    }
  }

  ghost predicate ControlOk(s: Session) {
    s.state.ctrlDown == CtrlAfterAll(false, s.written)
  }

  lemma WriteControl(s: Session, out: Out)
    requires ControlOk(s) && out.state.ctrlDown == s.state.ctrlDown
    ensures ControlOk(Write(s, out))
  {
    hide CtrlAfter, PeerAfterAll;
    ControlAppend(false, s.written, out.frames);
  }

  lemma AdvanceControl(s: Session)
    requires ControlOk(s)
    ensures ControlOk(Advance(s))
  {
    hide ControlOk;
    var sent := Write(s, NextFrame(s.state));
    WriteControl(s, NextFrame(s.state));
    SameControl(sent, sent.(peerItem := sent.state.lastSent));
    WriteControl(sent.(peerItem := sent.state.lastSent), Release(sent.state));
  }

  lemma SameControl(s: Session, t: Session)
    requires ControlOk(s) && t.written == s.written && t.state.ctrlDown == s.state.ctrlDown
    ensures ControlOk(t)
  {
  }

  lemma NextControl(s: Session, step: Step)
    requires ControlOk(s)
    ensures ControlOk(Next(s, step))
  {
    hide ControlOk, CtrlAfterAll, PeerAfterAll, OfferItem, Advance, Write;
    match step
    case Input(c, frame, read, now) =>
      if read.Some? { OfferFrames(s.state, c, read.value); }
      var out := Prepare(s.state, c, frame, read, now);
      WriteControl(s, out);
      SameControl(Write(s, out), Next(s, step));
    case Offered(c, offer) =>
      OfferFrames(s.state, c, offer);
      WriteControl(s, OfferItem(s.state, c, offer));
    case Bulk => AdvanceControl(s);
    case Tick(now) =>
      AdvanceControl(s);
      var gone := Write(s, Expire(s.state));
      WriteControl(s, Expire(s.state));
      WriteControl(gone, Release(gone.state));
    case PeerCancel(c, transfer) =>
      var noted := s.(cancelled := s.state.outgoingId);
      SameControl(s, noted);
      WriteControl(noted, Release(s.state.(outgoing := None)));
  }

  /** In every run the barrier's idea of control is what the peer was told last. */
  lemma {:induction false} ControlIsWhatWasWritten(begun: nat, steps: seq<Step>)
    ensures var s := Run(Begin(begun), steps); s.state.ctrlDown == CtrlAfterAll(false, s.written)
  {
    hide Next, CtrlAfterAll;
    if |steps| == 0 {
      NoControl();
    } else {
      ControlIsWhatWasWritten(begun, steps[..|steps| - 1]);
      NextControl(Run(Begin(begun), steps[..|steps| - 1]), steps[|steps| - 1]);
    }
  }

  lemma NoControl()
    ensures !CtrlAfterAll(false, [])
  {
  }

  // ------------------------------------------------------ transfers on the wire

  /** What was written since. */
  ghost predicate WrittenSince(s: Session, t: Session, frame: Frame) {
    s.written <= t.written && frame in t.written[|s.written|..]
  }

  /** A new offer in place of a running transfer writes its cancel first. */
  lemma OfferCancels(s: State, c: Config, o: Offer)
    requires s.outgoing.Some? && s.outgoing.value.id == s.nextTransfer
    ensures var out := OfferItem(s, c, o);
            || out == Out(s, [])
            || (|out.frames| > 0 && out.frames[0] == Clipboard(Cancel(s.outgoing.value.id, Replaced)))
  {
  }

  lemma AdvanceEnds(s: Session)
    requires s.state.outgoing.Some?
    ensures var t, id := Advance(s), s.state.outgoing.value.id;
            if s.state.outgoing.value.parts > 0 then
              && t.state.outgoing == Some(s.state.outgoing.value.(parts := s.state.outgoing.value.parts - 1))
              && t.written == s.written + [Clipboard(Part(id))]
            else
              && t.state.outgoing.None? && t.state.lastSent == s.state.outgoingId
              && t.written == s.written + [Clipboard(End(id))] + s.state.held
              && WrittenSince(s, t, Clipboard(End(id)))
  {
    hide CtrlAfterAll, PeerAfterAll;
    if s.state.outgoing.value.parts == 0 {
      assert Advance(s).written[|s.written|] == Clipboard(End(s.state.outgoing.value.id));
    }
  }

  /**
   At the deadline the session gives up what it waited for: the transfer is cancelled towards
   the peer, nothing of it is remembered, and only then all that was held goes out.
   */
  lemma ExpiryGivesUp(s: Session, now: nat)
    requires s.state.deadline.Some? && s.state.deadline.value <= now
    ensures var t := Next(s, Tick(now));
            && t.state.deadline.None? && t.state.held == []
            && t.state.outgoing.None? && t.state.outgoingId.None? && t.state.lastSent == s.state.lastSent
            && t.written == s.written
                 + (if s.state.outgoing.Some? then [Clipboard(Cancel(s.state.outgoing.value.id, TimedOut))] else [])
                 + s.state.held
  {
    hide CtrlAfterAll, PeerAfterAll;
  }

  /** Parts of one transfer. */
  function Parts(id: nat, n: nat): (frames: seq<Frame>)
    ensures |frames| == n && forall i :: 0 <= i < n ==> frames[i] == Clipboard(Part(id))
  {
    seq(n, _ => Clipboard(Part(id)))
  }

  function Repeat(n: nat): seq<Step> {
    if n == 0 then [] else Repeat(n - 1) + [Bulk]
  }

  lemma {:induction false} PartsSent(s: Session, n: nat)
    requires s.state.outgoing.Some? && n <= s.state.outgoing.value.parts
    ensures var t := Run(s, Repeat(n));
            && t.written == s.written + Parts(s.state.outgoing.value.id, n)
            && t.state.outgoing == Some(s.state.outgoing.value.(parts := s.state.outgoing.value.parts - n))
            && t.state.held == s.state.held && t.state.outgoingId == s.state.outgoingId
  {
    hide CtrlAfterAll, PeerAfterAll, Next, Advance, WrittenSince;
    var id := s.state.outgoing.value.id;
    if n > 0 {
      PartsSent(s, n - 1);
      var u := Run(s, Repeat(n - 1));
      assert Repeat(n)[..|Repeat(n)| - 1] == Repeat(n - 1);
      BulkIsAdvance(u);
      AdvanceEnds(u);
      AdvanceKeepsHeld(u);
      assert Parts(id, n) == Parts(id, n - 1) + [Clipboard(Part(id))];
    } else {
      assert s.written + Parts(id, 0) == s.written;
    }
  }

  /** A transfer that is left alone sends each of its parts once, in the end, and then what was held. */
  lemma WholeTransferSent(s: Session, n: nat)
    requires s.state.outgoing.Some? && n <= s.state.outgoing.value.parts
    ensures var t, id := Run(s, Repeat(n)), s.state.outgoing.value.id;
            && t.written == s.written + Parts(id, n)
            && t.state.outgoing == Some(s.state.outgoing.value.(parts := s.state.outgoing.value.parts - n))
            && t.state.held == s.state.held && t.state.outgoingId == s.state.outgoingId
            && (n == s.state.outgoing.value.parts ==>
                  var done := Next(t, Bulk);
                  && done.written == s.written + Parts(id, n) + [Clipboard(End(id))] + s.state.held
                  && done.state.outgoing.None? && done.state.lastSent == s.state.outgoingId)
  {
    hide CtrlAfterAll, PeerAfterAll, Next, Advance, WrittenSince, Run;
    PartsSent(s, n);
    if n == s.state.outgoing.value.parts {
      var t := Run(s, Repeat(n));
      BulkIsAdvance(t);
      AdvanceEnds(t);
    }
  }

  lemma AdvanceKeepsHeld(s: Session)
    requires s.state.outgoing.Some? && s.state.outgoing.value.parts > 0
    ensures Advance(s).state.held == s.state.held && Advance(s).state.outgoingId == s.state.outgoingId
  {
    hide CtrlAfterAll, PeerAfterAll;
  }

  /**
   An offer reaches the peer in full or not at all: short text at once, long text and images
   as a transfer of exactly that item, and what the peer cannot take is not sent.
   */
  lemma OfferedExactly(s: Session, c: Config, item: Item, sequence: nat, parts: nat)
    ensures var t := Next(s, Offered(c, Offer(Some(item), Some(sequence), parts)));
            && t.state.held == s.state.held && t.state.deadline == s.state.deadline
            && (item.Text? && |item.text| <= c.frameLimit ==>
                  && t.state.outgoing.None?
                  && |t.written| > 0 && t.written[|t.written| - 1] == Clipboard(TextOffer(sequence, item.text)))
            && ((item.Text? && |item.text| > c.frameLimit && c.textChunks) || (item.Image? && c.images) ==>
                  && t.state.outgoing == Some(Transfer(t.state.nextTransfer, item, parts))
                  && t.state.outgoingId == Some(item))
            && (item.Text? && |item.text| > c.frameLimit && !c.textChunks ==> t.state.outgoing.None?)
            && (item.Image? && !c.images ==> t.state.outgoing == s.state.outgoing && t.written == s.written)
  {
    hide CtrlAfterAll, PeerAfterAll;
  }

  /** No step gives another transfer the number of the one before it, even when numbers wrap around. */
  lemma NumbersDiffer(begun: nat, steps: seq<Step>, step: Step)
    requires InputsOnly(steps)
    ensures var s := Run(Begin(begun), steps);
            var t := Next(s, step).state.outgoing;
            && (t.Some? ==> 1 <= t.value.id <= MAX_U64)
            && (t.Some? && s.state.outgoing.Some? && t.value.id == s.state.outgoing.value.id ==>
                  t.value.item == s.state.outgoing.value.item)
  {
    hide InOrder, BarrierOk, PeerOk, CtrlAfterAll, PeerAfterAll, Run;
    RunKeeps(begun, steps);
  }

  /**
   A transfer never just stops: when one that was running is gone or replaced after a step,
   its end was written, or a cancel of it, or the peer itself had cancelled it.
   */
  lemma NoTransferJustStops(s: Session, step: Step)
    requires Inv(s) && s.state.outgoing.Some?
    ensures var t, id := Next(s, step), s.state.outgoing.value.id;
            || (t.state.outgoing.Some? && t.state.outgoing.value.id == id)
            || WrittenSince(s, t, Clipboard(End(id)))
            || WrittenSince(s, t, Clipboard(Cancel(id, Replaced)))
            || WrittenSince(s, t, Clipboard(Cancel(id, TimedOut)))
            || (step.PeerCancel? && step.transfer == id)
  {
    hide InOrder, BarrierOk, PeerOk, CtrlAfterAll, PeerAfterAll;
    var id := s.state.outgoing.value.id;
    match step
    case Input(c, frame, read, now) =>
      if read.Some? {
        OfferCancels(s.state, c, read.value);
      }
      hide OfferItem;
    case Offered(c, offer) =>
      OfferCancels(s.state, c, offer);
      hide OfferItem;
    case Bulk => AdvanceEnds(s);
    case Tick(now) =>
      if s.state.deadline.Some? && s.state.deadline.value <= now {
        ExpiryGivesUp(s, now);
        var t := Next(s, step);
        assert t.written[|s.written|..][0] == Clipboard(Cancel(id, TimedOut));
      } else {
        AdvanceEnds(s);
      }
    case PeerCancel(c, transfer) =>
  }
  // ------------------------------------------------- when nothing is under way

  /**
   A paste of an image the peer was not sent last is always held. No transfer is then under
   way exactly when none was running and the id noted is already the image's, as it stays
   after the peer cancelled that very image, or the tracker had nothing to offer.
   */
  lemma HeldWithoutTransfer(s: Session, c: Config, offer: Offer, now: nat)
    requires Inv(s) && s.state.deadline.None? && s.state.ctrlDown && c.enabled && c.images
    requires offer.current.Some? && offer.current.value.Image? && s.state.lastSent != offer.current
    ensures var t := Next(s, Input(c, KeyPress(KEY_V, true), Some(offer), now));
            && t.state.held == [KeyPress(KEY_V, true)] && t.state.deadline == Some(now + TIMEOUT)
            && (t.state.outgoing.None? <==>
                  s.state.outgoing.None? && (s.state.outgoingId == offer.current || offer.sequence.None?))
    ensures s.state.outgoing.None? && s.state.outgoingId == offer.current ==> s.cancelled == offer.current
  {
    hide InOrder, CtrlAfterAll, PeerAfterAll;
  }

  /** With nothing under way and nothing else offered, only the deadline lets the paste go. */
  lemma {:induction false} StuckUntilDeadline(s: Session, steps: seq<Step>)
    requires s.state.deadline.Some? && s.state.outgoing.None?
    requires forall i :: 0 <= i < |steps| ==>
               !steps[i].Offered? && (steps[i].Tick? ==> steps[i].now < s.state.deadline.value)
    ensures var t := Run(s, steps);
            t.state.deadline == s.state.deadline && t.state.outgoing.None? && s.state.held <= t.state.held
  {
    hide OfferItem, CtrlAfterAll, PeerAfterAll;
    if |steps| > 0 {
      StuckUntilDeadline(s, steps[..|steps| - 1]);
      assert !steps[|steps| - 1].Offered?;
    }
  }

  lemma RunStep(s: Session, steps: seq<Step>, step: Step)
    ensures Run(s, steps + [step]) == Next(Run(s, steps), step)
  {
  }

  const CTRL: Frame := KeyPress(29, true)
  const PASTE: Frame := KeyPress(KEY_V, true)
  const BASIC: Config := Config(true, true, true, 100)

  function Picture(parts: nat): Option<Offer> {
    Some(Offer(Some(Image(1)), Some(1), parts))
  }

  lemma OneCtrl(down: bool, frame: Frame)
    ensures CtrlAfterAll(down, [frame]) == CtrlAfter(down, frame)
    ensures CtrlAfterAll(down, []) == down
  {
  }

  /** Control down, then a paste of an image the peer does not have. */
  function FirstPaste(parts: nat): seq<Step> {
    [Input(BASIC, CTRL, None, 0), Input(BASIC, PASTE, Picture(parts), 1)]
  }

  const WITH_CTRL: Session :=
    Session(State(true, None, None, None, [], None, 0), [CTRL], [CTRL], None, None)

  function WithPaste(parts: nat): Session {
    Session(State(true, Some(Transfer(1, Image(1), parts)), Some(Image(1)), None, [PASTE], Some(1 + TIMEOUT), 1),
            [CTRL], [CTRL, PASTE], None, None)
  }

  lemma ControlGoesDown()
    ensures Next(Begin(0), Input(BASIC, CTRL, None, 0)) == WITH_CTRL
  {
  }

  lemma PasteIsHeld(parts: nat)
    ensures Next(WITH_CTRL, Input(BASIC, PASTE, Picture(parts), 1)) == WithPaste(parts)
  {
  }

  lemma AfterFirstPaste(parts: nat)
    ensures Run(Begin(0), FirstPaste(parts)) == WithPaste(parts)
  {
    hide Next, WithPaste;
    var first: seq<Step> := [Input(BASIC, CTRL, None, 0)];
    ControlGoesDown();
    PasteIsHeld(parts);
    RunStep(Begin(0), [], first[0]);
    RunStep(Begin(0), first, Input(BASIC, PASTE, Picture(parts), 1));
    assert [] + first == first;
    assert FirstPaste(parts) == first + [Input(BASIC, PASTE, Picture(parts), 1)];
  }

  /** The case exists: pasting an image again after the peer cancelled it. */
  lemma CancelledImageIsHeldInVain()
    ensures var t := Run(Begin(0), FirstPaste(3) + [PeerCancel(BASIC, 1)] + [Input(BASIC, PASTE, Picture(3), 2)]);
            t.state.held == [PASTE] && t.state.outgoing.None? && t.state.deadline == Some(2 + TIMEOUT)
  {
    hide CtrlAfterAll, PeerAfterAll, Run;
    AfterFirstPaste(3);
    OneCtrl(true, PASTE);
    RunStep(Begin(0), FirstPaste(3), PeerCancel(BASIC, 1));
    RunStep(Begin(0), FirstPaste(3) + [PeerCancel(BASIC, 1)], Input(BASIC, PASTE, Picture(3), 2));
  }

  /**
   An image sent last is pasted without waiting. In every reachable state the peer then has
   that image from here exactly when the last frame that gave it anything was the end of a
   transfer; otherwise a short text was written after it, and the paste finds the text.
   */
  lemma PassedImageIsThere(begun: nat, steps: seq<Step>, c: Config, offer: Offer, now: nat)
    requires InputsOnly(steps)
    requires var s := Run(Begin(begun), steps).state;
             s.deadline.None? && s.lastSent.Some? && s.lastSent.value.Image? && offer.current == s.lastSent && c.images
    ensures var s := Run(Begin(begun), steps);
            && Prepare(s.state, c, KeyPress(KEY_V, true), Some(offer), now) == Out(s.state, [KeyPress(KEY_V, true)])
            && (s.peerItem == offer.current <==> EndedLast(s.written))
  {
    hide Next, InOrder, LastGiven;
    RunKeeps(begun, steps);
  }

  const WHOLE_IMAGE: Session :=
    Session(State(true, None, None, Some(Image(1)), [], None, 1),
            [CTRL, Clipboard(End(1)), PASTE], [CTRL, PASTE], Some(Image(1)), None)

  lemma WholeImageSent()
    ensures Next(WithPaste(0), Bulk) == WHOLE_IMAGE
  {
  }

  lemma TextSent()
    ensures var t := Next(WHOLE_IMAGE, Offered(BASIC, Offer(Some(Text("x")), Some(2), 0)));
            t.state == WHOLE_IMAGE.state && t.peerItem == Some(Text("x"))
  {
    hide CtrlAfterAll;
    OneCtrl(true, Clipboard(TextOffer(2, "x")));
  }

  /** That case exists too: an image sent whole, then a short text, then the image again. */
  lemma PastedImageMayBeStale()
    ensures var t := Run(Begin(0), FirstPaste(0) + [Bulk] + [Offered(BASIC, Offer(Some(Text("x")), Some(2), 0))]);
            && t.state.deadline.None? && t.state.lastSent == Some(Image(1)) && t.peerItem == Some(Text("x"))
            && Prepare(t.state, BASIC, PASTE, Picture(0), 2) == Out(t.state, [PASTE])
  {
    hide Next, Run;
    AfterFirstPaste(0);
    WholeImageSent();
    TextSent();
    RunStep(Begin(0), FirstPaste(0), Bulk);
    RunStep(Begin(0), FirstPaste(0) + [Bulk], Offered(BASIC, Offer(Some(Text("x")), Some(2), 0)));
  }
}
