/** The paste barrier as the session keeps it, and the places in its loop that drive it. */
module PasteObject {
  import opened Types
  import Spec = PasteBarrier
  import opened PasteBarrier

  lemma CtrlStart(down: bool)
    ensures CtrlAfterAll(down, []) == down
  {
  }

  lemma CtrlStep(down: bool, frames: seq<Frame>, frame: Frame)
    ensures CtrlAfterAll(down, frames + [frame]) == CtrlAfter(CtrlAfterAll(down, frames), frame)
  {
  }

  class LiveClipboardState {
    var ctrlDown: bool
    var outgoing: Option<Transfer>
    var outgoingId: Option<Item>
    var lastSent: Option<Item>
    var held: seq<Frame>
    var deadline: Option<nat>
    var nextTransfer: nat
    var written: seq<Frame>
    ghost var received: seq<Frame>
    ghost var peerItem: Option<Item>
    ghost var cancelled: Option<Item>

    ghost function StateValue(): State
      reads this
    {
      State(ctrlDown, outgoing, outgoingId, lastSent, held, deadline, nextTransfer)
    }

    ghost function Value(): Session
      reads this
    {
      Session(StateValue(), written, received, peerItem, cancelled)
    }

    constructor (nextTransfer: nat)
      ensures Value() == Begin(nextTransfer)
    {
      ctrlDown, outgoing, outgoingId, lastSent, held, deadline := false, None, None, None, [], None;
      this.nextTransfer := nextTransfer;
      written, received, peerItem, cancelled := [], [], None, None;
    }

    method PushTextOffer(c: Config, sequence: nat, text: string, parts: nat) returns (frames: seq<Frame>)
      modifies this`outgoing, this`outgoingId, this`nextTransfer
      ensures Out(StateValue(), frames) == OfferText(old(StateValue()), c, sequence, text, parts)
    {
      frames := [];
      if outgoing.Some? {
        frames := frames + [Clipboard(Cancel(outgoing.value.id, Replaced))];
      }
      outgoing := None;
      outgoingId := None;
      if |text| <= c.frameLimit {
        frames := frames + [Clipboard(TextOffer(sequence, text))];
        return;
      }
      if !c.textChunks {
        return;
      }
      nextTransfer := NextId(nextTransfer);
      outgoing := Some(Transfer(nextTransfer, Text(text), parts));
      outgoingId := Some(Text(text));
    }

    method OfferItem(c: Config, offer: Offer) returns (frames: seq<Frame>)
      modifies this`outgoing, this`outgoingId, this`nextTransfer
      ensures Out(StateValue(), frames) == Spec.OfferItem(old(StateValue()), c, offer)
    {
      frames := [];
      if offer.sequence.None? || offer.current.None? {
        return;
      }
      var item := offer.current.value;
      if item.Text? {
        frames := PushTextOffer(c, offer.sequence.value, item.text, offer.parts);
      } else if c.images {
        if outgoing.Some? {
          frames := frames + [Clipboard(Cancel(outgoing.value.id, Replaced))];
        }
        nextTransfer := NextId(nextTransfer);
        outgoing := Some(Transfer(nextTransfer, item, offer.parts));
        outgoingId := Some(item);
      }
    }

    /** Decides what an input frame lets through now: the frame, an offer before it, or nothing yet. */
    method PrepareInput(c: Config, frame: Frame, read: Option<Offer>, now: nat) returns (frames: seq<Frame>)
      modifies this
      ensures Out(StateValue(), frames) == Prepare(old(StateValue()), c, frame, read, now)
      ensures written == old(written) && received == old(received)
      ensures peerItem == old(peerItem) && cancelled == old(cancelled)
    {
      hide Spec.OfferItem;
      if deadline.Some? {
        if frame.Motion? {
          return [frame];
        }
        held := held + [frame];
        return [];
      }
      if !c.enabled || frame != KeyPress(KEY_V, true) || !ctrlDown || read.None? {
        return [frame];
      }
      var current := read.value.current;
      if current.Some? && current.value.Image? && c.images {
        if lastSent == current {
          return [frame];
        }
        frames := [];
        if outgoingId != current {
          frames := OfferItem(c, read.value);
        }
        held := held + [frame];
        deadline := Some(now + TIMEOUT);
      } else {
        frames := OfferItem(c, read.value);
        if outgoing.Some? && outgoing.value.item.Text? {
          held := held + [frame];
          deadline := Some(now + TIMEOUT);
          return;
        }
        frames := frames + [frame];
      }
    }

    method NextImageFrame() returns (frames: seq<Frame>, completed: bool)
      modifies this`outgoing, this`outgoingId, this`lastSent
      ensures Out(StateValue(), frames) == NextFrame(old(StateValue()))
      ensures completed == Completes(old(StateValue()))
    {
      frames, completed := [], false;
      if outgoing.Some? {
        var transfer := outgoing.value;
        completed := transfer.parts == 0;
        if completed {
          frames := [Clipboard(End(transfer.id))];
          outgoing := None;
          lastSent := outgoingId;
          outgoingId := None;
        } else {
          frames := [Clipboard(Part(transfer.id))];
          outgoing := Some(transfer.(parts := transfer.parts - 1));
        }
      }
    }

    method TakeHeldInput() returns (frames: seq<Frame>)
      modifies this`held, this`deadline
      ensures Out(StateValue(), frames) == Release(old(StateValue()))
    {
      deadline := None;
      frames := held;
      held := [];
    }

    method CancelExpired() returns (frames: seq<Frame>)
      modifies this`deadline, this`outgoingId, this`outgoing
      ensures Out(StateValue(), frames) == Expire(old(StateValue()))
    {
      deadline := None;
      outgoingId := None;
      frames := if outgoing.Some? then [Clipboard(Cancel(outgoing.value.id, TimedOut))] else [];
      outgoing := None;
    }

    method AfterInputSent(frame: Frame)
      modifies this`ctrlDown
      ensures ctrlDown == CtrlAfter(old(ctrlDown), frame)
    {
      if frame.KeyPress? {
        if frame.code == 29 || frame.code == 97 {
          ctrlDown := frame.down;
        }
      } else if frame.AllKeysUp? {
        ctrlDown := false;
      }
    }

    /** Writes frames one by one, noting each as sent. */
    method WriteFrames(frames: seq<Frame>)
      modifies this`ctrlDown, this`written, this`peerItem
      ensures Value() == Write(old(Value()), Out(old(StateValue()), frames))
    {
      hide CtrlAfterAll, PeerAfterAll, CtrlAfter;
      CtrlStart(ctrlDown);
      assert frames[..0] == [];
      var i := 0;
      while i < |frames|
        invariant 0 <= i <= |frames|
        invariant ctrlDown == CtrlAfterAll(old(ctrlDown), frames[..i])
        invariant written == old(written) + frames[..i]
      {
        assert frames[..i + 1] == frames[..i] + [frames[i]];
        CtrlStep(old(ctrlDown), frames[..i], frames[i]);
        written := written + [frames[i]];
        AfterInputSent(frames[i]);
        i := i + 1;
      }
      assert frames[..i] == frames;
      peerItem := PeerAfterAll(old(peerItem), frames);
    }

    method OnInput(c: Config, frame: Frame, read: Option<Offer>, now: nat)
      modifies this
      ensures Value() == Next(old(Value()), Input(c, frame, read, now))
    {
      hide Prepare, CtrlAfterAll, PeerAfterAll;
      var frames := PrepareInput(c, frame, read, now);
      WriteFrames(frames);
      received := received + [frame];
    }

    method OnOffered(c: Config, offer: Offer)
      modifies this
      ensures Value() == Next(old(Value()), Offered(c, offer))
    {
      hide Spec.OfferItem, CtrlAfterAll, PeerAfterAll;
      var frames := OfferItem(c, offer);
      WriteFrames(frames);
    }

    /** The next frame of the transfer when the link has room; the end frees what is held. */
    method OnBulk()
      modifies this
      ensures Value() == Advance(old(Value()))
    {
      hide CtrlAfterAll, PeerAfterAll;
      var frames, completed := NextImageFrame();
      WriteFrames(frames);
      if completed {
        peerItem := lastSent;
        var released := TakeHeldInput();
        WriteFrames(released);
      }
    }

    method OnTick(now: nat)
      modifies this
      ensures Value() == Next(old(Value()), Tick(now))
    {
      hide CtrlAfterAll, PeerAfterAll, Advance;
      if deadline.Some? && now >= deadline.value {
        var frames := CancelExpired();
        WriteFrames(frames);
        var released := TakeHeldInput();
        WriteFrames(released);
        return;
      }
      OnBulk();
    }

    /** The peer gives up a transfer: if it is the running one, what waited for it goes out. */
    method OnPeerCancel(c: Config, transfer: nat)
      modifies this
      ensures Value() == Next(old(Value()), PeerCancel(c, transfer))
    {
      hide CtrlAfterAll, PeerAfterAll;
      if c.enabled && outgoing.Some? && outgoing.value.id == transfer {
        cancelled := outgoingId;
        outgoing := None;
        var released := TakeHeldInput();
        WriteFrames(released);
      }
    }
  }
}
