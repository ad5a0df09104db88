/** What every interleaving of producers and the writer keeps (bridge_output.cpp). */
module BridgeOutputRuns {
  import opened Bytes
  import opened BridgeOutput

  /** Putting a frame with a new identity into a free slot of an open owner. */
  function Placed(o: Owner, i: nat, frame: string, state: SlotState): Owner
    requires |o.slots| == SLOTS && i < SLOTS
  {
    o.(slots := o.slots[i := Slot(frame, o.next + 1, state)], next := o.next + 1)
  }

  lemma PlacedKeeps(o: Owner, i: nat, frame: string, state: SlotState)
    requires Inv(o) && i < SLOTS && o.slots[i].state == Free && o.next < IDENTITY_MAX && o.state == Open
             && o.terminal == 0
    requires (state == Queued && Line(frame)) || (state == Reserved && i >= CONTROLS_END)
    ensures Inv(Placed(o, i, frame, state))
  {
    hide Line, Concat;
  }

  lemma PushKeeps(o: Owner, kind: Kind, frame: string, memory: bool, locked: bool)
    requires Inv(o)
    ensures Inv(Push(o, kind, frame, memory, locked).0)
  {
    hide Inv, Line;
    Sized(o);
    if Push(o, kind, frame, memory, locked).1 == Accepted {
      var slot := if kind.Request? then FirstFree(o.slots, 0, REQUESTS) else FirstFree(o.slots, REQUESTS, CONTROLS_END);
      PlacedKeeps(o, slot.value, frame, Queued);
    }
  }

  lemma Sized(o: Owner)
    requires Inv(o)
    ensures |o.slots| == SLOTS && o.next <= IDENTITY_MAX
  {
  }

  lemma ReserveKeeps(o: Owner)
    requires Inv(o)
    ensures Inv(Reserve(o).0)
  {
    hide Inv;
    Sized(o);
    if Reserve(o).1 == Accepted {
      var slot := FirstFree(o.slots, CONTROLS_END, SLOTS).value;
      PlacedKeeps(o, slot, o.slots[slot].frame, Reserved);
    }
  }

  lemma CommitKeeps(o: Owner, ticket: Ticket, frame: string, memory: bool)
    requires Inv(o)
    ensures Inv(Commit(o, ticket, frame, memory).0)
  {
    hide Line, Concat;
  }

  lemma SweptKeeps(o: Owner, state: State)
    requires Inv(o) && (state == Open ==> o.state == Open)
    ensures Inv(o.(slots := Swept(o.slots), state := state))
  {
    hide Line, Concat, OrderInv;
    SweptKeepsOrder(o, state);
  }

  lemma SweptKeepsOrder(o: Owner, state: State)
    requires |o.slots| == SLOTS && OrderInv(o)
    ensures OrderInv(o.(slots := Swept(o.slots), state := state))
  {
  }

  lemma EndKeeps(o: Owner, state: State)
    requires Inv(o) && state != Open
    ensures Inv(End(o, state))
  {
    hide Inv, Swept;
    Sized(o);
    SweptKeeps(o, state);
  }

  /** At most one control slot is being written, so `Finish` always finds a free one. */
  lemma FinishFindsASlot(o: Owner)
    requires Inv(o)
    ensures FirstFree(Swept(o.slots), REQUESTS, CONTROLS_END).Some?
  {
    hide Line, Concat, OrderInv, WireInv;
    var slots := Swept(o.slots);
    assert slots[REQUESTS].state == Free || slots[17].state == Free;
  }

  lemma FinishKeeps(o: Owner, frame: string, memory: bool)
    requires Inv(o)
    ensures Finish(o, frame, memory).0.Some? && Inv(Finish(o, frame, memory).0.value)
  {
    hide Inv, Line, Swept;
    Sized(o);
    FinishFindsASlot(o);
    if Finish(o, frame, memory).1 == Accepted {
      var swept := o.(slots := Swept(o.slots));
      SweptKeeps(o, Open);
      TerminalKeeps(o, swept, FirstFree(swept.slots, REQUESTS, CONTROLS_END).value, frame);
    }
  }

  lemma TerminalKeeps(o: Owner, swept: Owner, i: nat, frame: string)
    requires |o.slots| == SLOTS && swept == o.(slots := Swept(o.slots)) && Inv(swept)
    requires REQUESTS <= i < CONTROLS_END && swept.slots[i].state == Free && o.next < IDENTITY_MAX
             && o.state == Open && o.terminal == 0 && Line(frame)
    ensures Inv(Placed(swept, i, frame, Queued).(terminal := o.next + 1))
  {
    hide Line, Concat;
    PlacedKeeps(swept, i, frame, Queued);
  }

  lemma SendKeepsWire(o: Owner, count: nat)
    requires WireInv(o)
    ensures WireInv(Send(o, count))
  {
    hide Line, Concat;
    if o.writer.Some? && o.sent + count <= |o.writer.value.frame| {
      var last := o.takes[|o.takes| - 1];
      assert last.frame[..o.sent] + last.frame[o.sent..o.sent + count] == last.frame[..o.sent + count];
    }
  }

  lemma SendKeeps(o: Owner, count: nat)
    requires Inv(o)
    ensures Inv(Send(o, count))
  {
    hide Line, Concat, WireInv, Live;
    SendKeepsWire(o, count);
  }

  /** The slot in the writer's hand is always its own, so `Release` never exits. */
  lemma ReleaseIsAlwaysOurs(o: Owner)
    requires Inv(o) && o.writer.Some?
    ensures o.writer.value.slot < |o.slots| && Release(o).Some?
    ensures Release(o).value.1 <==> o.writer.value.identity == o.terminal
  {
    hide Line, Concat, OrderInv, WireInv;
  }

  lemma ReleaseKeeps(o: Owner)
    requires Inv(o) && o.writer.Some? && (o.sent == |o.writer.value.frame| || o.state != Open)
    ensures o.writer.value.slot < |o.slots| && Release(o).Some? && Inv(Release(o).value.0)
  {
    hide Line, Concat;
    ReleaseIsAlwaysOurs(o);
  }

  lemma TakeKeepsSlots(o: Owner, stop: bool)
    requires Inv(o)
    ensures var v := Take(o, stop); SlotInv(v) && WriterInv(v) && TerminalInv(v)
  {
    hide Line, Concat, WireInv, OrderInv, Selected;
  }

  /** Between frames of an open owner everything taken has been written. */
  lemma WholeWire(o: Owner)
    requires WireInv(o) && o.writer.None? && o.state == Open
    ensures o.wire == Concat(o.takes)
  {
    hide Line;
    if o.takes != [] {
      var last := o.takes[|o.takes| - 1];
      assert last.frame[..|last.frame|] == last.frame;
    }
  }

  lemma TakeKeepsWire(o: Owner, stop: bool)
    requires Inv(o)
    ensures WireInv(Take(o, stop))
  {
    hide Line, Concat, OrderInv, Selected, WriterInv, TerminalInv, WireInv;
    var v := Take(o, stop);
    if v != o {
      var i := Selected(o.slots).value;
      var p := Pending(i, o.slots[i].identity, o.slots[i].frame);
      assert Line(p.frame);
      hide SlotInv;
      WholeWire(o);
      TakenKeepsWire(o, v, p);
    }
  }

  lemma TakenKeepsWire(o: Owner, v: Owner, p: Pending)
    requires WireInv(o) && o.wire == Concat(o.takes) && Line(p.frame)
    requires v.takes == o.takes + [p] && v.sent == 0 && v.wire == o.wire && v.writer == Some(p)
    ensures WireInv(v)
  {
    hide Line, Concat;
    var n, nothing := |o.takes|, p.frame[..0];
    assert v.takes[..n] == o.takes && v.takes[n] == p;
    NothingMore(o.wire, nothing);
    forall i | 0 <= i < |v.takes| ensures Line(v.takes[i].frame) {
      if i < n { assert v.takes[i] == o.takes[i]; }
    }
  }

  lemma NothingMore(wire: string, nothing: string)
    requires |nothing| == 0
    ensures wire + nothing == wire
  {
  }

  /** The selected slot has the least identity of its class. */
  lemma SelectedIsLeast(slots: seq<Slot>, j: nat)
    requires |slots| == SLOTS && Selected(slots).Some? && j < SLOTS && slots[j].state == Queued
             && SameClass(Selected(slots).value, j)
    ensures slots[Selected(slots).value].identity <= slots[j].identity
  {
  }

  lemma TakeKeepsOrder(o: Owner, stop: bool)
    requires Inv(o)
    ensures OrderInv(Take(o, stop))
  {
    hide Line, Concat, Selected, WriterInv, TerminalInv, WireInv;
    var v := Take(o, stop);
    if v != o {
      var i := Selected(o.slots).value;
      var n := |o.takes|;
      forall k, j | 0 <= k < n + 1 && 0 <= j < SLOTS && v.slots[j].state == Queued && SameClass(v.takes[k].slot, j)
        ensures v.takes[k].identity < v.slots[j].identity
      {
        if k == n { SelectedIsLeast(o.slots, j); } else { assert v.takes[k] == o.takes[k]; }
      }
      forall k, l | 0 <= k < l < n + 1 && SameClass(v.takes[k].slot, v.takes[l].slot)
        ensures v.takes[k].identity < v.takes[l].identity
      {
        assert v.takes[k] == o.takes[k];
        if l < n { assert v.takes[l] == o.takes[l]; }
      }
    }
  }

  lemma TakeKeeps(o: Owner, stop: bool)
    requires Inv(o)
    ensures Inv(Take(o, stop))
  {
    TakeKeepsSlots(o, stop);
    TakeKeepsWire(o, stop);
    TakeKeepsOrder(o, stop);
  }

  lemma ApplyKeeps(o: Owner, e: Event)
    requires Inv(o)
    ensures |o.slots| == SLOTS && Apply(o, e).Some? && Inv(Apply(o, e).value)
  {
    hide Inv, Push, Reserve, Commit, Finish, Take, Send, Release, End;
    Sized(o);
    match e
    case Pushing(kind, frame, memory, locked) => PushKeeps(o, kind, frame, memory, locked);
    case Reserving => ReserveKeeps(o);
    case Committing(ticket, frame, memory) => CommitKeeps(o, ticket, frame, memory);
    case Finishing(frame, memory) => FinishKeeps(o, frame, memory);
    case Taking(stop) => TakeKeeps(o, stop);
    case Sending(count) => SendKeeps(o, count);
    case Releasing =>
      if o.writer.Some? && (o.sent >= |o.writer.value.frame| || o.state != Open) { WriterStands(o); ReleaseKeeps(o); }
    case Ending(state) => if state != Open { EndKeeps(o, state); }
  }

  lemma WriterStands(o: Owner)
    requires Inv(o) && o.writer.Some?
    ensures o.sent <= |o.writer.value.frame|
  {
    hide SlotInv, WriterInv, TerminalInv, OrderInv;
  }

  // ----- runs

  /** The owner after any steps in any order; None if a step had exited the process. */
  function Run(events: seq<Event>): Option<Owner> {
    if events == [] then Some(Idle())
    else
      var before := Run(events[..|events| - 1]);
      if before.None? || |before.value.slots| != SLOTS then None else Apply(before.value, events[|events| - 1])
  }

  lemma IdleInv()
    ensures Inv(Idle())
  {
  }

  /** No interleaving exits: neither `Finish` nor `Release` ever meets its impossible case. */
  lemma {:induction false} NoRunExits(events: seq<Event>)
    ensures Run(events).Some? && Inv(Run(events).value)
  {
    hide Inv, Apply;
    if events == [] {
      IdleInv();
    } else {
      NoRunExits(events[..|events| - 1]);
      var before := Run(events[..|events| - 1]).value;
      ApplyKeeps(before, events[|events| - 1]);
    }
  }

  /**
   Requests and controls leave in the order they were admitted, and the descriptor carries whole
   well-formed lines in the order they were taken, the last one possibly cut short.
   */
  lemma FramesLeaveInOrderAndWhole(events: seq<Event>)
    ensures Run(events).Some?
    ensures var o := Run(events).value;
            && (forall k, l :: 0 <= k < l < |o.takes| && SameClass(o.takes[k].slot, o.takes[l].slot) ==>
                  o.takes[k].identity < o.takes[l].identity)
            && (forall k :: 0 <= k < |o.takes| ==> Line(o.takes[k].frame))
            && (o.takes != [] ==>
                  var last := o.takes[|o.takes| - 1].frame;
                  o.sent <= |last| && o.wire == Concat(o.takes[..|o.takes| - 1]) + last[..o.sent])
            && (o.takes == [] ==> o.wire == "")
  {
    NoRunExits(events);
    hide Run, Line, Concat;
  }

  /** A queued control goes before any request or observation; within its class the oldest goes. */
  lemma ControlsGoFirst(events: seq<Event>, j: nat)
    ensures Run(events).Some?
    ensures var o := Run(events).value;
            var v := Take(o, false);
            j < SLOTS && o.slots[j].state == Queued && v != o ==>
              var p := v.takes[|v.takes| - 1];
              && (REQUESTS <= j < CONTROLS_END ==> REQUESTS <= p.slot < CONTROLS_END)
              && (SameClass(p.slot, j) || (p.slot >= CONTROLS_END && j >= CONTROLS_END) ==>
                  p.identity <= o.slots[j].identity)
  {
    hide Run, Inv, Selected;
    NoRunExits(events);
    var o := Run(events).value;
    Sized(o);
    if j < SLOTS && o.slots[j].state == Queued && Selected(o.slots).Some? { SelectedGoesFirst(o.slots, j); }
  }

  lemma SelectedGoesFirst(slots: seq<Slot>, j: nat)
    requires |slots| == SLOTS && j < SLOTS && slots[j].state == Queued && Selected(slots).Some?
    ensures var i := Selected(slots).value;
            && (REQUESTS <= j < CONTROLS_END ==> REQUESTS <= i < CONTROLS_END)
            && (SameClass(i, j) || (i >= CONTROLS_END && j >= CONTROLS_END) ==> slots[i].identity <= slots[j].identity)
  {
    hide First;
  }

  // ----- after an accepted Finish

  /** Since the terminal frame was queued, nothing but that frame is queued or taken; once taken, nothing is left. */
  ghost predicate Settled(o: Owner, since: nat, frame: string)
    requires |o.slots| == SLOTS
  {
    && o.terminal != 0
    && since <= |o.takes| <= since + 1
    && (|o.takes| == since + 1 ==> o.takes[since].identity == o.terminal && o.takes[since].frame == frame)
    && (forall i :: 0 <= i < SLOTS && o.slots[i].state == Queued ==> |o.takes| == since && o.slots[i].frame == frame)
  }

  lemma SettledStays(o: Owner, e: Event, since: nat, frame: string)
    requires Inv(o) && Settled(o, since, frame) && Apply(o, e).Some?
    ensures var v := Apply(o, e).value;
            |v.slots| == SLOTS && Settled(v, since, frame) && v.terminal == o.terminal && o.takes <= v.takes
  {
    hide Line, Concat, WireInv, OrderInv, Selected;
  }

  lemma {:induction false} AfterFinish(before: seq<Event>, frame: string, memory: bool, after: seq<Event>)
    requires Run(before).Some? && |Run(before).value.slots| == SLOTS
    requires Finish(Run(before).value, frame, memory).1 == Accepted
    ensures Run(before + [Finishing(frame, memory)] + after).Some?
    ensures var o := Run(before).value;
            var v := Run(before + [Finishing(frame, memory)] + after).value;
            && |v.slots| == SLOTS && Settled(v, |o.takes|, frame) && o.takes <= v.takes && v.terminal == o.next + 1
  {
    hide Run, Inv, Settled, Finish, Apply;
    var finished := before + [Finishing(frame, memory)];
    var all := finished + after;
    NoRunExits(all);
    NoRunExits(before);
    if after == [] {
      assert all == finished;
      FinishSettles(Run(before).value, frame, memory);
      FinishRuns(before, frame, memory);
      Sized(Run(all).value);
    } else {
      var rest, e := after[..|after| - 1], after[|after| - 1];
      assert all == (finished + rest) + [e];
      AfterFinish(before, frame, memory, rest);
      NoRunExits(finished + rest);
      RunOneMore(finished + rest, e);
      SettledStays(Run(finished + rest).value, e, |Run(before).value.takes|, frame);
    }
  }

  lemma RunOneMore(events: seq<Event>, e: Event)
    requires Run(events).Some? && |Run(events).value.slots| == SLOTS
    ensures Run(events + [e]) == Apply(Run(events).value, e)
  {
    hide Apply;
    assert (events + [e])[..|events|] == events;
  }

  lemma FinishRuns(before: seq<Event>, frame: string, memory: bool)
    requires Run(before).Some? && |Run(before).value.slots| == SLOTS
    ensures Run(before + [Finishing(frame, memory)]) == Finish(Run(before).value, frame, memory).0
  {
    RunOneMore(before, Finishing(frame, memory));
    hide Run, Finish;
  }

  lemma FinishSettles(o: Owner, frame: string, memory: bool)
    requires Inv(o) && Finish(o, frame, memory).1 == Accepted
    ensures var v := Finish(o, frame, memory).0;
            v.Some? && Settled(v.value, |o.takes|, frame) && v.value.takes == o.takes && v.value.terminal == o.next + 1
  {
    hide Line, Concat;
    FinishKeeps(o, frame, memory);
  }

  /**
   After an accepted `Finish` the descriptor carries the rest of the frame in progress and then at
   most the terminal frame, whatever producers and the writer do.
   */
  lemma OnlyTheTerminalFrameFollows(before: seq<Event>, frame: string, memory: bool, after: seq<Event>)
    requires Run(before).Some? && |Run(before).value.slots| == SLOTS
    requires Finish(Run(before).value, frame, memory).1 == Accepted
    ensures Run(before + [Finishing(frame, memory)] + after).Some?
    ensures var o := Run(before).value;
            var v := Run(before + [Finishing(frame, memory)] + after).value;
            && (v.takes == o.takes || (|v.takes| == |o.takes| + 1 && v.takes[..|o.takes|] == o.takes
                                       && v.takes[|o.takes|].frame == frame))
            && (v.takes == o.takes && v.takes != [] ==>
                  var last := v.takes[|v.takes| - 1].frame;
                  v.sent <= |last| && v.wire == Concat(v.takes[..|v.takes| - 1]) + last[..v.sent])
            && (v.takes != o.takes ==> v.sent <= |frame| && v.wire == Concat(o.takes) + frame[..v.sent])
  {
    AfterFinish(before, frame, memory, after);
    NoRunExits(before + [Finishing(frame, memory)] + after);
    hide Run, Concat, Line;
  }

  /** After the end, once the writer has let go, every slot is free, so the owner may be destroyed. */
  lemma EverythingIsFreeAfterTheEnd(events: seq<Event>)
    ensures Run(events).Some?
    ensures var o := Run(events).value;
            o.state != Open && o.writer.None? ==> forall i :: 0 <= i < |o.slots| ==> o.slots[i].state == Free
  {
    NoRunExits(events);
    hide Run, Concat, Line, WireInv, OrderInv;
  }
}
