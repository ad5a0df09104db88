/** When observation receipts leave in the order they were reserved (bridge_output.cpp). */
module BridgeReceipts {
  import opened Bytes
  import opened BridgeOutput
  import opened BridgeOutputRuns

  predicate Observation(p: Pending) { p.slot >= CONTROLS_END }

  ghost predicate InOrder(takes: seq<Pending>) {
    forall k, l :: 0 <= k < l < |takes| && Observation(takes[k]) && Observation(takes[l]) ==>
      takes[k].identity < takes[l].identity
  }

  /** A receipt with a later reservation has already been handed to the writer. */
  predicate Overtaken(takes: seq<Pending>, identity: nat) {
    exists k :: 0 <= k < |takes| && Observation(takes[k]) && takes[k].identity > identity
  }

  /** The reservations committed only after they had been overtaken. */
  function Late(events: seq<Event>): set<nat> {
    if events == [] then {}
    else
      var before, e := events[..|events| - 1], events[|events| - 1];
      var o := Run(before);
      if e.Committing? && o.Some? && |o.value.slots| == SLOTS
        && Commit(o.value, e.ticket, e.frame, e.memory).1 == Accepted
         && Overtaken(o.value.takes, e.ticket.identity)
      then Late(before) + {e.ticket.identity} else Late(before)
  }

  predicate Waiting(s: Slot) { s.state == Queued || s.state == Reserved }

  ghost predicate SlotsKnown(o: Owner, late: set<nat>)
    requires |o.slots| == SLOTS
  {
    && (forall x :: x in late ==> x <= o.next)
    && (forall i :: CONTROLS_END <= i < SLOTS && o.slots[i].state == Reserved ==> o.slots[i].identity !in late)
    && (forall i :: CONTROLS_END <= i < SLOTS && o.slots[i].state == Queued ==>
          (o.slots[i].identity in late <==> Overtaken(o.takes, o.slots[i].identity)))
    && (forall i, k :: 0 <= i < SLOTS && Waiting(o.slots[i]) && 0 <= k < |o.takes| ==>
          o.takes[k].identity != o.slots[i].identity)
  }

  ghost predicate TakesKnown(takes: seq<Pending>, late: set<nat>) {
    && (forall l :: 0 <= l < |takes| && Observation(takes[l]) ==>
          (takes[l].identity in late <==> Overtaken(takes[..l], takes[l].identity)))
    && (forall k, l :: 0 <= k < l < |takes| ==> takes[k].identity != takes[l].identity)
  }

  ghost predicate Known(o: Owner, late: set<nat>)
    requires |o.slots| == SLOTS
  {
    SlotsKnown(o, late) && TakesKnown(o.takes, late)
  }

  lemma OvertakenOneMore(takes: seq<Pending>, p: Pending, identity: nat)
    ensures Overtaken(takes + [p], identity) <==>
            Overtaken(takes, identity) || (Observation(p) && p.identity > identity)
  {
    var all := takes + [p];
    if Overtaken(takes, identity) {
      var k :| 0 <= k < |takes| && Observation(takes[k]) && takes[k].identity > identity;
      assert all[k] == takes[k];
    }
    if Observation(p) && p.identity > identity { assert all[|takes|] == p; }
  }

  lemma TakeKeepsTakes(takes: seq<Pending>, p: Pending, late: set<nat>)
    requires TakesKnown(takes, late)
    requires Observation(p) ==> (p.identity in late <==> Overtaken(takes, p.identity))
    requires forall k :: 0 <= k < |takes| ==> takes[k].identity != p.identity
    ensures TakesKnown(takes + [p], late)
  {
    hide Overtaken;
    var all := takes + [p];
    forall l | 0 <= l < |all| && Observation(all[l])
      ensures all[l].identity in late <==> Overtaken(all[..l], all[l].identity)
    {
      if l < |takes| { assert all[..l] == takes[..l] && all[l] == takes[l]; } else { assert all[..l] == takes; }
    }
  }

  /** The receipt handed over is the oldest queued one, so it overtakes no other queued receipt. */
  lemma TakeKeepsSlotsKnown(o: Owner, late: set<nat>)
    requires Inv(o) && SlotsKnown(o, late) && Take(o, false) != o
    ensures |Take(o, false).slots| == SLOTS && SlotsKnown(Take(o, false), late)
  {
    hide Line, Concat, WriterInv, TerminalInv, WireInv, Selected, Overtaken;
    var v := Take(o, false);
    var n := |o.takes|;
    var p := v.takes[n];
    assert v.takes == o.takes + [p];
    forall i | CONTROLS_END <= i < SLOTS && v.slots[i].state == Queued
      ensures v.slots[i].identity in late <==> Overtaken(v.takes, v.slots[i].identity)
    {
      OvertakenOneMore(o.takes, p, v.slots[i].identity);
      if Observation(p) { SelectedOldest(o.slots, i); }
    }
    forall i, k | 0 <= i < SLOTS && Waiting(v.slots[i]) && 0 <= k < n + 1
      ensures v.takes[k].identity != v.slots[i].identity
    {
      if k < n { assert v.takes[k] == o.takes[k]; }
    }
  }

  lemma SelectedOldest(slots: seq<Slot>, j: nat)
    requires |slots| == SLOTS && Selected(slots).Some? && Selected(slots).value >= CONTROLS_END
    requires CONTROLS_END <= j < SLOTS && slots[j].state == Queued
    ensures slots[Selected(slots).value].identity <= slots[j].identity
  {
  }

  lemma TakeKeepsKnown(o: Owner, stop: bool, late: set<nat>)
    requires Inv(o) && Known(o, late)
    ensures |Take(o, stop).slots| == SLOTS && Known(Take(o, stop), late)
  {
    Sized(o);
    hide Inv, SlotsKnown, TakesKnown, Selected;
    var v := Take(o, stop);
    if v != o {
      TakeKeepsSlotsKnown(o, late);
      assert v == Take(o, false);
      TakenIsKnown(o, late);
      TakeKeepsTakes(o.takes, v.takes[|o.takes|], late);
    }
  }

  lemma TakenIsKnown(o: Owner, late: set<nat>)
    requires Inv(o) && SlotsKnown(o, late) && Selected(o.slots).Some?
    ensures var i := Selected(o.slots).value;
            var s := o.slots[i];
            && (i >= CONTROLS_END ==> (s.identity in late <==> Overtaken(o.takes, s.identity)))
            && (forall k :: 0 <= k < |o.takes| ==> o.takes[k].identity != s.identity)
  {
    hide Inv, Selected, Overtaken;
  }

  lemma PlacedKeepsKnown(o: Owner, i: nat, frame: string, state: SlotState, late: set<nat>)
    requires Inv(o) && Known(o, late) && i < SLOTS && (state == Queued ==> i < CONTROLS_END)
    ensures Known(Placed(o, i, frame, state), late)
  {
    Sized(o);
    hide SlotInv, WriterInv, TerminalInv, WireInv, Overtaken;
  }

  lemma SweptKeepsKnown(o: Owner, v: Owner, late: set<nat>)
    requires Inv(o) && Known(o, late) && v.next == o.next && v.takes == o.takes && |v.slots| == SLOTS
    requires forall i :: 0 <= i < SLOTS ==> v.slots[i] == o.slots[i] || !Waiting(v.slots[i])
    ensures Known(v, late)
  {
    hide Inv, Overtaken;
  }

  lemma CommitKeepsKnown(o: Owner, ticket: Ticket, frame: string, late: set<nat>)
    requires Inv(o) && Known(o, late) && Commit(o, ticket, frame, true).1 == Accepted
    ensures var more := if Overtaken(o.takes, ticket.identity) then late + {ticket.identity} else late;
            Known(Commit(o, ticket, frame, true).0, more)
  {
    hide Line, Concat, WriterInv, TerminalInv, WireInv, OrderInv, Overtaken;
    TakesKeepLate(o, ticket, late);
  }

  /** A reservation not yet taken plays no part in the order of what was taken. */
  lemma TakesKeepLate(o: Owner, ticket: Ticket, late: set<nat>)
    requires |o.slots| == SLOTS && Known(o, late) && CONTROLS_END <= ticket.slot < SLOTS
    requires o.slots[ticket.slot].state == Reserved && o.slots[ticket.slot].identity == ticket.identity
    ensures TakesKnown(o.takes, late + {ticket.identity})
  {
    hide Overtaken;
  }

  lemma PushKeepsKnown(o: Owner, kind: Kind, frame: string, memory: bool, locked: bool, late: set<nat>)
    requires Inv(o) && Known(o, late)
    ensures Known(Push(o, kind, frame, memory, locked).0, late)
  {
    Sized(o);
    hide Inv, Known, Line;
    if Push(o, kind, frame, memory, locked).1 == Accepted {
      var slot := if kind.Request? then FirstFree(o.slots, 0, REQUESTS) else FirstFree(o.slots, REQUESTS, CONTROLS_END);
      PlacedKeepsKnown(o, slot.value, frame, Queued, late);
    }
  }

  lemma ReserveKeepsKnown(o: Owner, late: set<nat>)
    requires Inv(o) && Known(o, late)
    ensures Known(Reserve(o).0, late)
  {
    Sized(o);
    hide Inv, Known;
    if Reserve(o).1 == Accepted {
      var slot := FirstFree(o.slots, CONTROLS_END, SLOTS).value;
      PlacedKeepsKnown(o, slot, o.slots[slot].frame, Reserved, late);
    }
  }

  lemma FinishKeepsKnown(o: Owner, frame: string, memory: bool, late: set<nat>)
    requires Inv(o) && Known(o, late)
    ensures Finish(o, frame, memory).0.Some? && |Finish(o, frame, memory).0.value.slots| == SLOTS
    ensures Known(Finish(o, frame, memory).0.value, late)
  {
    hide Inv, Known, Line, Swept;
    Sized(o);
    FinishFindsASlot(o);
    if Finish(o, frame, memory).1 == Accepted {
      var swept := o.(slots := Swept(o.slots));
      var i := FirstFree(swept.slots, REQUESTS, CONTROLS_END).value;
      SweptKeepsKnown(o, swept, late);
      SweptKeeps(o, Open);
      PlacedKeepsKnown(swept, i, frame, Queued, late);
      TerminalIsUnknown(Placed(swept, i, frame, Queued), o.next + 1, late);
    }
  }

  lemma WriterKeepsKnown(o: Owner, e: Event, late: set<nat>)
    requires Inv(o) && Known(o, late) && (e.Sending? || e.Releasing? || e.Ending?) && Apply(o, e).Some?
    ensures |Apply(o, e).value.slots| == SLOTS && Known(Apply(o, e).value, late)
  {
    hide Inv, Known;
    Sized(o);
    SweptKeepsKnown(o, Apply(o, e).value, late);
  }

  lemma ApplyKeepsKnown(o: Owner, e: Event, late: set<nat>)
    requires Inv(o) && Known(o, late) && !e.Committing?
    ensures |o.slots| == SLOTS && Apply(o, e).Some? && |Apply(o, e).value.slots| == SLOTS
            && Known(Apply(o, e).value, late)
  {
    hide Inv, Known, Push, Reserve, Finish, Take, Send, Release, End;
    Sized(o);
    ApplyKeeps(o, e);
    Sized(Apply(o, e).value);
    match e
    case Pushing(kind, frame, memory, locked) => PushKeepsKnown(o, kind, frame, memory, locked, late);
    case Reserving => ReserveKeepsKnown(o, late);
    case Finishing(frame, memory) => FinishKeepsKnown(o, frame, memory, late);
    case Taking(stop) => TakeKeepsKnown(o, stop, late);
    case Sending(_) => WriterKeepsKnown(o, e, late);
    case Releasing => WriterKeepsKnown(o, e, late);
    case Ending(_) => WriterKeepsKnown(o, e, late);
  }

  lemma TerminalIsUnknown(o: Owner, terminal: nat, late: set<nat>)
    requires |o.slots| == SLOTS && Known(o, late)
    ensures Known(o.(terminal := terminal), late)
  {
  }

  lemma {:induction false} RunIsKnown(events: seq<Event>)
    ensures Run(events).Some? && |Run(events).value.slots| == SLOTS && Known(Run(events).value, Late(events))
  {
    NoRunExits(events);
    Sized(Run(events).value);
    if events != [] {
      var before, e := events[..|events| - 1], events[|events| - 1];
      RunIsKnown(before);
      NoRunExits(before);
      var o := Run(before).value;
      hide Inv, Known, Line, Apply, Overtaken;
      if e.Committing? { CommittingKeepsKnown(o, e, Late(before)); } else { ApplyKeepsKnown(o, e, Late(before)); }
    }
  }

  lemma CommittingKeepsKnown(o: Owner, e: Event, late: set<nat>)
    requires Inv(o) && Known(o, late) && e.Committing?
    ensures |o.slots| == SLOTS && Apply(o, e).Some? && |Apply(o, e).value.slots| == SLOTS
    ensures var accepted := Commit(o, e.ticket, e.frame, e.memory).1 == Accepted;
            Known(Apply(o, e).value,
                  if accepted && Overtaken(o.takes, e.ticket.identity) then late + {e.ticket.identity} else late)
  {
    hide Inv, Known, Line, Overtaken;
    Sized(o);
    if Commit(o, e.ticket, e.frame, e.memory).1 == Accepted { CommitKeepsKnown(o, e.ticket, e.frame, late); }
  }

  /**
   Receipts leave in the order of their reservations if and only if no receipt was handed over that
   had been committed after a later reservation was already handed over.
   */
  lemma ReceiptsInOrderExactlyWithoutLateCommits(events: seq<Event>)
    ensures Run(events).Some?
    ensures var takes := Run(events).value.takes;
            InOrder(takes) <==> forall k :: 0 <= k < |takes| && Observation(takes[k]) ==>
              takes[k].identity !in Late(events)
  {
    RunIsKnown(events);
    var takes := Run(events).value.takes;
    hide Run, Late, SlotsKnown;
    forall l | 0 <= l < |takes| && Observation(takes[l]) && takes[l].identity in Late(events) ensures !InOrder(takes) {
      assert Overtaken(takes[..l], takes[l].identity);
      var k :| 0 <= k < l && Observation(takes[..l][k]) && takes[..l][k].identity > takes[l].identity;
      assert takes[..l][k] == takes[k];
    }
    forall k, l | 0 <= k < l < |takes| && Observation(takes[k]) && Observation(takes[l])
      && takes[l].identity !in Late(events)
      ensures takes[k].identity < takes[l].identity
    {
      assert takes[..l][k] == takes[k];
      assert !Overtaken(takes[..l], takes[l].identity);
    }
  }

  // ----- a condition the producers alone can keep

  ghost predicate Rising(s: seq<nat>) { forall i, j :: 0 <= i < j < |s| ==> s[i] < s[j] }

  /** The receipts committed, in the order of their commits, each as it is handed to the writer. */
  function Commits(events: seq<Event>): seq<Pending> {
    if events == [] then []
    else
      var before, e := events[..|events| - 1], events[|events| - 1];
      var o := Run(before);
      if e.Committing? && o.Some? && |o.value.slots| == SLOTS
         && Commit(o.value, e.ticket, e.frame, e.memory).1 == Accepted
      then Commits(before) + [Pending(e.ticket.slot, e.ticket.identity, e.frame)] else Commits(before)
  }

  function Identities(receipts: seq<Pending>): (r: seq<nat>)
    ensures |r| == |receipts|
    ensures forall i :: 0 <= i < |receipts| ==> r[i] == receipts[i].identity
  {
    seq(|receipts|, i requires 0 <= i < |receipts| => receipts[i].identity)
  }

  /** Receipts queued or handed over are committed ones, unchanged. */
  ghost predicate Written(o: Owner, committed: seq<Pending>)
    requires |o.slots| == SLOTS
  {
    && (forall i :: CONTROLS_END <= i < SLOTS && o.slots[i].state == Queued ==>
          Pending(i, o.slots[i].identity, o.slots[i].frame) in committed)
    && (forall k :: 0 <= k < |o.takes| && Observation(o.takes[k]) ==> o.takes[k] in committed)
  }

  lemma TakeKeepsWritten(o: Owner, stop: bool, committed: seq<Pending>)
    requires |o.slots| == SLOTS && Written(o, committed)
    ensures |Take(o, stop).slots| == SLOTS && Written(Take(o, stop), committed)
  {
    hide Selected;
    var v := Take(o, stop);
    if v != o {
      forall k | 0 <= k < |v.takes| && Observation(v.takes[k]) ensures v.takes[k] in committed {
        assert k < |o.takes| ==> v.takes[k] == o.takes[k];
      }
    }
  }

  lemma CommitKeepsWritten(o: Owner, ticket: Ticket, frame: string, memory: bool, committed: seq<Pending>)
    requires |o.slots| == SLOTS && Written(o, committed)
    ensures var (v, admission) := Commit(o, ticket, frame, memory);
            && |v.slots| == SLOTS
            && Written(v, if admission == Accepted
                          then committed + [Pending(ticket.slot, ticket.identity, frame)] else committed)
  {
    hide Line;
  }

  lemma ApplyKeepsWritten(o: Owner, e: Event, committed: seq<Pending>)
    requires |o.slots| == SLOTS && Written(o, committed) && Apply(o, e).Some? && |Apply(o, e).value.slots| == SLOTS
    requires !e.Committing?
    ensures Written(Apply(o, e).value, committed)
  {
    hide Line, Selected, Commit;
    if e.Taking? { TakeKeepsWritten(o, e.stop, committed); }
  }

  lemma {:induction false} HandedOverWasCommitted(events: seq<Event>)
    ensures Run(events).Some? && |Run(events).value.slots| == SLOTS && Written(Run(events).value, Commits(events))
  {
    NoRunExits(events);
    Sized(Run(events).value);
    hide Inv, Commit, Written;
    if events == [] {
      RunNothing();
      NothingWritten();
    } else {
      var before, e := events[..|events| - 1], events[|events| - 1];
      HandedOverWasCommitted(before);
      if e.Committing? {
        CommitKeepsWritten(Run(before).value, e.ticket, e.frame, e.memory, Commits(before));
      } else {
        ApplyKeepsWritten(Run(before).value, e, Commits(before));
        hide Apply;
      }
    }
  }

  lemma NothingWritten()
    ensures |Idle().slots| == SLOTS && Written(Idle(), [])
  {
  }

  lemma RisingPrefix(s: seq<nat>, n: nat)
    requires Rising(s) && n <= |s|
    ensures Rising(s[..n])
  {
  }

  lemma AboveAllIsNotOvertaken(o: Owner, committed: seq<Pending>, receipt: Pending)
    requires |o.slots| == SLOTS && Written(o, committed) && Rising(Identities(committed + [receipt]))
    ensures !Overtaken(o.takes, receipt.identity)
  {
    var all := Identities(committed + [receipt]);
    forall x | x in committed ensures x.identity < receipt.identity {
      var i :| 0 <= i < |committed| && committed[i] == x;
      assert all[i] == x.identity && all[|committed|] == receipt.identity;
    }
  }

  lemma {:induction false} RisingCommitsAreNeverLate(events: seq<Event>)
    requires Rising(Identities(Commits(events)))
    ensures Late(events) == {}
  {
    hide Rising, Overtaken, Commit, Identities;
    if events != [] {
      var before, e := events[..|events| - 1], events[|events| - 1];
      HandedOverWasCommitted(before);
      hide Run, Written;
      var all, earlier := Commits(events), Commits(before);
      assert all[..|earlier|] == earlier;
      assert Identities(all)[..|earlier|] == Identities(earlier);
      RisingPrefix(Identities(all), |earlier|);
      RisingCommitsAreNeverLate(before);
      if all != earlier { AboveAllIsNotOvertaken(Run(before).value, earlier, all[|earlier|]); }
    }
  }

  /**
   Producers need not know what the writer does: if they commit in the order of their reservations, receipts
   leave in that order, whatever the writer and the other producers do in between. What leaves under a
   reservation is what was committed under it.
   */
  lemma RisingCommitsLeaveInOrder(events: seq<Event>)
    requires Rising(Identities(Commits(events)))
    ensures Run(events).Some? && InOrder(Run(events).value.takes)
    ensures var takes := Run(events).value.takes;
            forall k :: 0 <= k < |takes| && Observation(takes[k]) ==> takes[k] in Commits(events)
  {
    RisingCommitsAreNeverLate(events);
    HandedOverWasCommitted(events);
    ReceiptsInOrderExactlyWithoutLateCommits(events);
    hide Run, Commits, Late, Rising, InOrder, Identities;
  }

  // ----- receipts out of order

  lemma OnlyQueued(slots: seq<Slot>, j: nat)
    requires |slots| == SLOTS && CONTROLS_END <= j < SLOTS && slots[j].state == Queued
    requires forall i :: 0 <= i < SLOTS && i != j ==> slots[i].state != Queued
    ensures Selected(slots) == Some(j)
  {
  }

  /** The writer is handed the only queued receipt. */
  lemma TakesOnly(o: Owner, j: nat)
    requires |o.slots| == SLOTS && o.writer.None? && o.state == Open && CONTROLS_END <= j < SLOTS
             && o.slots[j].state == Queued
    requires forall i :: 0 <= i < SLOTS && i != j ==> o.slots[i].state != Queued
    ensures var p := Pending(j, o.slots[j].identity, o.slots[j].frame);
            var slots := o.slots[j := Slot("", p.identity, Writing)];
            Apply(o, Taking(false)) == Some(o.(slots := slots, writer := Some(p), takes := o.takes + [p], sent := 0))
  {
    hide Selected;
    OnlyQueued(o.slots, j);
  }

  /** An open owner with the two receipts as given and nothing else queued. */
  ghost predicate Pair(o: Owner, first: Slot, second: Slot, busy: bool, takes: seq<Pending>) {
    && |o.slots| == SLOTS && o.slots[20] == first && o.slots[21] == second
    && o.terminal == 0 && o.state == Open && o.writer.Some? == busy && o.takes == takes
    && (forall i :: 0 <= i < 84 && i != 20 && i != 21 ==> o.slots[i].state == Free)
    && o.next <= 2
  }

  lemma CommitFirst(o: Owner, second: Slot, frame: string, takes: seq<Pending>)
    requires Pair(o, Slot("", 1, Reserved), second, false, takes) && Line(frame) && |frame| <= CONTROL_BYTES
    ensures var v := Apply(o, Committing(Ticket(20, 1), frame, true));
            v.Some? && Pair(v.value, Slot(frame, 1, Queued), second, false, takes)
  {
    hide Line;
  }

  lemma CommitSecond(o: Owner, first: Slot, frame: string, takes: seq<Pending>)
    requires Pair(o, first, Slot("", 2, Reserved), false, takes) && Line(frame) && |frame| <= CONTROL_BYTES
    ensures var v := Apply(o, Committing(Ticket(21, 2), frame, true));
            v.Some? && Pair(v.value, first, Slot(frame, 2, Queued), false, takes)
  {
    hide Line;
  }

  /** The second receipt is handed over, written and released. */
  lemma SecondLeaves(events: seq<Event>, frame: string)
    requires Run(events).Some? && Pair(Run(events).value, Slot("", 1, Reserved), Slot(frame, 2, Queued), false, [])
    ensures var after := events + [Taking(false)] + [Sending(|frame|)] + [Releasing];
            Run(after).Some? && Pair(Run(after).value, Slot("", 1, Reserved), EMPTY, false, [Pending(21, 2, frame)])
  {
    hide Run, Selected;
    var o := Run(events).value;
    var p := Pending(21, 2, frame);
    RunOneMore(events, Taking(false));
    TakesOnly(o, 21);
    var taken := events + [Taking(false)];
    var t := Run(taken).value;
    assert Pair(t, Slot("", 1, Reserved), Slot("", 2, Writing), true, [p]) && t.writer == Some(p) && t.sent == 0;
    RunOneMore(taken, Sending(|frame|));
    RunOneMore(taken + [Sending(|frame|)], Releasing);
  }

  /** Two reservations committed in the opposite order, with the writer in between, are written in that order. */
  lemma ReceiptsCanCross(first: string, second: string)
    requires Line(first) && Line(second) && |first| <= CONTROL_BYTES && |second| <= CONTROL_BYTES
    ensures var events := [Reserving] + [Reserving] + [Committing(Ticket(21, 2), second, true)]
                        + [Taking(false)] + [Sending(|second|)] + [Releasing]
                        + [Committing(Ticket(20, 1), first, true)] + [Taking(false)];
            Run(events).Some? && !InOrder(Run(events).value.takes)
  {
    hide Run, Line, Apply, Selected, Pair;
    var e2 := [Reserving] + [Reserving];
    TwoReservations();
    PairIsSized(Run(e2).value, Slot("", 1, Reserved), Slot("", 2, Reserved), []);
    RunOneMore(e2, Committing(Ticket(21, 2), second, true));
    CommitSecond(Run(e2).value, Slot("", 1, Reserved), second, []);
    var e3 := e2 + [Committing(Ticket(21, 2), second, true)];
    SecondLeaves(e3, second);
    var e6 := e3 + [Taking(false)] + [Sending(|second|)] + [Releasing];
    var p := Pending(21, 2, second);
    PairIsSized(Run(e6).value, Slot("", 1, Reserved), EMPTY, [p]);
    RunOneMore(e6, Committing(Ticket(20, 1), first, true));
    CommitFirst(Run(e6).value, EMPTY, first, [p]);
    FirstLeavesLast(e6 + [Committing(Ticket(20, 1), first, true)], first, p);
  }

  lemma PairIsSized(o: Owner, first: Slot, second: Slot, takes: seq<Pending>)
    requires Pair(o, first, second, false, takes)
    ensures |o.slots| == SLOTS
  {
  }

  lemma FirstLeavesLast(events: seq<Event>, frame: string, p: Pending)
    requires Run(events).Some? && Pair(Run(events).value, Slot(frame, 1, Queued), EMPTY, false, [p])
             && p.slot == 21 && p.identity == 2
    ensures Run(events + [Taking(false)]).Some? && !InOrder(Run(events + [Taking(false)]).value.takes)
  {
    hide Run, Selected;
    RunOneMore(events, Taking(false));
    TakesOnly(Run(events).value, 20);
    var takes := Run(events + [Taking(false)]).value.takes;
    assert takes[0].identity == 2 && takes[1].identity == 1;
  }

  lemma TwoReservations()
    ensures Run([Reserving] + [Reserving]).Some?
    ensures Pair(Run([Reserving] + [Reserving]).value, Slot("", 1, Reserved), Slot("", 2, Reserved), false, [])
  {
    RunNothing();
    hide Run;
    RunOneMore([], Reserving);
    assert [] + [Reserving] == [Reserving];
    RunOneMore([Reserving], Reserving);
  }

  lemma RunNothing()
    ensures Run([]) == Some(Idle())
  {
  }
}
