/** The output owner in place: an array of slots behind one mutex (bridge_output.cpp). */
module BridgeSlots {
  import opened Bytes
  import opened BridgeOutput

  class OutputOwner {
    const slots: array<Slot>
    var next: nat
    var terminal: nat
    var state: State
    var writer: Option<Pending>
    ghost var takes: seq<Pending>
    ghost var sent: nat
    ghost var wire: string

    ghost predicate Valid()
      reads this
    {
      slots.Length == SLOTS
    }

    ghost function View(): Owner
      reads this, slots
    {
      Owner(slots[..], next, terminal, state, writer, takes, sent, wire)
    }

    constructor ()
      ensures Valid() && fresh(slots) && View() == Idle()
    {
      slots := new Slot[SLOTS](i => EMPTY);
      next, terminal, state, writer := 0, 0, Open, None;
      takes, sent, wire := [], 0, "";
      new;
      assert slots[..] == Idle().slots;
    }

    /** The loop that looks for a free slot of a class. */
    method FindFree(begin: nat, end: nat) returns (found: Option<nat>)
      requires Valid() && begin <= end <= SLOTS
      ensures found == BridgeOutput.FirstFree(slots[..], begin, end)
    {
      var i := begin;
      while i < end
        invariant begin <= i <= end
        invariant BridgeOutput.FirstFree(slots[..], begin, end) == BridgeOutput.FirstFree(slots[..], i, end)
      {
        if slots[i].state == Free { return Some(i); }
        i := i + 1;
      }
      return None;
    }

    /** `First`: the read-only search for the oldest queued frame of a class. */
    method Oldest(begin: nat, end: nat) returns (selected: Option<nat>)
      requires Valid() && begin <= end <= SLOTS
      ensures selected == First(slots[..], begin, end)
    {
      selected := None;
      var i := begin;
      while i < end
        invariant begin <= i <= end
        invariant selected == First(slots[..], begin, i)
      {
        if slots[i].state == Queued && (selected.None? || slots[i].identity < slots[selected.value].identity) {
          selected := Some(i);
        }
        i := i + 1;
      }
    }

    method Push(kind: Kind, frame: string, memory: bool, locked: bool) returns (admission: Admission)
      requires Valid()
      modifies this`next, slots
      ensures (View(), admission) == BridgeOutput.Push(old(View()), kind, frame, memory, locked)
    {
      if |frame| > (if kind.Request? then REQUEST_BYTES else CONTROL_BYTES) { return Oversized; }
      if !Line(frame) { return Malformed; }
      if locked { return Busy; }
      if state != Open || terminal != 0 { return Closed; }
      if next == IDENTITY_MAX { return Exhausted; }
      hide Line;
      var found: Option<nat>;
      if kind.Request? { found := FindFree(0, REQUESTS); } else { found := FindFree(REQUESTS, CONTROLS_END); }
      if found.None? { return Full; }
      if !memory { return NoMemory; }
      next := next + 1;
      slots[found.value] := Slot(frame, next, Queued);
      return Accepted;
    }

    method ReserveObservation() returns (admission: Admission, ticket: Ticket)
      requires Valid()
      modifies this`next, slots
      ensures (View(), admission, ticket) == Reserve(old(View()))
    {
      ticket := Ticket(0, 0);
      if state != Open || terminal != 0 { return Closed, ticket; }
      if next == IDENTITY_MAX { return Exhausted, ticket; }
      var found := FindFree(CONTROLS_END, SLOTS);
      if found.None? { return Full, ticket; }
      next := next + 1;
      slots[found.value] := slots[found.value].(identity := next, state := Reserved);
      return Accepted, Ticket(found.value, next);
    }

    method CommitObservation(ticket: Ticket, frame: string, memory: bool) returns (admission: Admission)
      requires Valid()
      modifies slots
      ensures (View(), admission) == Commit(old(View()), ticket, frame, memory)
    {
      if |frame| > CONTROL_BYTES { return Oversized; }
      if !Line(frame) || ticket.slot < CONTROLS_END || ticket.slot >= SLOTS
        || ticket.identity == 0 { return Malformed; }
      if state != Open || terminal != 0 { return Closed; }
      if slots[ticket.slot].state != Reserved || slots[ticket.slot].identity != ticket.identity { return Malformed; }
      if !memory { return NoMemory; }
      slots[ticket.slot] := slots[ticket.slot].(frame := frame, state := Queued);
      return Accepted;
    }

    /** Everything not being written becomes free. */
    method Sweep()
      requires Valid()
      modifies slots
      ensures slots[..] == Swept(old(slots[..]))
    {
      var i := 0;
      while i < SLOTS
        invariant 0 <= i <= SLOTS
        invariant forall j :: 0 <= j < i ==> slots[j] == if old(slots[j]).state == Writing then old(slots[j]) else EMPTY
        invariant forall j :: i <= j < SLOTS ==> slots[j] == old(slots[j])
      {
        if slots[i].state != Writing { slots[i] := EMPTY; }
        i := i + 1;
      }
    }

    /** The last branch of the source exits the process; in reachable states it is never taken. */
    method Finish(frame: string, memory: bool) returns (admission: Admission)
      requires Valid() && FirstFree(Swept(slots[..]), REQUESTS, CONTROLS_END).Some?
      modifies this`next, this`terminal, slots
      ensures BridgeOutput.Finish(old(View()), frame, memory) == (Some(View()), admission)
    {
      if |frame| > CONTROL_BYTES { return Oversized; }
      if !Line(frame) { return Malformed; }
      if state != Open || terminal != 0 { return Closed; }
      if next == IDENTITY_MAX { return Exhausted; }
      if !memory { return NoMemory; }
      hide Line, Swept;
      Sweep();
      var found := FindFree(REQUESTS, CONTROLS_END);
      next := next + 1;
      terminal := next;
      slots[found.value] := Slot(frame, next, Queued);
      return Accepted;
    }

    /** Controls first; then the older of the first request and the first observation. */
    method Choose() returns (selected: Option<nat>)
      requires Valid()
      ensures selected == Selected(slots[..])
    {
      hide First;
      selected := Oldest(REQUESTS, CONTROLS_END);
      if selected.None? {
        selected := Oldest(0, REQUESTS);
        var observation := Oldest(CONTROLS_END, SLOTS);
        if observation.Some? && (selected.None? || slots[observation.value].identity < slots[selected.value].identity) {
          selected := observation;
        }
      }
    }

    method Take(stop: bool)
      requires Valid()
      modifies this`writer, this`takes, this`sent, slots
      ensures View() == BridgeOutput.Take(old(View()), stop)
    {
      hide Selected;
      if writer.Some? || state != Open || stop { return; }
      var selected := Choose();
      if selected.None? { return; }
      var slot := slots[selected.value];
      var pending := Pending(selected.value, slot.identity, slot.frame);
      slots[selected.value] := Slot("", slot.identity, Writing);
      writer := Some(pending);
      takes, sent := takes + [pending], 0;
    }

    /** Requires what `ReleaseIsAlwaysOurs` proves of every reachable state. */
    method Release() returns (last: bool)
      requires Valid() && writer.Some? && writer.value.slot < SLOTS && BridgeOutput.Release(View()).Some?
      modifies this`writer, slots
      ensures BridgeOutput.Release(old(View())) == Some((View(), last))
    {
      var pending := writer.value;
      slots[pending.slot] := EMPTY;
      writer := None;
      return pending.identity == terminal;
    }

    method End(final: State)
      requires Valid()
      modifies this`state, slots
      ensures View() == BridgeOutput.End(old(View()), final)
    {
      if state == Open {
        state := final;
        Sweep();
      }
    }
  }
}
