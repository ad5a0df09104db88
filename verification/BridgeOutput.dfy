/**
 The bridge's output owner (bridge_output.cpp): sixteen request, four control and sixty-four
 observation slots, filled by any number of producers and emptied by one writer. Every step below is
 one section under the mutex, or one write of the descriptor.
 */
module BridgeOutput {
  import opened Bytes

  const REQUESTS: nat := 16
  const CONTROLS_END: nat := 20
  const SLOTS: nat := 84
  const IDENTITY_MAX: nat := 0xffff_ffff_ffff_ffff
  const REQUEST_BYTES: nat := 262144
  const CONTROL_BYTES: nat := 512

  datatype SlotState = Free | Reserved | Queued | Writing

  datatype Slot = Slot(frame: string, identity: nat, state: SlotState)

  const EMPTY: Slot := Slot("", 0, Free)

  datatype Admission = Accepted | Busy | Full | Malformed | Oversized | Closed | NoMemory | Exhausted

  datatype State = Open | Ended | Cancelled | Broken

  datatype Kind = Request | Control

  datatype Pending = Pending(slot: nat, identity: nat, frame: string)

  datatype Ticket = Ticket(slot: nat, identity: nat)

  /**
   The owner, the writer's frame in hand, and the history: every frame taken, how much of the last
   one was written, and all bytes written.
   */
  datatype Owner = Owner(
    slots: seq<Slot>, next: nat, terminal: nat, state: State,
    writer: Option<Pending>, takes: seq<Pending>, sent: nat, wire: string)

  function Idle(): Owner { Owner(seq(SLOTS, i => EMPTY), 0, 0, Open, None, [], 0, "") }

  /** A frame is one line: a final line feed, and no other line feed, carriage return or zero. */
  predicate Line(frame: string) {
    && frame != "" && frame[|frame| - 1] == '\n'
    && (forall i :: 0 <= i < |frame| - 1 ==> frame[i] != '\n')
    && (forall i :: 0 <= i < |frame| ==> frame[i] != '\0' && frame[i] != '\r')
  }

  function FirstFree(slots: seq<Slot>, begin: nat, end: nat): (r: Option<nat>)
    requires begin <= end <= |slots|
    ensures r.Some? ==> begin <= r.value < end && slots[r.value].state == Free
    ensures r.None? <==> forall i :: begin <= i < end ==> slots[i].state != Free
    decreases end - begin
  {
    if begin == end then None
    else if slots[begin].state == Free then Some(begin)
    else FirstFree(slots, begin + 1, end)
  }

  /** The queued slot with the least identity; the earliest such slot if identities were equal. */
  function First(slots: seq<Slot>, begin: nat, end: nat): (r: Option<nat>)
    requires begin <= end <= |slots|
    ensures r.Some? ==> begin <= r.value < end && slots[r.value].state == Queued
    ensures r.Some? ==> forall i :: begin <= i < end && slots[i].state == Queued ==>
              slots[r.value].identity <= slots[i].identity
    ensures r.None? <==> forall i :: begin <= i < end ==> slots[i].state != Queued
    decreases end
  {
    if begin == end then None
    else
      var before := First(slots, begin, end - 1);
      if slots[end - 1].state == Queued && (before.None? || slots[end - 1].identity < slots[before.value].identity)
      then Some(end - 1) else before
  }

  function Push(o: Owner, kind: Kind, frame: string, memory: bool, locked: bool): (Owner, Admission)
    requires |o.slots| == SLOTS
  {
    if |frame| > (if kind.Request? then REQUEST_BYTES else CONTROL_BYTES) then (o, Oversized)
    else if !Line(frame) then (o, Malformed)
    else if locked then (o, Busy)
    else if o.state != Open || o.terminal != 0 then (o, Closed)
    else if o.next == IDENTITY_MAX then (o, Exhausted)
    else
      var slot := if kind.Request? then FirstFree(o.slots, 0, REQUESTS) else FirstFree(o.slots, REQUESTS, CONTROLS_END);
      if slot.None? then (o, Full)
      else if !memory then (o, NoMemory)
      else (o.(slots := o.slots[slot.value := Slot(frame, o.next + 1, Queued)], next := o.next + 1), Accepted)
  }

  function Reserve(o: Owner): (Owner, Admission, Ticket)
    requires |o.slots| == SLOTS
  {
    if o.state != Open || o.terminal != 0 then (o, Closed, Ticket(0, 0))
    else if o.next == IDENTITY_MAX then (o, Exhausted, Ticket(0, 0))
    else
      var slot := FirstFree(o.slots, CONTROLS_END, SLOTS);
      if slot.None? then (o, Full, Ticket(0, 0))
      else
        var s := o.slots[slot.value].(identity := o.next + 1, state := Reserved);
        (o.(slots := o.slots[slot.value := s], next := o.next + 1), Accepted, Ticket(slot.value, o.next + 1))
  }

  function Commit(o: Owner, ticket: Ticket, frame: string, memory: bool): (Owner, Admission)
    requires |o.slots| == SLOTS
  {
    if |frame| > CONTROL_BYTES then (o, Oversized)
    else if !Line(frame) || !(CONTROLS_END <= ticket.slot < SLOTS) || ticket.identity == 0 then (o, Malformed)
    else if o.state != Open || o.terminal != 0 then (o, Closed)
    else
      var s := o.slots[ticket.slot];
      if s.state != Reserved || s.identity != ticket.identity then (o, Malformed)
      else if !memory then (o, NoMemory)
      else (o.(slots := o.slots[ticket.slot := s.(frame := frame, state := Queued)]), Accepted)
  }

  /** Everything but the slot being written becomes free. */
  function Swept(slots: seq<Slot>): (r: seq<Slot>)
    ensures |r| == |slots|
    ensures forall i :: 0 <= i < |slots| ==> r[i] == if slots[i].state == Writing then slots[i] else EMPTY
  {
    seq(|slots|, i requires 0 <= i < |slots| => if slots[i].state == Writing then slots[i] else EMPTY)
  }

  /** None: no control slot is left, which exits the process. */
  function Finish(o: Owner, frame: string, memory: bool): (Option<Owner>, Admission)
    requires |o.slots| == SLOTS
  {
    if |frame| > CONTROL_BYTES then (Some(o), Oversized)
    else if !Line(frame) then (Some(o), Malformed)
    else if o.state != Open || o.terminal != 0 then (Some(o), Closed)
    else if o.next == IDENTITY_MAX then (Some(o), Exhausted)
    else if !memory then (Some(o), NoMemory)
    else
      var slots := Swept(o.slots);
      var slot := FirstFree(slots, REQUESTS, CONTROLS_END);
      if slot.None? then (None, Full)
      else
        (Some(o.(slots := slots[slot.value := Slot(frame, o.next + 1, Queued)],
                 next := o.next + 1, terminal := o.next + 1)),
         Accepted)
  }

  /** Controls first; then the older of the first request and the first observation. */
  function Selected(slots: seq<Slot>): (r: Option<nat>)
    requires |slots| == SLOTS
    ensures r.Some? ==> r.value < SLOTS && slots[r.value].state == Queued
  {
    var control := First(slots, REQUESTS, CONTROLS_END);
    if control.Some? then control
    else
      var request, observation := First(slots, 0, REQUESTS), First(slots, CONTROLS_END, SLOTS);
      if observation.Some? && (request.None? || slots[observation.value].identity < slots[request.value].identity)
      then observation else request
  }

  function Take(o: Owner, stop: bool): Owner
    requires |o.slots| == SLOTS
  {
    if o.writer.Some? || o.state != Open || stop || Selected(o.slots).None? then o
    else
      var i := Selected(o.slots).value;
      var s := o.slots[i];
      var p := Pending(i, s.identity, s.frame);
      o.(slots := o.slots[i := Slot("", s.identity, Writing)], writer := Some(p), takes := o.takes + [p], sent := 0)
  }

  /** One `write` of the frame in hand. */
  function Send(o: Owner, count: nat): Owner {
    if o.writer.None? || o.sent + count > |o.writer.value.frame| then o
    else o.(sent := o.sent + count, wire := o.wire + o.writer.value.frame[o.sent..o.sent + count])
  }

  /** None: the slot is not the writer's, which exits the process. Otherwise whether the terminal frame is done. */
  function Release(o: Owner): Option<(Owner, bool)>
    requires |o.slots| == SLOTS && o.writer.Some? && o.writer.value.slot < |o.slots|
  {
    var p := o.writer.value;
    var s := o.slots[p.slot];
    if s.state != Writing || s.identity != p.identity then None
    else Some((o.(slots := o.slots[p.slot := EMPTY], writer := None), p.identity == o.terminal))
  }

  function End(o: Owner, state: State): Owner
    requires |o.slots| == SLOTS
  {
    if o.state != Open then o else o.(state := state, slots := Swept(o.slots))
  }

  datatype Event =
    | Pushing(kind: Kind, frame: string, memory: bool, locked: bool)
    | Reserving
    | Committing(ticket: Ticket, frame: string, memory: bool)
    | Finishing(frame: string, memory: bool)
    | Taking(stop: bool)
    | Sending(count: nat)
    | Releasing
    | Ending(state: State)

  /** None once the process has exited. The writer lets go of a frame only when it is sent or output has ended. */
  function Apply(o: Owner, e: Event): Option<Owner>
    requires |o.slots| == SLOTS
  {
    match e
    case Pushing(kind, frame, memory, locked) => Some(Push(o, kind, frame, memory, locked).0)
    case Reserving => Some(Reserve(o).0)
    case Committing(ticket, frame, memory) => Some(Commit(o, ticket, frame, memory).0)
    case Finishing(frame, memory) => Finish(o, frame, memory).0
    case Taking(stop) => Some(Take(o, stop))
    case Sending(count) => Some(Send(o, count))
    case Releasing =>
      if o.writer.None? || o.writer.value.slot >= SLOTS
        || (o.sent < |o.writer.value.frame| && o.state == Open) then Some(o)
      else
        var r := Release(o);
        if r.None? then None else Some(r.value.0)
    case Ending(state) => Some(if state == Open then o else End(o, state))
  }

  // ----- the invariant

  predicate Live(s: Slot) { s.state != Free }

  ghost predicate SlotInv(o: Owner) {
    && |o.slots| == SLOTS
    && o.next <= IDENTITY_MAX && o.terminal <= o.next
    && (forall i :: 0 <= i < SLOTS && Live(o.slots[i]) ==> 0 < o.slots[i].identity <= o.next)
    && (forall i, j :: 0 <= i < j < SLOTS && Live(o.slots[i]) && Live(o.slots[j]) ==>
        o.slots[i].identity != o.slots[j].identity)
    && (forall i :: 0 <= i < SLOTS && o.slots[i].state == Queued ==> Line(o.slots[i].frame))
    && (forall i :: 0 <= i < CONTROLS_END ==> o.slots[i].state != Reserved)
  }

  /** At most one slot is being written, and it is the one in the writer's hand. */
  ghost predicate WriterInv(o: Owner)
    requires |o.slots| == SLOTS
  {
    && (forall i :: 0 <= i < SLOTS && o.slots[i].state == Writing ==> o.writer.Some? && o.writer.value.slot == i)
    && (o.writer.Some? ==>
          var p := o.writer.value;
          && p.slot < SLOTS && o.slots[p.slot].state == Writing && o.slots[p.slot].identity == p.identity)
  }

  /** After an accepted `Finish` only the terminal frame is queued; after the end nothing is. */
  ghost predicate TerminalInv(o: Owner)
    requires |o.slots| == SLOTS
  {
    && (o.terminal != 0 ==>
          forall i :: 0 <= i < SLOTS && (o.slots[i].state == Queued || o.slots[i].state == Reserved) ==>
            REQUESTS <= i < CONTROLS_END && o.slots[i].identity == o.terminal)
    && (o.state != Open ==> forall i :: 0 <= i < SLOTS ==> o.slots[i].state == Free || o.slots[i].state == Writing)
  }

  function Concat(takes: seq<Pending>): string {
    if takes == [] then "" else Concat(takes[..|takes| - 1]) + takes[|takes| - 1].frame
  }

  /** The wire holds whole frames, in the order taken, then part of the last; only the end cuts a frame short. */
  ghost predicate WireInv(o: Owner) {
    && (o.takes == [] ==> o.wire == "" && o.writer.None? && o.sent == 0)
    && (o.takes != [] ==>
          var last := o.takes[|o.takes| - 1];
          && o.sent <= |last.frame|
          && o.wire == Concat(o.takes[..|o.takes| - 1]) + last.frame[..o.sent]
          && (o.writer.Some? ==> o.writer.value == last)
          && (o.writer.None? && o.state == Open ==> o.sent == |last.frame|))
    && (forall i :: 0 <= i < |o.takes| ==> Line(o.takes[i].frame))
  }

  predicate SameClass(i: nat, j: nat) {
    (i < REQUESTS && j < REQUESTS) || (REQUESTS <= i < CONTROLS_END && REQUESTS <= j < CONTROLS_END)
  }

  /** Taken frames precede, by identity, whatever is taken or still queued later in their class. */
  ghost predicate OrderInv(o: Owner)
    requires |o.slots| == SLOTS
  {
    && (forall k :: 0 <= k < |o.takes| ==> o.takes[k].identity <= o.next)
    && (forall k, i ::
          0 <= k < |o.takes| && 0 <= i < SLOTS && o.slots[i].state == Queued && SameClass(o.takes[k].slot, i) ==>
            o.takes[k].identity < o.slots[i].identity)
    && (forall k, l :: 0 <= k < l < |o.takes| && SameClass(o.takes[k].slot, o.takes[l].slot) ==>
          o.takes[k].identity < o.takes[l].identity)
  }

  ghost predicate Inv(o: Owner) {
    SlotInv(o) && WriterInv(o) && TerminalInv(o) && WireInv(o) && OrderInv(o)
  }
}
