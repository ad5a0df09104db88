/**
 Request custody (bridge_handoff.cpp): sixteen entries, each reserved under a fresh id and a deadline,
 resolved by the consumer and taken once by the SDK owner. Times come from one clock that may be wrong.
 A ticket of another process generation finds no entry, just as the id zero does.
 */
module Handoff {
  import opened Bytes

  const CAPACITY: nat := 16
  const DURATION_MAX: nat := 500
  const ID_MAX: nat := 0xffff_ffff_ffff_ffff

  datatype Outcome = Completed | Denied | Failed | Unknown | TimedOut | Closed

  /** `id` is zero when the entry is free. */
  datatype Entry = Entry(id: nat, deadline: nat, outcome: Option<Outcome>)

  const FREE: Entry := Entry(0, 0, None)

  datatype Admission = Reserved | InvalidDeadline | InvalidClock | Busy | Exhausted | Shut
  datatype Reply = Stored | Late | Duplicate | UnknownTicket | InvalidOutcome | WrongClock | AlreadyClosed
  datatype Consume = Pending | Consumed | Unfound | BadClock
  datatype ClockSample = Sampled | InvalidGeneration | SampleClock | SampleClosed

  datatype Custody = Custody(entries: seq<Entry>, greatest: nat, last: Option<nat>, pending: nat, closed: bool)

  function Vacant(): Custody { Custody(seq(16, i => FREE), 0, None, 0, false) }

  predicate TimeAccepted(c: Custody, now: nat) { c.last.None? || now >= c.last.value }

  function FirstFree(entries: seq<Entry>): (r: Option<nat>)
    ensures r.Some? ==> r.value < |entries| && entries[r.value].id == 0
    ensures r.None? <==> forall i :: 0 <= i < |entries| ==> entries[i].id != 0
  {
    if entries == [] then None
    else if entries[0].id == 0 then Some(0)
    else var rest := FirstFree(entries[1..]); if rest.None? then None else Some(rest.value + 1)
  }

  function Find(entries: seq<Entry>, id: nat): (r: Option<nat>)
    ensures r.Some? ==> id != 0 && r.value < |entries| && entries[r.value].id == id
    ensures r.None? <==> id == 0 || forall i :: 0 <= i < |entries| ==> entries[i].id != id
  {
    if id == 0 || entries == [] then None
    else if entries[0].id == id then Some(0)
    else var rest := Find(entries[1..], id); if rest.None? then None else Some(rest.value + 1)
  }

  function Reserve(c: Custody, now: nat, deadline: nat): (Custody, Admission) {
    if c.closed then (c, Shut)
    else if deadline <= now || deadline - now > DURATION_MAX then (c, InvalidDeadline)
    else if !TimeAccepted(c, now) then (c, InvalidClock)
    else
      var d := c.(last := Some(now));
      if c.pending == CAPACITY then (d, Busy)
      else if c.greatest == ID_MAX then (d, Exhausted)
      else
        var i := FirstFree(c.entries);
        if i.None? then (d, Busy)
        else
          (d.(entries := c.entries[i.value := Entry(c.greatest + 1, deadline, None)],
              greatest := c.greatest + 1, pending := c.pending + 1), Reserved)
  }

  predicate Decided(o: Outcome) { o.Completed? || o.Denied? || o.Failed? || o.Unknown? }

  function Resolve(c: Custody, id: nat, outcome: Outcome, received: nat): (Custody, Reply) {
    var i := Find(c.entries, id);
    if i.None? then (c, UnknownTicket)
    else if c.closed then (c, AlreadyClosed)
    else if !Decided(outcome) then (c, InvalidOutcome)
    else if !TimeAccepted(c, received) then (c, WrongClock)
    else
      var d, entry := c.(last := Some(received)), c.entries[i.value];
      if entry.outcome.Some? then (d, Duplicate)
      else if received >= entry.deadline then
        (d.(entries := c.entries[i.value := entry.(outcome := Some(TimedOut))]), Late)
      else (d.(entries := c.entries[i.value := entry.(outcome := Some(outcome))]), Stored)
  }

  function Take(c: Custody, id: nat, now: nat): (Custody, Consume, Outcome) {
    var i := Find(c.entries, id);
    if i.None? then (c, Unfound, Unknown)
    else if !TimeAccepted(c, now) then (c, BadClock, Unknown)
    else
      var d, entry := c.(last := Some(now)), c.entries[i.value];
      var outcome := if !c.closed && now >= entry.deadline then Some(TimedOut) else entry.outcome;
      if outcome.None? then (d, Pending, Unknown)
      else (d.(entries := c.entries[i.value := FREE], pending := if c.pending > 0 then c.pending - 1 else 0),
            Consumed, outcome.value)
  }

  function Deadline(c: Custody, id: nat): Option<nat> {
    var i := Find(c.entries, id);
    if i.None? then None else Some(c.entries[i.value].deadline)
  }

  function Sample(c: Custody, ours: bool, now: nat): (Custody, ClockSample) {
    if !ours then (c, InvalidGeneration)
    else if c.closed then (c, SampleClosed)
    else if TimeAccepted(c, now) then (c.(last := Some(now)), Sampled)
    else (c, SampleClock)
  }

  function ClosedEntries(entries: seq<Entry>): (r: seq<Entry>)
    ensures |r| == |entries|
    ensures forall i :: 0 <= i < |entries| ==>
              r[i] == if entries[i].id != 0 then entries[i].(outcome := Some(Closed)) else entries[i]
  {
    seq(|entries|, i requires 0 <= i < |entries| =>
      if entries[i].id != 0 then entries[i].(outcome := Some(Closed)) else entries[i])
  }

  function Close(c: Custody): Custody { c.(closed := true, entries := ClosedEntries(c.entries)) }

  // ----- histories

  datatype Event =
    | Reserving(now: nat, deadline: nat)
    | Resolving(id: nat, outcome: Outcome, now: nat)
    | Taking(id: nat, now: nat)
    | Sampling(ours: bool, now: nat)
    | Closing

  datatype Taken = Taken(id: nat, outcome: Outcome, at: nat, deadline: nat, closed: bool)

  /** Custody with its history: what was taken, and every result stored in time. */
  datatype System = System(custody: Custody, taken: seq<Taken>, stored: set<(nat, Outcome)>)

  function Apply(s: System, e: Event): System {
    var c := s.custody;
    match e
    case Reserving(now, deadline) => s.(custody := Reserve(c, now, deadline).0)
    case Resolving(id, outcome, now) =>
      var (d, reply) := Resolve(c, id, outcome, now);
      s.(custody := d, stored := if reply == Stored then s.stored + {(id, outcome)} else s.stored)
    case Taking(id, now) =>
      var (d, consume, outcome) := Take(c, id, now);
      var deadline := Deadline(c, id);
      s.(custody := d,
         taken := if consume == Consumed && deadline.Some?
                  then s.taken + [Taken(id, outcome, now, deadline.value, c.closed)] else s.taken)
    case Sampling(ours, now) => s.(custody := Sample(c, ours, now).0)
    case Closing => s.(custody := Close(c))
  }

  function Run(events: seq<Event>): System {
    if events == [] then System(Vacant(), [], {}) else Apply(Run(events[..|events| - 1]), events[|events| - 1])
  }

  // ----- the invariant

  function Occupied(entries: seq<Entry>): nat {
    if entries == [] then 0
    else Occupied(entries[..|entries| - 1]) + (if entries[|entries| - 1].id != 0 then 1 else 0)
  }

  ghost predicate EntryInv(c: Custody) {
    && |c.entries| == CAPACITY && c.greatest <= ID_MAX
    && c.pending == Occupied(c.entries)
    && (forall i :: 0 <= i < 16 ==> c.entries[i].id <= c.greatest)
    && (forall i, j :: 0 <= i < j < 16 && c.entries[i].id != 0 ==> c.entries[i].id != c.entries[j].id)
  }

  ghost predicate OutcomeInv(s: System)
    requires |s.custody.entries| == CAPACITY
  {
    var c := s.custody;
    && (c.closed ==> forall i :: 0 <= i < 16 && c.entries[i].id != 0 ==> c.entries[i].outcome == Some(Closed))
    && (!c.closed ==> forall i :: 0 <= i < 16 && c.entries[i].id != 0 && c.entries[i].outcome.Some? ==>
          c.entries[i].outcome.value == TimedOut || (c.entries[i].id, c.entries[i].outcome.value) in s.stored)
  }

  ghost predicate TakenInv(s: System) {
    && (forall i :: 0 <= i < |s.taken| ==> 0 < s.taken[i].id <= s.custody.greatest)
    && (forall i, j :: 0 <= i < j < |s.taken| ==> s.taken[i].id != s.taken[j].id)
    && (forall i, j :: 0 <= i < |s.taken| && 0 <= j < |s.custody.entries| ==> s.taken[i].id != s.custody.entries[j].id)
    && (forall i :: 0 <= i < |s.taken| ==> Sound(s.taken[i], s.stored))
  }

  /** A result is taken as completed only before its deadline and before closing; after closing all are closed. */
  predicate Sound(t: Taken, stored: set<(nat, Outcome)>) {
    && (t.closed ==> t.outcome == Closed)
    && (!t.closed && t.at >= t.deadline ==> t.outcome == TimedOut)
    && (Decided(t.outcome) ==> !t.closed && t.at < t.deadline && (t.id, t.outcome) in stored)
  }

  ghost predicate Inv(s: System) {
    EntryInv(s.custody) && OutcomeInv(s) && TakenInv(s)
  }

  lemma {:induction false} OccupiedAfter(entries: seq<Entry>, i: nat, entry: Entry)
    requires i < |entries|
    ensures Occupied(entries[i := entry])
         == Occupied(entries) - (if entries[i].id != 0 then 1 else 0) + (if entry.id != 0 then 1 else 0)
    decreases |entries|
  {
    var n := |entries| - 1;
    if i == n {
      assert entries[i := entry][..n] == entries[..n];
    } else {
      assert entries[i := entry][..n] == entries[..n][i := entry];
      OccupiedAfter(entries[..n], i, entry);
    }
  }

  lemma {:induction false} OccupiedByIds(a: seq<Entry>, b: seq<Entry>)
    requires |a| == |b| && forall i :: 0 <= i < |a| ==> a[i].id == b[i].id
    ensures Occupied(a) == Occupied(b)
  {
    if a != [] { OccupiedByIds(a[..|a| - 1], b[..|b| - 1]); }
  }

  lemma {:induction false} OccupiedPositive(entries: seq<Entry>, i: nat)
    requires i < |entries| && entries[i].id != 0
    ensures Occupied(entries) > 0
    decreases |entries|
  {
    var n := |entries| - 1;
    if i < n { OccupiedPositive(entries[..n], i); }
  }

  lemma {:induction false} OccupiedNone(entries: seq<Entry>)
    requires forall i :: 0 <= i < |entries| ==> entries[i].id == 0
    ensures Occupied(entries) == 0
  {
    if entries != [] { OccupiedNone(entries[..|entries| - 1]); }
  }

  lemma ReserveKeeps(s: System, now: nat, deadline: nat)
    requires Inv(s)
    ensures Inv(s.(custody := Reserve(s.custody, now, deadline).0))
  {
    hide Occupied, Sound;
    var c := s.custody;
    var i := FirstFree(c.entries);
    if i.Some? { OccupiedAfter(c.entries, i.value, Entry(c.greatest + 1, deadline, None)); }
  }

  lemma ResolveKeeps(s: System, id: nat, outcome: Outcome, now: nat)
    requires Inv(s)
    ensures Inv(Apply(s, Resolving(id, outcome, now)))
  {
    hide Occupied, Sound, TakenInv;
    var c, v := s.custody, Apply(s, Resolving(id, outcome, now));
    OccupiedByIds(c.entries, v.custody.entries);
    TakenUnderResolve(s, v);
  }

  lemma TakenUnderResolve(s: System, v: System)
    requires TakenInv(s) && v.taken == s.taken && v.custody.greatest == s.custody.greatest && s.stored <= v.stored
    requires |v.custody.entries| == |s.custody.entries|
    requires forall j :: 0 <= j < |s.custody.entries| ==> v.custody.entries[j].id == s.custody.entries[j].id
    ensures TakenInv(v)
  {
  }

  lemma TakeKeeps(s: System, id: nat, now: nat)
    requires Inv(s)
    ensures Inv(Apply(s, Taking(id, now)))
  {
    hide Occupied, TakenInv;
    var c := s.custody;
    var i := Find(c.entries, id);
    if i.Some? {
      OccupiedAfter(c.entries, i.value, FREE);
      OccupiedPositive(c.entries, i.value);
    }
    TakeKeepsTaken(s, id, now);
  }

  lemma TakeKeepsTaken(s: System, id: nat, now: nat)
    requires Inv(s)
    ensures TakenInv(Apply(s, Taking(id, now)))
  {
    hide Occupied, Sound;
    var c, v := s.custody, Apply(s, Taking(id, now));
    if v.taken != s.taken {
      var t := v.taken[|s.taken|];
      TakenIsSound(s, id, now);
      assert v.taken == s.taken + [t] && Sound(t, s.stored);
    }
  }

  lemma TakenIsSound(s: System, id: nat, now: nat)
    requires Inv(s) && Take(s.custody, id, now).1 == Consumed
    ensures Deadline(s.custody, id).Some?
    ensures Sound(Taken(id, Take(s.custody, id, now).2, now, Deadline(s.custody, id).value, s.custody.closed), s.stored)
  {
    hide Occupied, TakenInv;
  }

  lemma CloseKeeps(s: System)
    requires Inv(s)
    ensures Inv(Apply(s, Closing))
  {
    hide Occupied, Sound;
    OccupiedByIds(s.custody.entries, ClosedEntries(s.custody.entries));
  }

  lemma ApplyKeeps(s: System, e: Event)
    requires Inv(s)
    ensures Inv(Apply(s, e))
  {
    match e
    case Reserving(now, deadline) => ReserveKeeps(s, now, deadline);
    case Resolving(id, outcome, now) => ResolveKeeps(s, id, outcome, now);
    case Taking(id, now) => TakeKeeps(s, id, now);
    case Sampling(ours, now) => SampleKeeps(s, ours, now);
    case Closing => CloseKeeps(s);
  }

  lemma SampleKeeps(s: System, ours: bool, now: nat)
    requires Inv(s)
    ensures Inv(Apply(s, Sampling(ours, now)))
  {
    hide Occupied, Sound;
  }

  lemma VacantInv()
    ensures Inv(System(Vacant(), [], {}))
  {
    OccupiedNone(Vacant().entries);
  }

  lemma {:induction false} RunKeeps(events: seq<Event>)
    ensures Inv(Run(events))
  {
    hide Inv, Apply;
    if events == [] {
      VacantInv();
    } else {
      RunKeeps(events[..|events| - 1]);
      ApplyKeeps(Run(events[..|events| - 1]), events[|events| - 1]);
    }
  }

  // ----- what that means

  /** In every history the pending count is the number of occupied entries, and live ids are distinct and issued. */
  lemma PendingCountsEntries(events: seq<Event>)
    ensures var c := Run(events).custody;
            && |c.entries| == CAPACITY && c.pending == Occupied(c.entries)
            && (forall i, j :: 0 <= i < j < 16 && c.entries[i].id != 0 ==> c.entries[i].id != c.entries[j].id)
            && (forall i :: 0 <= i < 16 ==> c.entries[i].id <= c.greatest)
  {
    RunKeeps(events);
  }

  /**
   Every ticket is taken at most once. A decided outcome is taken only if it was stored for that ticket, strictly
   before the deadline, and before closing; from closing on every take gives `Closed`.
   */
  lemma TicketsAreTakenOnceAndInTime(events: seq<Event>)
    ensures var s := Run(events);
            && (forall i, j :: 0 <= i < j < |s.taken| ==> s.taken[i].id != s.taken[j].id)
            && (forall i :: 0 <= i < |s.taken| ==> Sound(s.taken[i], s.stored))
            && (forall i, j :: 0 <= i < |s.taken| && 0 <= j < |s.custody.entries| ==>
                s.taken[i].id != s.custody.entries[j].id)
  {
    RunKeeps(events);
  }

  /** Ids are never reused: a reservation gets an id above every one issued before. */
  lemma ReservedIdsAreNew(events: seq<Event>, now: nat, deadline: nat)
    ensures var s := Run(events);
            var (d, admission) := Reserve(s.custody, now, deadline);
            admission == Reserved ==>
              && d.greatest == s.custody.greatest + 1
              && (forall i :: 0 <= i < |s.custody.entries| ==> s.custody.entries[i].id < d.greatest)
              && (forall i :: 0 <= i < |s.taken| ==> s.taken[i].id < d.greatest)
              && Deadline(d, d.greatest) == Some(deadline)
  {
    RunKeeps(events);
    hide Run, Occupied, Sound;
    var s := Run(events);
    var (d, admission) := Reserve(s.custody, now, deadline);
    if admission == Reserved {
      assert d.entries[FirstFree(s.custody.entries).value].id == d.greatest;
      assert Find(d.entries, d.greatest) == FirstFree(s.custody.entries);
    }
  }

  // ----- waiting

  /** A take that finds the ticket still pending found it open and before its deadline. */
  lemma PendingMeansEarly(s: System, id: nat, now: nat)
    requires Inv(s) && Take(s.custody, id, now).1 == Pending
    ensures !s.custody.closed && Deadline(s.custody, id).Some? && now < Deadline(s.custody, id).value
  {
    hide Occupied, TakenInv;
  }

  function RunFrom(s: System, events: seq<Event>): System {
    if events == [] then s else Apply(RunFrom(s, events[..|events| - 1]), events[|events| - 1])
  }

  lemma {:induction false} RunFromKeeps(s: System, events: seq<Event>)
    requires Inv(s)
    ensures Inv(RunFrom(s, events))
  {
    hide Inv, Apply;
    if events != [] {
      RunFromKeeps(s, events[..|events| - 1]);
      ApplyKeeps(RunFrom(s, events[..|events| - 1]), events[|events| - 1]);
    }
  }

  /** A ticket's deadline never changes: while others act, an issued id keeps it or is gone for good. */
  ghost predicate Fixed(s: System, id: nat, deadline: nat) {
    && id <= s.custody.greatest
    && (Deadline(s.custody, id).Some? ==> Deadline(s.custody, id).value == deadline)
  }

  lemma ApplyKeepsDeadline(s: System, e: Event, id: nat, deadline: nat)
    requires Inv(s) && Fixed(s, id, deadline)
    ensures Fixed(Apply(s, e), id, deadline)
  {
    hide Occupied, TakenInv, OutcomeInv, Find;
    match e
    case Reserving(now, due) => ReserveKeepsDeadline(s, now, due, id, deadline);
    case Resolving(other, outcome, now) => SameDeadline(s.custody, Resolve(s.custody, other, outcome, now).0, id);
    case Taking(other, now) => SameDeadline(s.custody, Take(s.custody, other, now).0, id);
    case Sampling(ours, now) => SameDeadline(s.custody, Sample(s.custody, ours, now).0, id);
    case Closing => SameDeadline(s.custody, Close(s.custody), id);
  }

  /** Entries only keep their id and deadline or become free. */
  lemma SameDeadline(c: Custody, d: Custody, id: nat)
    requires EntryInv(c) && |d.entries| == 16
    requires forall i :: 0 <= i < 16 ==>
               d.entries[i].id == 0
                 || (d.entries[i].id == c.entries[i].id && d.entries[i].deadline == c.entries[i].deadline)
    ensures Deadline(d, id).Some? ==> Deadline(d, id) == Deadline(c, id)
  {
    hide Occupied;
  }

  lemma ReserveKeepsDeadline(s: System, now: nat, due: nat, id: nat, deadline: nat)
    requires Inv(s) && Fixed(s, id, deadline)
    ensures Fixed(Apply(s, Reserving(now, due)), id, deadline)
  {
    hide Occupied, TakenInv, OutcomeInv;
  }

  lemma {:induction false} DeadlineStays(s: System, events: seq<Event>, id: nat, deadline: nat)
    requires Inv(s) && Fixed(s, id, deadline)
    ensures Fixed(RunFrom(s, events), id, deadline)
  {
    hide Inv, Apply, Fixed;
    if events != [] {
      var rest := events[..|events| - 1];
      RunFromKeeps(s, rest);
      DeadlineStays(s, rest, id, deadline);
      ApplyKeepsDeadline(RunFrom(s, rest), events[|events| - 1], id, deadline);
    }
  }
}
