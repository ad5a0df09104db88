/** Custody in place, and the thread owner that waits on it (bridge_handoff.cpp, bridge_handoff_owner.cpp). */
module HandoffOwner {
  import opened Bytes
  import H = Handoff

  class CustodyTable {
    const entries: array<H.Entry>
    var greatest: nat
    var last: Option<nat>
    var pending: nat
    var closed: bool

    ghost predicate Valid()
      reads this
    {
      entries.Length == 16
    }

    ghost function View(): H.Custody
      reads this, entries
    {
      H.Custody(entries[..], greatest, last, pending, closed)
    }

    constructor ()
      ensures Valid() && fresh(entries) && View() == H.Vacant()
    {
      entries := new H.Entry[16](i => H.FREE);
      greatest, last, pending, closed := 0, None, 0, false;
      new;
      assert entries[..] == H.Vacant().entries;
    }

    method AcceptTime(now: nat) returns (accepted: bool)
      requires Valid()
      modifies this`last
      ensures accepted == H.TimeAccepted(old(View()), now)
      ensures last == if accepted then Some(now) else old(last)
    {
      if last.Some? && now < last.value { return false; }
      last := Some(now);
      return true;
    }

    /** The search loop behind every ticket operation. */
    method Find(id: nat) returns (found: Option<nat>)
      requires Valid()
      ensures found == H.Find(entries[..], id)
    {
      if id == 0 { return None; }
      var i := 0;
      while i < 16
        invariant 0 <= i <= 16
        invariant forall j :: 0 <= j < i ==> entries[j].id != id
      {
        if entries[i].id == id {
          FindsFirst(entries[..], id, i);
          return Some(i);
        }
        i := i + 1;
      }
      return None;
    }

    method FindFree() returns (found: Option<nat>)
      requires Valid()
      ensures found == H.FirstFree(entries[..])
    {
      var i := 0;
      while i < 16
        invariant 0 <= i <= 16
        invariant forall j :: 0 <= j < i ==> entries[j].id != 0
      {
        if entries[i].id == 0 {
          FreesFirst(entries[..], i);
          return Some(i);
        }
        i := i + 1;
      }
      return None;
    }

    method Reserve(now: nat, deadline: nat) returns (admission: H.Admission)
      requires Valid()
      modifies this, entries
      ensures Valid() && (View(), admission) == H.Reserve(old(View()), now, deadline)
    {
      if closed { return H.Shut; }
      if deadline <= now || deadline - now > H.DURATION_MAX { return H.InvalidDeadline; }
      var accepted := AcceptTime(now);
      if !accepted { return H.InvalidClock; }
      if pending == H.CAPACITY { return H.Busy; }
      if greatest == H.ID_MAX { return H.Exhausted; }
      var found := FindFree();
      if found.None? { return H.Busy; }
      hide H.FirstFree;
      greatest := greatest + 1;
      entries[found.value] := H.Entry(greatest, deadline, None);
      pending := pending + 1;
      return H.Reserved;
    }

    method Resolve(id: nat, outcome: H.Outcome, received: nat) returns (reply: H.Reply)
      requires Valid()
      modifies this`last, entries
      ensures Valid() && (View(), reply) == H.Resolve(old(View()), id, outcome, received)
    {
      hide H.Find;
      var found := Find(id);
      if found.None? { return H.UnknownTicket; }
      if closed { return H.AlreadyClosed; }
      if !H.Decided(outcome) { return H.InvalidOutcome; }
      var accepted := AcceptTime(received);
      if !accepted { return H.WrongClock; }
      var entry := entries[found.value];
      if entry.outcome.Some? { return H.Duplicate; }
      if received >= entry.deadline {
        entries[found.value] := entry.(outcome := Some(H.TimedOut));
        return H.Late;
      }
      entries[found.value] := entry.(outcome := Some(outcome));
      return H.Stored;
    }

    method Take(id: nat, now: nat) returns (consume: H.Consume, outcome: H.Outcome)
      requires Valid()
      modifies this`last, this`pending, entries
      ensures Valid() && (View(), consume, outcome) == H.Take(old(View()), id, now)
    {
      hide H.Find;
      outcome := H.Unknown;
      var found := Find(id);
      if found.None? { return H.Unfound, outcome; }
      var accepted := AcceptTime(now);
      if !accepted { return H.BadClock, outcome; }
      var entry := entries[found.value];
      if !closed && now >= entry.deadline { entry := entry.(outcome := Some(H.TimedOut)); }
      if entry.outcome.None? { return H.Pending, outcome; }
      outcome := entry.outcome.value;
      entries[found.value] := H.FREE;
      if pending > 0 { pending := pending - 1; }
      return H.Consumed, outcome;
    }

    method Close()
      requires Valid()
      modifies this`closed, entries
      ensures Valid() && View() == H.Close(old(View()))
    {
      closed := true;
      var i := 0;
      while i < 16
        invariant 0 <= i <= 16
        invariant forall j :: 0 <= j < i ==> entries[j] == H.ClosedEntries(old(entries[..]))[j]
        invariant forall j :: i <= j < 16 ==> entries[j] == old(entries[j])
        invariant closed
      {
        if entries[i].id != 0 { entries[i] := entries[i].(outcome := Some(H.Closed)); }
        i := i + 1;
      }
      assert entries[..] == H.ClosedEntries(old(entries[..]));
    }
  }

  lemma {:induction false} FindsFirst(entries: seq<H.Entry>, id: nat, i: nat)
    requires id != 0 && i < |entries| && entries[i].id == id && forall j :: 0 <= j < i ==> entries[j].id != id
    ensures H.Find(entries, id) == Some(i)
    decreases i
  {
    if i > 0 { FindsFirst(entries[1..], id, i - 1); }
  }

  lemma {:induction false} FreesFirst(entries: seq<H.Entry>, i: nat)
    requires i < |entries| && entries[i].id == 0 && forall j :: 0 <= j < i ==> entries[j].id != 0
    ensures H.FirstFree(entries) == Some(i)
    decreases i
  {
    if i > 0 { FreesFirst(entries[1..], i - 1); }
  }

  /** What happens while the waiter is off the mutex, the clock when it is back, and what its progress step said. */
  datatype Wake = Wake(others: seq<H.Event>, now: nat, advanced: bool, more: seq<H.Event>, afterwards: nat)

  datatype Sleep = Sleep(start: nat, duration: nat)

  /** A sleep is never empty and never lasts past the deadline. */
  predicate Bounded(sleep: Sleep, progress: bool, deadline: nat) {
    0 < sleep.duration && sleep.start + sleep.duration <= deadline && (progress ==> sleep.duration == 1)
  }

  /** What one wake brings while the ticket stays pending: takes of our own, and what others do off the mutex. */
  function Script(id: nat, progress: bool, wake: Wake): seq<H.Event> {
    [H.Taking(id, wake.now)] + (if progress then Advanced(wake) + [H.Taking(id, wake.afterwards)] else []) + wake.more
  }

  /** A progress step that fails closes custody. */
  function Advanced(wake: Wake): seq<H.Event> { wake.others + if wake.advanced then [] else [H.Closing] }

  function Scripts(id: nat, progress: bool, wakes: seq<Wake>): seq<H.Event> {
    if wakes == [] then []
    else Scripts(id, progress, wakes[..|wakes| - 1]) + Script(id, progress, wakes[|wakes| - 1])
  }

  lemma {:induction false} ScriptsSoFar(id: nat, progress: bool, wakes: seq<Wake>, k: nat)
    requires k < |wakes|
    ensures Scripts(id, progress, wakes[..k]) + Script(id, progress, wakes[k]) == Scripts(id, progress, wakes[..k + 1])
    ensures Scripts(id, progress, wakes[..k + 1]) <= Scripts(id, progress, wakes)
  {
    hide Script;
    assert wakes[..k + 1][..k] == wakes[..k];
    if k + 1 == |wakes| {
      assert wakes[..k + 1] == wakes;
    } else {
      var rest := wakes[..|wakes| - 1];
      assert rest[..k] == wakes[..k] && rest[..k + 1] == wakes[..k + 1];
      ScriptsSoFar(id, progress, rest, k);
    }
  }

  /** The last event is a take of this ticket, and this is what it said. */
  ghost predicate Answered(s: H.System, events: seq<H.Event>, id: nat, consume: H.Consume, outcome: H.Outcome) {
    && events != []
    && var last := events[|events| - 1];
    last.Taking? && last.id == id
    && var (_, c, o) := H.Take(H.RunFrom(s, events[..|events| - 1]).custody, id, last.now); (c, o) == (consume, outcome)
  }

  /** The last ticket taken is this one, with its own deadline. */
  predicate JustTaken(s: H.System, id: nat, outcome: H.Outcome, deadline: nat) {
    && s.taken != []
    && var t := s.taken[|s.taken| - 1]; t.id == id && t.outcome == outcome && t.deadline == deadline
  }

  class Waiter {
    var system: H.System
    var waiting: nat

    constructor ()
      ensures system == H.Run([]) && waiting == 0
    {
      system, waiting := H.Run([]), 0;
    }

    /**
     `Wait`, for any number of wakes. Custody goes through our takes and what others do, in their order, up to the
     take that answers. Neither exit is reachable, and each sleep is for a positive time that ends at the ticket's
     own deadline at the latest. None: still waiting when the wakes run out.
     */
    method Wait(id: nat, progress: bool, wakes: seq<Wake>)
      returns (result: Option<H.Consume>, outcome: H.Outcome, sleeps: seq<Sleep>, ghost events: seq<H.Event>)
      requires H.Inv(system)
      modifies this
      ensures H.Inv(system) && waiting == old(waiting)
      ensures system == H.RunFrom(old(system), events) && events <= Scripts(id, progress, wakes)
      ensures result.None? ==> events == Scripts(id, progress, wakes)
      ensures result.Some? ==> result.value != H.Pending && Answered(old(system), events, id, result.value, outcome)
      ensures result == Some(H.Consumed) ==>
                && H.Deadline(old(system).custody, id).Some?
                && JustTaken(system, id, outcome, H.Deadline(old(system).custody, id).value)
      ensures H.Deadline(old(system).custody, id).None? ==>
                system == old(system) && (wakes != [] ==> result == Some(H.Unfound))
      ensures H.Deadline(old(system).custody, id).Some? && result.None? ==> |sleeps| == |wakes|
      ensures forall sleep :: sleep in sleeps ==>
                && H.Deadline(old(system).custody, id).Some?
                && Bounded(sleep, progress, H.Deadline(old(system).custody, id).value)
    {
      hide H.Inv, Script, Bounded, JustTaken, H.Apply;
      var deadline := H.Deadline(system.custody, id);
      if deadline.None? {
        if wakes == [] { return None, H.Unknown, [], []; }
        UnknownIsNotPending(system, id, wakes[0].now);
        FirstTake(id, progress, wakes);
        hide H.RunFrom, H.Deadline, H.Take, Scripts, Answered;
        return Some(H.Unfound), H.Unknown, [], [H.Taking(id, wakes[0].now)];
      }
      FoundIsIssued(system, id);
      hide H.RunFrom, H.Deadline, H.Take, H.Fixed, Scripts, Answered;
      result, outcome, sleeps, events := WaitFor(id, progress, wakes, deadline.value);
    }

    /** The loop, for a ticket that has been issued with this deadline. */
    method WaitFor(id: nat, progress: bool, wakes: seq<Wake>, deadline: nat)
      returns (result: Option<H.Consume>, outcome: H.Outcome, sleeps: seq<Sleep>, ghost events: seq<H.Event>)
      requires H.Inv(system) && H.Fixed(system, id, deadline)
      modifies this
      ensures H.Inv(system) && waiting == old(waiting)
      ensures system == H.RunFrom(old(system), events) && events <= Scripts(id, progress, wakes)
      ensures result.None? ==> events == Scripts(id, progress, wakes) && |sleeps| == |wakes|
      ensures result.Some? ==> result.value != H.Pending && Answered(old(system), events, id, result.value, outcome)
      ensures result == Some(H.Consumed) ==> JustTaken(system, id, outcome, deadline)
      ensures forall sleep :: sleep in sleeps ==> Bounded(sleep, progress, deadline)
    {
      hide H.Inv, H.Fixed, Bounded, H.Deadline, Answered, Script, H.RunFrom, JustTaken;
      sleeps, outcome, events := [], H.Unknown, [];
      NothingRuns(system);
      var k := 0;
      assert Scripts(id, progress, wakes[..k]) == [];
      while k < |wakes|
        invariant 0 <= k == |sleeps| <= |wakes|
        invariant H.Inv(system) && waiting == old(waiting) && H.Fixed(system, id, deadline)
        invariant system == H.RunFrom(old(system), events) && events == Scripts(id, progress, wakes[..k])
        invariant forall sleep :: sleep in sleeps ==> Bounded(sleep, progress, deadline)
      {
        hide Scripts;
        var consume, taken, sleep, turn := Turn(id, progress, wakes[k], deadline);
        ScriptsSoFar(id, progress, wakes, k);
        RunsJoin(old(system), events, turn);
        if consume != H.Pending {
          AnsweredLater(old(system), events, turn, id, consume, taken);
          if consume == H.Consumed { ConsumedIsTaken(old(system), events + turn, id, taken, deadline); }
          PrefixBefore(events, turn, Script(id, progress, wakes[k]), Scripts(id, progress, wakes));
          return Some(consume), taken, sleeps, events + turn;
        }
        events := events + turn;
        sleeps := sleeps + [sleep];
        k := k + 1;
      }
      assert wakes[..k] == wakes;
      result := None;
    }

    /** One turn of the loop. */
    method Turn(id: nat, progress: bool, wake: Wake, deadline: nat)
      returns (consume: H.Consume, outcome: H.Outcome, sleep: Sleep, ghost events: seq<H.Event>)
      requires H.Inv(system) && H.Fixed(system, id, deadline)
      modifies this
      ensures H.Inv(system) && H.Fixed(system, id, deadline) && waiting == old(waiting)
      ensures system == H.RunFrom(old(system), events) && events <= Script(id, progress, wake)
      ensures consume == H.Pending ==> events == Script(id, progress, wake) && Bounded(sleep, progress, deadline)
      ensures consume != H.Pending ==> Answered(old(system), events, id, consume, outcome)
    {
      hide H.Inv, H.Fixed, H.Deadline, H.Take, H.RunFrom, Answered, Advanced;
      sleep := Sleep(0, 0);
      var now := wake.now;
      NothingRuns(system);
      consume, outcome, events := Attempt(id, now, deadline, system, []);
      if consume != H.Pending { return; }
      if progress {
        events := Others(Advanced(wake), id, deadline, old(system), events);
        now := wake.afterwards;
        consume, outcome, events := Attempt(id, now, deadline, old(system), events);
        if consume != H.Pending { return; }
      }
      waiting := waiting + 1;
      sleep := Sleep(now, if progress then 1 else deadline - now);
      events := Others(wake.more, id, deadline, old(system), events);
      waiting := waiting - 1;
    }

    /** Take under the mutex; a pending ticket still has its deadline ahead, so the exit is not taken. */
    method Attempt(id: nat, now: nat, deadline: nat, ghost start: H.System, ghost before: seq<H.Event>)
      returns (consume: H.Consume, outcome: H.Outcome, ghost events: seq<H.Event>)
      requires H.Inv(system) && H.Fixed(system, id, deadline) && system == H.RunFrom(start, before)
      modifies this`system
      ensures H.Inv(system) && H.Fixed(system, id, deadline)
      ensures events == before + [H.Taking(id, now)] && system == H.RunFrom(start, events)
      ensures Answered(start, events, id, consume, outcome)
      ensures consume == H.Pending ==> now < deadline
    {
      hide H.Inv, H.Fixed, H.Apply, H.Take;
      consume, outcome := H.Take(system.custody, id, now).1, H.Take(system.custody, id, now).2;
      events := before + [H.Taking(id, now)];
      assert events[..|before|] == before;
      if consume == H.Pending {
        H.PendingMeansEarly(system, id, now);
        KeepsDeadline(system, id, deadline);
      }
      H.ApplyKeeps(system, H.Taking(id, now));
      H.ApplyKeepsDeadline(system, H.Taking(id, now), id, deadline);
      system := H.Apply(system, H.Taking(id, now));
    }

    method Others(more: seq<H.Event>, id: nat, deadline: nat, ghost start: H.System, ghost before: seq<H.Event>)
      returns (ghost events: seq<H.Event>)
      requires H.Inv(system) && H.Fixed(system, id, deadline) && system == H.RunFrom(start, before)
      modifies this`system
      ensures H.Inv(system) && H.Fixed(system, id, deadline)
      ensures events == before + more && system == H.RunFrom(start, events)
    {
      hide H.Inv, H.Fixed, H.RunFrom;
      H.RunFromKeeps(system, more);
      H.DeadlineStays(system, more, id, deadline);
      RunsJoin(start, before, more);
      events := before + more;
      system := H.RunFrom(system, more);
    }
  }

  lemma NothingRuns(s: H.System)
    ensures H.RunFrom(s, []) == s
  {
  }

  lemma {:induction false} RunsJoin(s: H.System, first: seq<H.Event>, second: seq<H.Event>)
    ensures H.RunFrom(s, first + second) == H.RunFrom(H.RunFrom(s, first), second)
  {
    hide H.Apply;
    if second == [] {
      assert first + second == first;
    } else {
      assert (first + second)[..|first + second| - 1] == first + second[..|second| - 1];
      RunsJoin(s, first, second[..|second| - 1]);
    }
  }

  lemma AnsweredLater(s: H.System, before: seq<H.Event>, turn: seq<H.Event>, id: nat, consume: H.Consume,
                      outcome: H.Outcome)
    requires Answered(H.RunFrom(s, before), turn, id, consume, outcome)
    ensures Answered(s, before + turn, id, consume, outcome)
  {
    hide H.RunFrom, H.Take;
    assert (before + turn)[..|before + turn| - 1] == before + turn[..|turn| - 1];
    RunsJoin(s, before, turn[..|turn| - 1]);
  }

  lemma PrefixBefore<T>(before: seq<T>, turn: seq<T>, script: seq<T>, all: seq<T>)
    requires turn <= script && before + script <= all
    ensures before + turn <= all
  {
    assert (before + script)[..|before + turn|] == before + turn;
  }

  lemma FirstTake(id: nat, progress: bool, wakes: seq<Wake>)
    requires wakes != []
    ensures [H.Taking(id, wakes[0].now)] <= Scripts(id, progress, wakes)
  {
    ScriptsSoFar(id, progress, wakes, 0);
    assert Scripts(id, progress, wakes[..0]) == [];
  }

  /** A take that consumed the ticket is on record, under the deadline the ticket was issued with. */
  lemma ConsumedIsTaken(s: H.System, events: seq<H.Event>, id: nat, outcome: H.Outcome, deadline: nat)
    requires H.Inv(s) && H.Fixed(s, id, deadline) && Answered(s, events, id, H.Consumed, outcome)
    ensures JustTaken(H.RunFrom(s, events), id, outcome, deadline)
  {
    H.DeadlineStays(s, events[..|events| - 1], id, deadline);
    hide H.Inv;
  }

  lemma KeepsDeadline(s: H.System, id: nat, deadline: nat)
    requires H.Fixed(s, id, deadline) && H.Deadline(s.custody, id).Some?
    ensures H.Deadline(s.custody, id).value == deadline
  {
  }

  lemma UnknownIsNotPending(s: H.System, id: nat, now: nat)
    requires H.Deadline(s.custody, id).None?
    ensures H.Take(s.custody, id, now) == (s.custody, H.Unfound, H.Unknown)
    ensures H.RunFrom(s, [H.Taking(id, now)]) == s
    ensures Answered(s, [H.Taking(id, now)], id, H.Unfound, H.Unknown)
  {
    assert [H.Taking(id, now)][..0] == [];
  }

  lemma FoundIsIssued(s: H.System, id: nat)
    requires H.Inv(s) && H.Deadline(s.custody, id).Some?
    ensures H.Fixed(s, id, H.Deadline(s.custody, id).value)
  {
  }
}
