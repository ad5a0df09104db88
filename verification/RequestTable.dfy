/** The retained handlers in place (bridge_requests.cpp). */
module RequestTable {
  import opened Bytes
  import opened Requests
  import H = Handoff

  /** The table in place. */
  class Contexts {
    const entries: array<Option<nat>>
    var handoff: H.System
    var closed: bool
    ghost var foreign: set<nat>

    ghost function View(): System
      reads this, entries
    {
      System(handoff, entries[..], closed, foreign, false)
    }

    ghost predicate Valid()
      reads this, entries
    {
      entries.Length == 16 && Inv(View())
    }

    constructor ()
      ensures Valid() && fresh(entries) && View() == Fresh()
    {
      entries := new Option<nat>[16](i => None);
      handoff, closed, foreign := H.Run([]), false, {};
      new;
      assert entries[..] == Fresh().handlers;
      FreshInv();
    }

    method Search(id: nat) returns (slot: Option<nat>)
      requires entries.Length == 16
      ensures slot == Find(entries[..], id)
    {
      var i := 0;
      while i < 16
        invariant 0 <= i <= 16
        invariant forall j :: 0 <= j < i ==> entries[j] != Some(id)
      {
        if entries[i] == Some(id) {
          FindsFirst(entries[..], id, i);
          return Some(i);
        }
        i := i + 1;
      }
      return None;
    }

    method SearchFree() returns (slot: Option<nat>)
      requires entries.Length == 16
      ensures slot == FreeSlot(entries[..])
    {
      var i := 0;
      while i < 16 && entries[i].Some?
        invariant 0 <= i <= 16
        invariant forall j :: 0 <= j < i ==> entries[j].Some?
      {
        i := i + 1;
      }
      if i == 16 { return None; }
      FreesFirst(entries[..], i);
      return Some(i);
    }

    method Start(admissible: bool, now: nat, deadline: nat)
      requires Valid()
      modifies this`handoff, entries
      ensures Valid() && View() == Requests.Start(old(View()), admissible, now, deadline)
    {
      StartKeeps(View(), admissible, now, deadline);
      hide Inv, H.Reserve, FreeSlot;
      if closed || handoff.custody.closed || !admissible { return; }
      var slot := SearchFree();
      if slot.None? { return; }
      var admission := H.Reserve(handoff.custody, now, deadline).1;
      handoff := H.Apply(handoff, H.Reserving(now, deadline));
      if admission == H.Reserved { entries[slot.value] := Some(handoff.custody.greatest); }
    }

    method Respond(id: nat, now: nat) returns (reply: Reply)
      requires Valid()
      modifies this`handoff, entries
      ensures Valid() && (View(), reply) == Requests.Respond(old(View()), id, now)
    {
      RespondKeeps(View(), id, now);
      NeverExits(View(), id, now);
      hide Inv, H.Take, Requests.Find;
      var slot := Search(id);
      if slot.None? { return NotFound; }
      var (_, consume, outcome) := H.Take(handoff.custody, id, now);
      handoff := H.Apply(handoff, H.Taking(id, now));
      if consume == H.Pending { return StillBusy; }
      if consume == H.BadClock { return BadArgument; }
      entries[slot.value] := None;
      return Answered(outcome);
    }

    method Finish(now: nat)
      requires Valid()
      modifies this, entries
      ensures Valid() && View() == Requests.Finish(old(View()), now)
    {
      ghost var start := View();
      FinishKeeps(start, now);
      closed := true;
      handoff := H.Apply(handoff, H.Closing);
      CloseKeeps(start);
      hide Inv, H.Apply, Requests.Respond;
      var i := 0;
      while i < 16
        invariant 0 <= i <= 16 && Valid() && View().handoff.custody.closed
        invariant Drain(View(), i, now) == Requests.Finish(start, now)
      {
        if entries[i].Some? {
          ClosedAnswers(View(), entries[i].value, now);
          var reply := Respond(entries[i].value, now);
        }
        i := i + 1;
      }
    }
  }

  lemma {:induction false} FindsFirst(handlers: seq<Option<nat>>, id: nat, i: nat)
    requires i < |handlers| && handlers[i] == Some(id) && forall j :: 0 <= j < i ==> handlers[j] != Some(id)
    ensures Find(handlers, id) == Some(i)
    decreases i
  {
    if i > 0 { FindsFirst(handlers[1..], id, i - 1); }
  }

  lemma {:induction false} FreesFirst(handlers: seq<Option<nat>>, i: nat)
    requires i < |handlers| && handlers[i].None? && forall j :: 0 <= j < i ==> handlers[j].Some?
    ensures FreeSlot(handlers) == Some(i)
    decreases i
  {
    if i > 0 { FreesFirst(handlers[1..], i - 1); }
  }

  lemma NeverExits(s: System, id: nat, now: nat)
    requires Inv(s)
    ensures Find(s.handlers, id).Some? ==> H.Take(s.handoff.custody, id, now).1 != H.Unfound
  {
    hide H.Inv, LiveIds, H.Take;
    LiveAfterTake(s.handoff, id, now);
    if Find(s.handlers, id).Some? { assert s.handlers[Find(s.handlers, id).value].value in HandlerIds(s.handlers); }
  }

  lemma CloseKeeps(s: System)
    requires Inv(s)
    ensures Inv(s.(closed := true, handoff := H.Apply(s.handoff, H.Closing)))
    ensures H.Apply(s.handoff, H.Closing).custody.closed
  {
    hide H.Inv, LiveIds, HandlerIds;
    H.ApplyKeeps(s.handoff, H.Closing);
    LiveOtherwise(s.handoff, H.Closing);
  }
}
