/**
 The table of retained command handlers (bridge_requests.cpp) over custody it shares with other owners.
 Other owners reserve and take tickets of their own; anyone may resolve, sample or close.
 */
module Requests {
  import opened Bytes
  import H = Handoff

  datatype Reply = Answered(outcome: H.Outcome) | NotFound | StillBusy | BadArgument

  /** `handlers[i]` is the id of the ticket retained in slot i; `foreign` the ids other owners reserved. */
  datatype System = System(
    handoff: H.System, handlers: seq<Option<nat>>, closed: bool, foreign: set<nat>, exited: bool)

  function Fresh(): System { System(H.Run([]), seq(16, i => None), false, {}, false) }

  function FreeSlot(handlers: seq<Option<nat>>): (r: Option<nat>)
    ensures r.Some? ==> r.value < |handlers| && handlers[r.value].None?
    ensures r.None? <==> forall i :: 0 <= i < |handlers| ==> handlers[i].Some?
  {
    if handlers == [] then None
    else if handlers[0].None? then Some(0)
    else var rest := FreeSlot(handlers[1..]); if rest.None? then None else Some(rest.value + 1)
  }

  function Find(handlers: seq<Option<nat>>, id: nat): (r: Option<nat>)
    ensures r.Some? ==> r.value < |handlers| && handlers[r.value] == Some(id)
    ensures r.None? <==> forall i :: 0 <= i < |handlers| ==> handlers[i] != Some(id)
  {
    if handlers == [] then None
    else if handlers[0] == Some(id) then Some(0)
    else var rest := Find(handlers[1..], id); if rest.None? then None else Some(rest.value + 1)
  }

  /** `Start`: guards and argument copying (`admissible`) come before the reservation. */
  function Start(s: System, admissible: bool, now: nat, deadline: nat): System {
    if s.closed || s.handoff.custody.closed || !admissible then s
    else
      var slot := FreeSlot(s.handlers);
      if slot.None? then s
      else
        var v := s.(handoff := H.Apply(s.handoff, H.Reserving(now, deadline)));
        if H.Reserve(s.handoff.custody, now, deadline).1 == H.Reserved
        then v.(handlers := s.handlers[slot.value := Some(v.handoff.custody.greatest)])
        else v
  }

  /** `Respond`: takes the ticket and releases its handler; a ticket missing from custody exits the process. */
  function Respond(s: System, id: nat, now: nat): (System, Reply) {
    var slot := Find(s.handlers, id);
    if slot.None? then (s, NotFound)
    else
      var (c, consume, outcome) := H.Take(s.handoff.custody, id, now);
      var v := s.(handoff := H.Apply(s.handoff, H.Taking(id, now)));
      match consume
      case Pending => (v, StillBusy)
      case BadClock => (v, BadArgument)
      case Unfound => (v.(exited := true), NotFound)
      case Consumed => (v.(handlers := s.handlers[slot.value := None]), Answered(outcome))
  }

  /** The loop of `Finish` from slot `i`: each retained ticket is answered; a completed one exits the process. */
  function Drain(s: System, i: nat, now: nat): System
    decreases 16 - i
  {
    if i >= 16 || i >= |s.handlers| then s
    else if s.handlers[i].None? then Drain(s, i + 1, now)
    else
      var (v, reply) := Respond(s, s.handlers[i].value, now);
      Drain(if reply == Answered(H.Completed) then v.(exited := true) else v, i + 1, now)
  }

  function Finish(s: System, now: nat): System {
    Drain(s.(closed := true, handoff := H.Apply(s.handoff, H.Closing)), 0, now)
  }

  datatype Event =
    | Starting(admissible: bool, now: nat, deadline: nat)
    | Responding(id: nat, now: nat)
    | Finishing(now: nat)
    | Elsewhere(e: H.Event)

  /** What other owners do: they take only tickets they reserved. */
  predicate Allowed(s: System, e: H.Event) { e.Taking? ==> e.id in s.foreign }

  function Apply(s: System, e: Event): System {
    match e
    case Starting(admissible, now, deadline) => Start(s, admissible, now, deadline)
    case Responding(id, now) => Respond(s, id, now).0
    case Finishing(now) => Finish(s, now)
    case Elsewhere(h) =>
      if !Allowed(s, h) then s
      else
        var v := s.(handoff := H.Apply(s.handoff, h));
        if h.Reserving? && H.Reserve(s.handoff.custody, h.now, h.deadline).1 == H.Reserved
        then v.(foreign := s.foreign + {v.handoff.custody.greatest}) else v
  }

  function Run(events: seq<Event>): System {
    if events == [] then Fresh() else Apply(Run(events[..|events| - 1]), events[|events| - 1])
  }

  // ----- the invariant

  function LiveIds(c: H.Custody): set<nat> {
    set i | 0 <= i < |c.entries| && c.entries[i].id != 0 :: c.entries[i].id
  }

  function HandlerIds(handlers: seq<Option<nat>>): set<nat> {
    set i | 0 <= i < |handlers| && handlers[i].Some? :: handlers[i].value
  }

  /** Live tickets are exactly the retained handlers' and, apart from those, other owners'. */
  ghost predicate Mirror(custody: H.Custody, handlers: seq<Option<nat>>, foreign: set<nat>) {
    && |handlers| == 16
    && (forall i, j :: 0 <= i < j < 16 && handlers[i].Some? ==> handlers[i] != handlers[j])
    && HandlerIds(handlers) !! foreign
    && HandlerIds(handlers) <= LiveIds(custody) <= HandlerIds(handlers) + foreign
    && (forall x :: x in foreign ==> x <= custody.greatest)
    && (forall x :: x in LiveIds(custody) ==> 0 < x <= custody.greatest)
  }

  ghost predicate Inv(s: System) {
    H.Inv(s.handoff) && Mirror(s.handoff.custody, s.handlers, s.foreign) && !s.exited
  }

  lemma LiveAfterReserve(s: H.System, now: nat, deadline: nat)
    requires H.Inv(s)
    ensures var (d, admission) := H.Reserve(s.custody, now, deadline);
            if admission == H.Reserved
            then d.greatest == s.custody.greatest + 1 && LiveIds(d) == LiveIds(s.custody) + {d.greatest}
            else d.greatest == s.custody.greatest && LiveIds(d) == LiveIds(s.custody)
  {
    hide H.Occupied, H.TakenInv, H.OutcomeInv;
    var c := s.custody;
    var (d, admission) := H.Reserve(c, now, deadline);
    if admission == H.Reserved {
      var slot := H.FirstFree(c.entries).value;
      forall x | x in LiveIds(c) + {d.greatest} ensures x in LiveIds(d) {
        if x == d.greatest {
          assert d.entries[slot].id == x;
        } else {
          var i :| 0 <= i < |c.entries| && c.entries[i].id != 0 && c.entries[i].id == x;
          assert d.entries[i].id == x;
        }
      }
      forall x | x in LiveIds(d) ensures x in LiveIds(c) + {d.greatest} {
        var i :| 0 <= i < |d.entries| && d.entries[i].id != 0 && d.entries[i].id == x;
        assert i == slot || c.entries[i].id == x;
      }
    }
  }

  lemma LiveAfterTake(s: H.System, id: nat, now: nat)
    requires H.Inv(s)
    ensures var d := H.Take(s.custody, id, now).0;
            && d.greatest == s.custody.greatest
            && LiveIds(d) == LiveIds(s.custody) - (if H.Take(s.custody, id, now).1 == H.Consumed then {id} else {})
            && (H.Take(s.custody, id, now).1 == H.Unfound <==> id !in LiveIds(s.custody))
  {
    hide H.Occupied, H.TakenInv, H.OutcomeInv;
    var c := s.custody;
    var (d, consume, outcome) := H.Take(c, id, now);
    var found := H.Find(c.entries, id);
    if found.Some? { assert c.entries[found.value].id in LiveIds(c); }
    if consume == H.Consumed {
      forall x | x in LiveIds(c) && x != id ensures x in LiveIds(d) {
        var i :| 0 <= i < |c.entries| && c.entries[i].id != 0 && c.entries[i].id == x;
        assert d.entries[i].id == x;
      }
      forall x | x in LiveIds(d) ensures x in LiveIds(c) && x != id {
        var i :| 0 <= i < |d.entries| && d.entries[i].id != 0 && d.entries[i].id == x;
        assert c.entries[i].id == x && i != found.value;
      }
    }
  }

  /** Resolving, sampling and closing move no ticket. */
  lemma LiveOtherwise(s: H.System, e: H.Event)
    requires e.Resolving? || e.Sampling? || e.Closing?
    ensures var d := H.Apply(s, e).custody; d.greatest == s.custody.greatest && LiveIds(d) == LiveIds(s.custody)
  {
    SameIds(s.custody, H.Apply(s, e).custody);
  }

  lemma SameIds(c: H.Custody, d: H.Custody)
    requires |d.entries| == |c.entries| && forall i :: 0 <= i < |c.entries| ==> d.entries[i].id == c.entries[i].id
    ensures LiveIds(d) == LiveIds(c)
  {
    forall x | x in LiveIds(c) ensures x in LiveIds(d) {
      var i :| 0 <= i < |c.entries| && c.entries[i].id != 0 && c.entries[i].id == x;
      assert d.entries[i].id == x;
    }
    forall x | x in LiveIds(d) ensures x in LiveIds(c) {
      var i :| 0 <= i < |d.entries| && d.entries[i].id != 0 && d.entries[i].id == x;
      assert c.entries[i].id == x;
    }
  }

  lemma HandlersWith(handlers: seq<Option<nat>>, i: nat, id: nat)
    requires i < |handlers| && handlers[i].None?
    ensures HandlerIds(handlers[i := Some(id)]) == HandlerIds(handlers) + {id}
  {
    var more := handlers[i := Some(id)];
    forall x | x in HandlerIds(handlers) + {id} ensures x in HandlerIds(more) {
      if x == id {
        assert more[i] == Some(id);
      } else {
        var j :| 0 <= j < |handlers| && handlers[j].Some? && handlers[j].value == x;
        assert more[j] == Some(x);
      }
    }
    forall x | x in HandlerIds(more) ensures x in HandlerIds(handlers) + {id} {
      var j :| 0 <= j < |more| && more[j].Some? && more[j].value == x;
      assert j == i || handlers[j] == Some(x);
    }
  }

  lemma HandlersWithout(handlers: seq<Option<nat>>, i: nat, id: nat)
    requires i < |handlers| && handlers[i] == Some(id)
    requires forall j :: 0 <= j < |handlers| && j != i ==> handlers[j] != Some(id)
    ensures HandlerIds(handlers[i := None]) == HandlerIds(handlers) - {id}
  {
    var less := handlers[i := None];
    forall x | x in HandlerIds(handlers) && x != id ensures x in HandlerIds(less) {
      var j :| 0 <= j < |handlers| && handlers[j].Some? && handlers[j].value == x;
      assert less[j] == Some(x);
    }
    forall x | x in HandlerIds(less) ensures x in HandlerIds(handlers) && x != id {
      var j :| 0 <= j < |less| && less[j].Some? && less[j].value == x;
      assert handlers[j] == Some(x);
    }
  }

  lemma StartKeeps(s: System, admissible: bool, now: nat, deadline: nat)
    requires Inv(s)
    ensures Inv(Start(s, admissible, now, deadline))
  {
    hide H.Inv, LiveIds, H.Reserve;
    H.ApplyKeeps(s.handoff, H.Reserving(now, deadline));
    LiveAfterReserve(s.handoff, now, deadline);
    var slot := FreeSlot(s.handlers);
    if slot.Some? {
      NewIdIsNobodys(s.handoff.custody, s.handlers);
      HandlersWith(s.handlers, slot.value, s.handoff.custody.greatest + 1);
      hide HandlerIds;
    }
  }

  lemma NewIdIsNobodys(c: H.Custody, handlers: seq<Option<nat>>)
    requires HandlerIds(handlers) <= LiveIds(c) && forall x :: x in LiveIds(c) ==> x <= c.greatest
    ensures forall i :: 0 <= i < |handlers| ==> handlers[i] != Some(c.greatest + 1)
  {
    hide LiveIds;
    forall i | 0 <= i < |handlers| && handlers[i].Some? ensures handlers[i].value <= c.greatest {
      assert handlers[i].value in HandlerIds(handlers);
    }
  }

  lemma RespondKeeps(s: System, id: nat, now: nat)
    requires Inv(s)
    ensures Inv(Respond(s, id, now).0)
  {
    hide H.Inv, LiveIds, H.Take;
    var slot := Find(s.handlers, id);
    if slot.Some? {
      H.ApplyKeeps(s.handoff, H.Taking(id, now));
      LiveAfterTake(s.handoff, id, now);
      assert s.handlers[slot.value].value in HandlerIds(s.handlers);
      HandlersWithout(s.handlers, slot.value, id);
      hide HandlerIds;
    }
  }

  lemma ElsewhereKeeps(s: System, e: H.Event)
    requires Inv(s)
    ensures Inv(Apply(s, Elsewhere(e)))
  {
    hide H.Inv, LiveIds, HandlerIds, H.Reserve, H.Take, H.Resolve, H.Sample, H.Close;
    if Allowed(s, e) {
      H.ApplyKeeps(s.handoff, e);
      match e
      case Reserving(now, deadline) => LiveAfterReserve(s.handoff, now, deadline);
      case Taking(id, now) => LiveAfterTake(s.handoff, id, now);
      case Resolving(id, outcome, now) => LiveOtherwise(s.handoff, e);
      case Sampling(ours, now) => LiveOtherwise(s.handoff, e);
      case Closing => LiveOtherwise(s.handoff, e);
    }
  }

  // ----- finishing

  /** Once custody is closed every take that succeeds gives `Closed`. */
  lemma ClosedAnswers(s: System, id: nat, now: nat)
    requires Inv(s) && s.handoff.custody.closed
    ensures var (v, reply) := Respond(s, id, now);
            && v.handoff.custody.closed
            && (reply.Answered? ==> reply == Answered(H.Closed))
            && (H.TimeAccepted(s.handoff.custody, now) ==> reply.Answered? || reply == NotFound)
            && (H.TimeAccepted(s.handoff.custody, now) ==> H.TimeAccepted(v.handoff.custody, now))
  {
    hide H.Occupied, H.TakenInv, LiveIds, HandlerIds;
  }

  lemma {:induction false} DrainKeeps(s: System, i: nat, now: nat)
    requires Inv(s) && s.handoff.custody.closed && i <= 16
    ensures Inv(Drain(s, i, now))
    ensures H.TimeAccepted(s.handoff.custody, now) && (forall j :: 0 <= j < i ==> s.handlers[j].None?) ==>
              forall j :: 0 <= j < 16 ==> Drain(s, i, now).handlers[j].None?
    decreases 16 - i
  {
    hide Inv, Respond, H.TimeAccepted;
    Sixteen(s);
    if i < 16 {
      if s.handlers[i].None? {
        DrainKeeps(s, i + 1, now);
      } else {
        var id := s.handlers[i].value;
        RespondKeeps(s, id, now);
        ClosedAnswers(s, id, now);
        AnsweredIsReleased(s, i, now);
        var v := Respond(s, id, now).0;
        Sixteen(v);
        DrainKeeps(v, i + 1, now);
      }
    }
  }

  lemma Sixteen(s: System)
    requires Inv(s)
    ensures |s.handlers| == 16
  {
  }

  lemma AnsweredIsReleased(s: System, i: nat, now: nat)
    requires Inv(s) && i < 16 && |s.handlers| == 16 && s.handlers[i].Some?
    ensures var (v, reply) := Respond(s, s.handlers[i].value, now);
            && reply != NotFound
            && |v.handlers| == 16
            && (reply.Answered? ==> v.handlers == s.handlers[i := None])
  {
    hide H.Inv, LiveIds, H.Take;
    var id := s.handlers[i].value;
    assert Find(s.handlers, id) == Some(i);
    LiveAfterTake(s.handoff, id, now);
    assert id in HandlerIds(s.handlers);
  }

  lemma FinishKeeps(s: System, now: nat)
    requires Inv(s)
    ensures Inv(Finish(s, now))
    ensures H.TimeAccepted(s.handoff.custody, now) ==> forall j :: 0 <= j < |Finish(s, now).handlers| ==>
              Finish(s, now).handlers[j].None?
  {
    hide H.Inv, LiveIds, HandlerIds, Drain;
    H.ApplyKeeps(s.handoff, H.Closing);
    LiveOtherwise(s.handoff, H.Closing);
    var shut := s.(closed := true, handoff := H.Apply(s.handoff, H.Closing));
    DrainKeeps(shut, 0, now);
    Sixteen(Finish(s, now));
  }

  lemma ApplyKeeps(s: System, e: Event)
    requires Inv(s)
    ensures Inv(Apply(s, e))
  {
    match e
    case Starting(admissible, now, deadline) => StartKeeps(s, admissible, now, deadline);
    case Responding(id, now) => RespondKeeps(s, id, now);
    case Finishing(now) => FinishKeeps(s, now);
    case Elsewhere(h) => ElsewhereKeeps(s, h);
  }

  lemma FreshInv()
    ensures Inv(Fresh())
  {
    H.VacantInv();
    assert LiveIds(H.Vacant()) == {} && HandlerIds(Fresh().handlers) == {};
  }

  lemma {:induction false} RunKeeps(events: seq<Event>)
    ensures Inv(Run(events))
  {
    hide Inv, Apply;
    if events == [] {
      FreshInv();
    } else {
      RunKeeps(events[..|events| - 1]);
      ApplyKeeps(Run(events[..|events| - 1]), events[|events| - 1]);
    }
  }

  /**
   In every history the retained handlers are exactly the live tickets that other owners did not reserve, each
   retained once; so neither the exit in `Respond` nor the one in `Finish` is ever reached.
   */
  lemma HandlersMirrorLiveTickets(events: seq<Event>)
    ensures var s := Run(events);
            && !s.exited && |s.handlers| == 16
            && HandlerIds(s.handlers) == LiveIds(s.handoff.custody) - s.foreign
            && (forall i, j :: 0 <= i < j < 16 && s.handlers[i].Some? ==> s.handlers[i] != s.handlers[j])
  {
    RunKeeps(events);
    hide Run, H.Inv, LiveIds, HandlerIds;
  }

  /** At a rejected clock reading a retained ticket is not taken and nothing changes. */
  lemma RejectedChangesNothing(s: System, i: nat, now: nat)
    requires Inv(s) && i < |s.handlers| && s.handlers[i].Some? && !H.TimeAccepted(s.handoff.custody, now)
    ensures Respond(s, s.handlers[i].value, now) == (s, BadArgument)
  {
    hide H.Inv, H.TimeAccepted;
    var id := s.handlers[i].value;
    assert id in HandlerIds(s.handlers);
    assert id in LiveIds(s.handoff.custody);
    assert Find(s.handlers, id).Some?;
  }

  lemma {:induction false} RejectedDrainChangesNothing(s: System, i: nat, now: nat)
    requires Inv(s) && !H.TimeAccepted(s.handoff.custody, now)
    ensures Drain(s, i, now) == s
    decreases 16 - i
  {
    hide Inv, Respond, H.TimeAccepted;
    if i < 16 && i < |s.handlers| {
      if s.handlers[i].Some? { RejectedChangesNothing(s, i, now); }
      RejectedDrainChangesNothing(s, i + 1, now);
    }
  }

  lemma RejectedFinish(s: System, now: nat)
    requires Inv(s) && !H.TimeAccepted(s.handoff.custody, now)
    ensures Finish(s, now) == s.(closed := true, handoff := H.Apply(s.handoff, H.Closing))
  {
    hide H.Inv, LiveIds, HandlerIds, Drain;
    H.ApplyKeeps(s.handoff, H.Closing);
    LiveOtherwise(s.handoff, H.Closing);
    RejectedDrainChangesNothing(s.(closed := true, handoff := H.Apply(s.handoff, H.Closing)), 0, now);
  }

  predicate Unused(handlers: seq<Option<nat>>) { forall i :: 0 <= i < |handlers| ==> handlers[i].None? }

  /**
   `Finish` always closes custody. Exactly at a time custody accepts, or with none retained, it leaves no handler
   behind: at an accepted time it releases every one, at a rejected time it releases none.
   */
  lemma FinishReleasesEverything(events: seq<Event>, now: nat)
    ensures var r, s := Run(events), Finish(Run(events), now);
            var accepted := H.TimeAccepted(r.handoff.custody, now);
            && !s.exited && s.closed && s.handoff.custody.closed
            && (accepted ==> Unused(s.handlers) && LiveIds(s.handoff.custody) <= s.foreign)
            && (!accepted ==> s.handlers == r.handlers)
            && (Unused(s.handlers) <==> accepted || Unused(r.handlers))
  {
    RunKeeps(events);
    FinishKeeps(Run(events), now);
    FinishCloses(Run(events), now);
    hide H.Inv, LiveIds, Finish, Run, HandlerIds, H.TimeAccepted;
    if H.TimeAccepted(Run(events).handoff.custody, now) {
      NoHandlers(Finish(Run(events), now).handlers);
    } else {
      RejectedFinish(Run(events), now);
    }
  }

  lemma NoHandlers(handlers: seq<Option<nat>>)
    requires forall i :: 0 <= i < |handlers| ==> handlers[i].None?
    ensures HandlerIds(handlers) == {}
  {
  }

  lemma {:induction false} DrainStaysClosed(s: System, i: nat, now: nat)
    ensures Drain(s, i, now).closed == s.closed && Drain(s, i, now).handoff.custody.closed == s.handoff.custody.closed
    decreases 16 - i
  {
    hide Respond;
    if i < 16 && i < |s.handlers| {
      if s.handlers[i].None? {
        DrainStaysClosed(s, i + 1, now);
      } else {
        var (v, reply) := Respond(s, s.handlers[i].value, now);
        RespondStaysClosed(s, s.handlers[i].value, now);
        DrainStaysClosed(if reply == Answered(H.Completed) then v.(exited := true) else v, i + 1, now);
      }
    }
  }

  lemma RespondStaysClosed(s: System, id: nat, now: nat)
    ensures var v := Respond(s, id, now).0;
            v.closed == s.closed && v.handoff.custody.closed == s.handoff.custody.closed
  {
    hide Find, H.Find;
  }

  lemma FinishCloses(s: System, now: nat)
    ensures Finish(s, now).closed && Finish(s, now).handoff.custody.closed
  {
    DrainStaysClosed(s.(closed := true, handoff := H.Apply(s.handoff, H.Closing)), 0, now);
  }
}
