/**
 Approved-state delivery (bridge_sdk_observations.cpp): submissions reserve an output slot, wait in a
 queue, are applied under the SDK lock one at a time, wait in a second queue for publication, and are
 committed as receipts. Producers, the SDK callback, the worker and the writer interleave freely; each
 step is one section under a mutex.
 */
module Observations {
  import opened Bytes
  import B = BridgeOutput
  import R = BridgeOutputRuns
  import Late = BridgeReceipts

  const CAPACITY: nat := 64

  datatype Outcome = Applied | Refused

  /** What custody said of the clock, and what the endpoint then said of the value. */
  datatype Sample = Sampled(outcome: Outcome) | Closed | Rejected

  /** A submission under its reservation, and the same once it has been applied. */
  datatype Work = Work(generation: nat, id: nat, ticket: B.Ticket)
  datatype Publication = Publication(work: Work, outcome: Outcome)

  /** The text of a receipt for a generation, an id and an outcome. */
  type Encoder = (nat, nat, Outcome) -> string

  /** What the writer is to be handed for a publication. */
  function Receipt(encode: Encoder, p: Publication): B.Pending {
    B.Pending(p.work.ticket.slot, p.work.ticket.identity, encode(p.work.generation, p.work.id, p.outcome))
  }

  /**
   `working` is the submission between the two sections of `ApplyOne`; `committing` the publication the
   worker has taken off its queue. `events` is the history of the output owner, `accepted` the submissions
   accepted, `applied` what became of each reservation's value, `committed` the publications committed.
   */
  datatype System = System(
    events: seq<B.Event>, queue: seq<Work>, working: seq<Work>, published: seq<Publication>,
    committing: seq<Publication>, started: bool, stopping: bool, exited: bool,
    accepted: seq<Work>, applied: map<nat, Outcome>, committed: seq<Publication>)

  const FIRST: System := System([], [], [], [], [], false, false, false, [], map[], [])

  function Output(s: System): Option<B.Owner> { R.Run(s.events) }

  predicate Sized(o: Option<B.Owner>) { o.Some? && |o.value.slots| == B.SLOTS }

  datatype Event =
    | Starting
    | Submitting(valid: bool, generation: nat, id: nat)
    | Beginning
    | Sampling(sample: Sample)
    | Publishing
    | Committing(encoded: bool, memory: bool)
    | Stopping
    | Clearing
    | Outputting(e: B.Event)

  function Submit(s: System, valid: bool, generation: nat, id: nat): System
    requires Sized(Output(s))
  {
    if !valid || id == 0 || !s.started || s.stopping || |s.queue| == CAPACITY then s
    else
      var (o, admission, ticket) := B.Reserve(Output(s).value);
      if admission != B.Accepted then s.(events := s.events + [B.Reserving])
      else
        var work := Work(generation, id, ticket);
        s.(events := s.events + [B.Reserving], queue := s.queue + [work], accepted := s.accepted + [work])
  }

  /** First section of `ApplyOne`; the SDK stack lock admits one caller at a time. */
  function Begin(s: System): System {
    if s.working != [] || s.stopping || s.queue == [] then s
    else s.(working := [s.queue[0]], queue := s.queue[1..])
  }

  /** Second section: a sampled submission is published; otherwise it is dropped, and a rejected sample ends output. */
  function Complete(s: System, sample: Sample): System {
    if s.working == [] then s
    else
      match sample
      case Closed => s.(working := [])
      case Rejected => s.(working := [], events := s.events + [B.Ending(B.Ended)])
      case Sampled(outcome) =>
        var t := s.(applied := s.applied[s.working[0].ticket.identity := outcome]);
        if s.stopping then t.(working := [])
        else if |s.published| == CAPACITY then t.(exited := true)
        else t.(working := [], published := s.published + [Publication(s.working[0], outcome)])
  }

  /** The worker takes the oldest publication. */
  function Publish(s: System): System {
    if s.stopping || s.committing != [] || s.published == [] then s
    else s.(committing := [s.published[0]], published := s.published[1..])
  }

  /** `encoded` fails only for want of memory. */
  function Commit(encode: Encoder, s: System, encoded: bool, memory: bool): System
    requires Sized(Output(s))
  {
    if s.committing == [] then s
    else
      var done, p := s.(committing := []), s.committing[0];
      var e := B.Committing(p.work.ticket, Receipt(encode, p).frame, memory);
      if !encoded then done.(events := s.events + [B.Ending(B.Ended)])
      else if B.Commit(Output(s).value, e.ticket, e.frame, memory).1 == B.Accepted then
        done.(events := s.events + [e], committed := s.committed + [p])
      else done.(events := s.events + [e, B.Ending(B.Ended)])
  }

  /** Output events of other producers and of the writer; only this owner reserves and commits. */
  predicate Foreign(e: B.Event) { !e.Reserving? && !e.Committing? }

  function Apply(encode: Encoder, s: System, e: Event): System {
    if s.exited || !Sized(Output(s)) then s
    else
      match e
      case Starting => if s.stopping then s else s.(started := true)
      case Submitting(valid, generation, id) => Submit(s, valid, generation, id)
      case Beginning => Begin(s)
      case Sampling(sample) => Complete(s, sample)
      case Publishing => Publish(s)
      case Committing(encoded, memory) => Commit(encode, s, encoded, memory)
      case Stopping => s.(stopping := true)
      case Clearing => if s.stopping && s.committing == [] then s.(queue := [], published := []) else s
      case Outputting(o) => if Foreign(o) then s.(events := s.events + [o]) else s
  }

  function Run(encode: Encoder, events: seq<Event>): System {
    if events == [] then FIRST else Apply(encode, Run(encode, events[..|events| - 1]), events[|events| - 1])
  }

  // ----- what every step keeps

  function Works(publications: seq<Publication>): (r: seq<Work>)
    ensures |r| == |publications|
    ensures forall i :: 0 <= i < |publications| ==> r[i] == publications[i].work
  {
    seq(|publications|, i requires 0 <= i < |publications| => publications[i].work)
  }

  /** Submissions in hand, oldest first. */
  function Held(s: System): seq<Work> { Works(s.committing) + Works(s.published) + s.working + s.queue }

  function Identities(works: seq<Work>): (r: seq<nat>)
    ensures |r| == |works|
    ensures forall i :: 0 <= i < |works| ==> r[i] == works[i].ticket.identity
  {
    seq(|works|, i requires 0 <= i < |works| => works[i].ticket.identity)
  }

  ghost predicate Rising(works: seq<Work>) { Late.Rising(Identities(works)) }

  predicate LiveOutput(o: B.Owner) { o.state == B.Open && o.terminal == 0 }

  predicate Reserved(o: B.Owner, t: B.Ticket)
    requires |o.slots| == B.SLOTS
  {
    && B.CONTROLS_END <= t.slot < B.SLOTS
    && o.slots[t.slot].state == B.Reserved && o.slots[t.slot].identity == t.identity
  }

  /** While output is live every submission in hand has a reserved slot of its own. */
  ghost predicate HeldInv(o: B.Owner, held: seq<Work>)
    requires |o.slots| == B.SLOTS
  {
    && (LiveOutput(o) ==> forall i :: 0 <= i < |held| ==> Reserved(o, held[i].ticket))
    && |held| <= CAPACITY
  }

  /** Committed submissions and those in hand rise by identity, and are accepted ones, unchanged. */
  ghost predicate FlowInv(next: nat, committed: seq<Work>, held: seq<Work>, accepted: seq<Work>) {
    && Rising(committed + held)
    && Rising(accepted)
    && (forall w :: w in committed + held ==> w in accepted)
    && (forall w :: w in accepted ==> w.ticket.identity <= next)
  }

  /** Every publication tells what became of its own value. */
  ghost predicate OutcomeInv(applied: map<nat, Outcome>, publications: seq<Publication>) {
    forall p :: p in publications ==>
      p.work.ticket.identity in applied && applied[p.work.ticket.identity] == p.outcome
  }

  function Receipts(encode: Encoder, publications: seq<Publication>): (r: seq<B.Pending>)
    ensures |r| == |publications|
    ensures forall i :: 0 <= i < |publications| ==> r[i] == Receipt(encode, publications[i])
  {
    seq(|publications|, i requires 0 <= i < |publications| => Receipt(encode, publications[i]))
  }

  /** Publications made so far and still known, oldest first. */
  function Made(s: System): seq<Publication> { s.committed + s.committing + s.published }

  ghost predicate Inv(encode: Encoder, s: System) {
    && Sized(Output(s)) && B.Inv(Output(s).value)
    && |s.working| <= 1 && |s.committing| <= 1 && !s.exited
    && HeldInv(Output(s).value, Held(s))
    && FlowInv(Output(s).value.next, Works(s.committed), Held(s), s.accepted)
    && OutcomeInv(s.applied, Made(s))
    && Late.Commits(s.events) == Receipts(encode, s.committed)
  }

  // ----- sequences in hand

  lemma RisingPart(a: seq<Work>, b: seq<Work>, c: seq<Work>)
    requires Rising(a + b + c)
    ensures Rising(a + c)
  {
    var all, rest := Identities(a + b + c), Identities(a + c);
    forall i, j | 0 <= i < j < |rest| ensures rest[i] < rest[j] {
      var x := if i < |a| then i else i + |b|;
      var y := if j < |a| then j else j + |b|;
      assert rest[i] == all[x] && rest[j] == all[y];
    }
  }

  /** Letting go of some submissions in hand. */
  lemma DropKeeps(o: B.Owner, committed: seq<Work>, a: seq<Work>, b: seq<Work>, c: seq<Work>, accepted: seq<Work>)
    requires |o.slots| == B.SLOTS
    requires HeldInv(o, a + b + c) && FlowInv(o.next, committed, a + b + c, accepted)
    ensures HeldInv(o, a + c) && FlowInv(o.next, committed, a + c, accepted)
  {
    hide Rising, Reserved;
    var all, rest := a + b + c, a + c;
    forall i | 0 <= i < |rest| ensures rest[i] in all { assert rest[i] == if i < |a| then all[i] else all[i + |b|]; }
    assert committed + all == (committed + a) + b + c && committed + rest == (committed + a) + c;
    RisingPart(committed + a, b, c);
  }

  lemma RisingIsDistinct(works: seq<Work>, i: nat, j: nat)
    requires Rising(works) && i < j < |works|
    ensures works[i].ticket.identity < works[j].ticket.identity
  {
    assert Identities(works)[i] == works[i].ticket.identity && Identities(works)[j] == works[j].ticket.identity;
  }

  /** Distinct observation slots number at most 64. */
  lemma AtMostCapacity(o: B.Owner, held: seq<Work>)
    requires |o.slots| == B.SLOTS && Rising(held)
    requires forall i :: 0 <= i < |held| ==> Reserved(o, held[i].ticket)
    ensures |held| <= CAPACITY
  {
    hide Rising;
    forall i, j | 0 <= i < j < |held| ensures held[i].ticket.slot != held[j].ticket.slot {
      RisingIsDistinct(held, i, j);
    }
    Pigeonhole(seq(|held|, i requires 0 <= i < |held| => held[i].ticket.slot), 64);
  }

  lemma {:induction false} Pigeonhole(slots: seq<nat>, room: nat)
    requires forall i :: 0 <= i < |slots| ==> B.CONTROLS_END <= slots[i] < B.CONTROLS_END + room
    requires forall i, j :: 0 <= i < j < |slots| ==> slots[i] != slots[j]
    ensures |slots| <= room
    decreases room
  {
    if slots != [] {
      assert B.CONTROLS_END <= slots[0] < B.CONTROLS_END + room;
      if k :| 0 <= k < |slots| && slots[k] == B.CONTROLS_END + room - 1 {
        Pigeonhole(slots[..k] + slots[k + 1..], room - 1);
      } else {
        Pigeonhole(slots, room - 1);
      }
    }
  }

  // ----- the output owner underneath

  lemma OutputSteps(s: System, e: B.Event)
    requires Sized(Output(s)) && B.Inv(Output(s).value)
    ensures var next := R.Run(s.events + [e]);
            Sized(next) && B.Inv(next.value) && next == B.Apply(Output(s).value, e)
  {
    hide B.Inv, B.Apply, R.Run;
    R.RunOneMore(s.events, e);
    R.ApplyKeeps(Output(s).value, e);
    R.Sized(B.Apply(Output(s).value, e).value);
  }

  lemma CommitsOneMore(events: seq<B.Event>, e: B.Event)
    requires Sized(R.Run(events))
    ensures Late.Commits(events + [e]) ==
            if e.Committing? && B.Commit(R.Run(events).value, e.ticket, e.frame, e.memory).1 == B.Accepted
            then Late.Commits(events) + [B.Pending(e.ticket.slot, e.ticket.identity, e.frame)]
            else Late.Commits(events)
  {
    hide R.Run, B.Commit;
    assert (events + [e])[..|events|] == events;
  }

  /** Others leave reserved slots alone while output is live. */
  lemma ForeignKeeps(o: B.Owner, e: B.Event, held: seq<Work>)
    requires |o.slots| == B.SLOTS && Foreign(e) && HeldInv(o, held)
    requires B.Apply(o, e).Some? && |B.Apply(o, e).value.slots| == B.SLOTS && B.Inv(o)
    ensures HeldInv(B.Apply(o, e).value, held) && B.Apply(o, e).value.next >= o.next
  {
    hide B.Line, B.Concat, B.WireInv, B.OrderInv, B.TerminalInv, B.Selected;
  }

  // ----- step by step

  lemma ForeignStep(encode: Encoder, s: System, e: B.Event)
    requires Inv(encode, s) && Foreign(e)
    ensures Inv(encode, s.(events := s.events + [e]))
  {
    hide B.Inv, B.Apply, R.Run, Late.Commits, HeldInv, Rising, OutcomeInv;
    OutputSteps(s, e);
    CommitsOneMore(s.events, e);
    ForeignKeeps(Output(s).value, e, Held(s));
    assert Held(s.(events := s.events + [e])) == Held(s);
  }

  lemma AppendRising(works: seq<Work>, accepted: seq<Work>, bound: nat, work: Work)
    requires Rising(works) && work.ticket.identity == bound + 1
    requires forall w :: w in works ==> w in accepted
    requires forall w :: w in accepted ==> w.ticket.identity <= bound
    ensures Rising(works + [work])
  {
    var all, more := Identities(works), Identities(works + [work]);
    assert more == all + [bound + 1];
    forall i | 0 <= i < |all| ensures all[i] <= bound { assert works[i] in works; }
  }

  lemma ReserveKeepsHeld(o: B.Owner, held: seq<Work>, work: Work)
    requires |o.slots| == B.SLOTS && B.Reserve(o).1 == B.Accepted && work.ticket == B.Reserve(o).2
    requires HeldInv(o, held) && Rising(held + [work])
    ensures |B.Reserve(o).0.slots| == B.SLOTS && HeldInv(B.Reserve(o).0, held + [work])
    ensures B.Reserve(o).0.next == o.next + 1 == work.ticket.identity
  {
    hide Rising;
    var v, more := B.Reserve(o).0, held + [work];
    forall i | 0 <= i < |more| ensures Reserved(v, more[i].ticket) {
      if i < |held| { assert more[i] == held[i]; }
    }
    AtMostCapacity(v, more);
  }

  lemma ReserveKeepsFlow(next: nat, committed: seq<Work>, held: seq<Work>, accepted: seq<Work>, work: Work)
    requires FlowInv(next, committed, held, accepted) && work.ticket.identity == next + 1
    ensures FlowInv(next + 1, committed, held + [work], accepted + [work]) && Rising(held + [work])
  {
    hide Rising;
    AppendRising(committed + held, accepted, next, work);
    AppendRising(accepted, accepted, next, work);
    assert committed + (held + [work]) == committed + held + [work];
    assert committed + held + [work] == [] + committed + (held + [work]) && [] + (held + [work]) == held + [work];
    RisingPart([], committed, held + [work]);
  }

  lemma SubmitKeeps(encode: Encoder, s: System, valid: bool, generation: nat, id: nat)
    requires Inv(encode, s)
    ensures Inv(encode, Submit(s, valid, generation, id))
  {
    hide B.Inv, R.Run, Late.Commits, HeldInv, FlowInv, OutcomeInv, B.Reserve, Rising;
    if valid && id != 0 && s.started && !s.stopping && |s.queue| != CAPACITY {
      var o := Output(s).value;
      OutputSteps(s, B.Reserving);
      CommitsOneMore(s.events, B.Reserving);
      ReserveSteps(o);
      var v := Submit(s, valid, generation, id);
      if B.Reserve(o).1 == B.Accepted {
        var work := Work(generation, id, B.Reserve(o).2);
        ReserveKeepsFlow(o.next, Works(s.committed), Held(s), s.accepted, work);
        ReserveKeepsHeld(o, Held(s), work);
        assert Held(v) == Held(s) + [work];
      } else {
        assert Held(v) == Held(s);
      }
    }
  }

  lemma ReserveSteps(o: B.Owner)
    requires |o.slots| == B.SLOTS
    ensures B.Apply(o, B.Reserving) == Some(B.Reserve(o).0)
    ensures B.Reserve(o).1 == B.Accepted ==> B.Reserve(o).2.identity == o.next + 1
    ensures B.Reserve(o).1 != B.Accepted ==> B.Reserve(o).0 == o
  {
  }

  lemma BeginKeeps(encode: Encoder, s: System)
    requires Inv(encode, s)
    ensures Inv(encode, Begin(s))
  {
    hide B.Inv, R.Run, Late.Commits, HeldInv, FlowInv, OutcomeInv;
    assert Held(Begin(s)) == Held(s);
  }

  lemma PublishKeeps(encode: Encoder, s: System)
    requires Inv(encode, s)
    ensures Inv(encode, Publish(s))
  {
    hide B.Inv, R.Run, Late.Commits, HeldInv, FlowInv, OutcomeInv, Held, Made, Works, Receipts;
    PublishMoves(s);
  }

  lemma PublishMoves(s: System)
    ensures Held(Publish(s)) == Held(s) && Made(Publish(s)) == Made(s)
  {
    hide Works;
    if Publish(s) != s {
      var first, rest := [s.published[0]], s.published[1..];
      assert s.published == first + rest;
      WorksJoin(first, rest);
      Regroup(Works(first), Works(rest), s.working, s.queue);
    }
  }

  lemma WorksJoin(a: seq<Publication>, b: seq<Publication>)
    ensures Works(a + b) == Works(a) + Works(b) && Works([]) == []
  {
  }

  lemma Regroup<T>(a: seq<T>, b: seq<T>, c: seq<T>, d: seq<T>)
    ensures [] + (a + b) + c + d == a + b + c + d
  {
    assert [] + (a + b) == a + b;
  }

  /** The submission in work has not been published, so noting its outcome changes nobody else's. */
  lemma OutcomeOneMore(s: System, outcome: Outcome)
    requires Rising(Works(s.committed) + Held(s)) && s.working != [] && OutcomeInv(s.applied, Made(s))
    ensures var applied := s.applied[s.working[0].ticket.identity := outcome];
            && OutcomeInv(applied, Made(s))
            && OutcomeInv(applied, Made(s) + [Publication(s.working[0], outcome)])
  {
    hide Rising;
    var all, made := Works(s.committed) + Held(s), Made(s);
    assert all[|made|] == s.working[0];
    forall p | p in made ensures p.work.ticket.identity != s.working[0].ticket.identity {
      var i :| 0 <= i < |made| && made[i] == p;
      assert all[i] == p.work;
      RisingIsDistinct(all, i, |made|);
    }
  }

  lemma DropWorking(encode: Encoder, s: System)
    requires Inv(encode, s) && s.working != []
    ensures Inv(encode, s.(working := []))
  {
    hide B.Inv, R.Run, Late.Commits, HeldInv, FlowInv, OutcomeInv;
    var before := Works(s.committing) + Works(s.published);
    assert Held(s) == before + s.working + s.queue && Held(s.(working := [])) == before + s.queue;
    DropKeeps(Output(s).value, Works(s.committed), before, s.working, s.queue, s.accepted);
  }

  /** Submissions in work and publications are among at most 64, so the overflow exit is never reached. */
  lemma CompleteKeeps(encode: Encoder, s: System, sample: Sample)
    requires Inv(encode, s)
    ensures Inv(encode, Complete(s, sample))
  {
    if s.working != [] {
      DropWorking(encode, s);
      match sample
      case Closed =>
      case Rejected =>
        hide Inv;
        ForeignStep(encode, s.(working := []), B.Ending(B.Ended));
      case Sampled(outcome) => SampledKeeps(encode, s, outcome);
    }
  }

  lemma SampledKeeps(encode: Encoder, s: System, outcome: Outcome)
    requires Inv(encode, s) && s.working != [] && Inv(encode, s.(working := []))
    ensures Inv(encode, Complete(s, Sampled(outcome)))
  {
    hide B.Inv, R.Run, Late.Commits, HeldInv, OutcomeInv, Rising, Held, Made, Works, Receipts;
    RoomToPublish(encode, s);
    OutcomeOneMore(s, outcome);
    SampledMoves(s, outcome);
    hide FlowInv;
  }

  lemma SampledMoves(s: System, outcome: Outcome)
    requires |s.working| == 1 && |s.published| < CAPACITY
    ensures var v := Complete(s, Sampled(outcome));
            if s.stopping then Held(v) == Held(s.(working := [])) && Made(v) == Made(s)
            else Held(v) == Held(s) && Made(v) == Made(s) + [Publication(s.working[0], outcome)]
  {
  }

  lemma RoomToPublish(encode: Encoder, s: System)
    requires Inv(encode, s) && s.working != []
    ensures |s.published| < CAPACITY
  {
    hide B.Inv, FlowInv, OutcomeInv;
  }

  lemma ClearKeeps(encode: Encoder, s: System)
    requires Inv(encode, s) && s.committing == []
    ensures Inv(encode, s.(queue := [], published := []))
  {
    hide B.Inv, R.Run, Late.Commits, HeldInv, FlowInv;
    var o, published := Output(s).value, Works(s.published);
    var v := s.(queue := [], published := []);
    assert Held(s) == [] + published + (s.working + s.queue);
    DropKeeps(o, Works(s.committed), [], published, s.working + s.queue, s.accepted);
    assert [] + (s.working + s.queue) == s.working + s.queue + [];
    DropKeeps(o, Works(s.committed), s.working, s.queue, [], s.accepted);
    assert Held(v) == s.working + [];
    forall p | p in Made(v) ensures p in Made(s) {}
  }

  lemma CommitKeepsHeld(o: B.Owner, held: seq<Work>, receipt: string, memory: bool)
    requires |o.slots| == B.SLOTS && held != [] && Rising(held)
    requires HeldInv(o, held) && B.Commit(o, held[0].ticket, receipt, memory).1 == B.Accepted
    ensures var v := B.Commit(o, held[0].ticket, receipt, memory).0;
            |v.slots| == B.SLOTS && HeldInv(v, held[1..]) && v.next == o.next
  {
    hide B.Line, Rising;
    forall i | 0 < i < |held| ensures held[i].ticket.identity != held[0].ticket.identity {
      RisingIsDistinct(held, 0, i);
    }
  }

  lemma CommitKeepsFlow(next: nat, committed: seq<Work>, held: seq<Work>, accepted: seq<Work>)
    requires FlowInv(next, committed, held, accepted) && held != []
    ensures FlowInv(next, committed + [held[0]], held[1..], accepted) && Rising(held)
  {
    hide Rising;
    assert committed + [held[0]] + held[1..] == committed + held;
    assert committed + held == [] + committed + held && [] + held == held;
    RisingPart([], committed, held);
  }

  /** The worker's publication heads the submissions in hand. */
  lemma OldestInHand(s: System)
    requires s.committing != [] && |s.committing| <= 1
    ensures var rest := Works(s.published) + s.working + s.queue;
            Held(s) == [s.committing[0].work] + rest && Held(s.(committing := [])) == rest
  {
    assert s.committing == [s.committing[0]];
    assert Works(s.committing) == [s.committing[0].work];
  }

  lemma LetGo(encode: Encoder, s: System)
    requires Inv(encode, s) && s.committing != []
    ensures Inv(encode, s.(committing := []))
  {
    hide B.Inv, R.Run, Late.Commits, HeldInv, FlowInv, OutcomeInv;
    OldestInHand(s);
    OutcomePart(s.applied, s.committed, s.committing, s.published);
    var o, rest := Output(s).value, Works(s.published) + s.working + s.queue;
    assert Held(s) == [] + [s.committing[0].work] + rest && [] + rest == rest;
    DropKeeps(o, Works(s.committed), [], [s.committing[0].work], rest, s.accepted);
    assert Made(s.(committing := [])) == s.committed + s.published;
    hide Held, Made, Works;
  }

  lemma OutcomePart(applied: map<nat, Outcome>, a: seq<Publication>, b: seq<Publication>, c: seq<Publication>)
    requires OutcomeInv(applied, a + b + c)
    ensures OutcomeInv(applied, a + c)
  {
    forall p | p in a + c ensures p in a + b + c {}
  }

  lemma CommitKeeps(encode: Encoder, s: System, encoded: bool, memory: bool)
    requires Inv(encode, s)
    ensures Inv(encode, Commit(encode, s, encoded, memory))
  {
    if s.committing != [] {
      LetGo(encode, s);
      var p := s.committing[0];
      var admission := B.Commit(Output(s).value, p.work.ticket, Receipt(encode, p).frame, memory).1;
      hide Inv, R.Run, B.Commit;
      if !encoded {
        ForeignStep(encode, s.(committing := []), B.Ending(B.Ended));
      } else if admission == B.Accepted {
        CommitAccepted(encode, s, memory);
      } else {
        CommitRefused(encode, s, memory);
      }
    }
  }

  lemma CommitAccepted(encode: Encoder, s: System, memory: bool)
    requires Inv(encode, s) && s.committing != []
    requires var p := s.committing[0];
             B.Commit(Output(s).value, p.work.ticket, Receipt(encode, p).frame, memory).1 == B.Accepted
    ensures Inv(encode, Commit(encode, s, true, memory))
  {
    hide B.Inv, R.Run, Late.Commits, HeldInv, FlowInv, OutcomeInv, B.Commit, Rising;
    var o, p := Output(s).value, s.committing[0];
    var e := B.Committing(p.work.ticket, Receipt(encode, p).frame, memory);
    OldestInHand(s);
    OutputSteps(s, e);
    CommitsOneMore(s.events, e);
    CommitKeepsFlow(o.next, Works(s.committed), Held(s), s.accepted);
    CommitKeepsHeld(o, Held(s), e.frame, memory);
    CommitMoves(encode, s, Commit(encode, s, true, memory));
    hide Held, Made, Works, Receipts;
  }

  lemma CommitMoves(encode: Encoder, s: System, v: System)
    requires |s.committing| == 1 && v.committed == s.committed + s.committing && v.committing == []
    requires v.published == s.published && v.working == s.working && v.queue == s.queue
    ensures Held(s) != [] && Held(v) == Held(s)[1..] && Works(v.committed) == Works(s.committed) + [Held(s)[0]]
    ensures Receipts(encode, v.committed) == Receipts(encode, s.committed) + [Receipt(encode, s.committing[0])]
    ensures Made(v) == Made(s)
  {
    OldestInHand(s);
  }

  lemma CommitRefused(encode: Encoder, s: System, memory: bool)
    requires Inv(encode, s) && s.committing != [] && Inv(encode, s.(committing := []))
    requires var p := s.committing[0];
             B.Commit(Output(s).value, p.work.ticket, Receipt(encode, p).frame, memory).1 != B.Accepted
    ensures Inv(encode, Commit(encode, s, true, memory))
  {
    hide B.Inv, R.Run, Late.Commits, HeldInv, FlowInv, OutcomeInv, B.Commit;
    var p := s.committing[0];
    var e := B.Committing(p.work.ticket, Receipt(encode, p).frame, memory);
    OutputSteps(s, e);
    CommitsOneMore(s.events, e);
    RefusedChangesNothing(Output(s).value, e.ticket, e.frame, memory);
    var refused := s.(committing := [], events := s.events + [e]);
    assert Output(refused) == Output(s) && Held(refused) == Held(s.(committing := []));
    assert Made(refused) == Made(s.(committing := []));
    ForeignStep(encode, refused, B.Ending(B.Ended));
    assert s.events + [e] + [B.Ending(B.Ended)] == s.events + [e, B.Ending(B.Ended)];
  }

  lemma RefusedChangesNothing(o: B.Owner, t: B.Ticket, receipt: string, memory: bool)
    requires |o.slots| == B.SLOTS && B.Commit(o, t, receipt, memory).1 != B.Accepted
    ensures B.Commit(o, t, receipt, memory).0 == o
  {
    hide B.Line;
  }

  lemma ApplyKeeps(encode: Encoder, s: System, e: Event)
    requires Inv(encode, s)
    ensures Inv(encode, Apply(encode, s, e))
  {
    hide Inv, Submit, Complete, Commit, Publish, Begin;
    match e
    case Submitting(valid, generation, id) => SubmitKeeps(encode, s, valid, generation, id);
    case Beginning => BeginKeeps(encode, s);
    case Sampling(sample) => CompleteKeeps(encode, s, sample);
    case Publishing => PublishKeeps(encode, s);
    case Committing(encoded, memory) => CommitKeeps(encode, s, encoded, memory);
    case Clearing => if s.committing == [] { ClearKeeps(encode, s); }
    case Outputting(o) => if Foreign(o) { ForeignStep(encode, s, o); }
    case Starting => FlagsKeep(encode, s);
    case Stopping => FlagsKeep(encode, s);
  }

  lemma FlagsKeep(encode: Encoder, s: System)
    requires Inv(encode, s)
    ensures Inv(encode, s.(started := true)) && Inv(encode, s.(stopping := true))
  {
    hide B.Inv, R.Run, Late.Commits, HeldInv, FlowInv, OutcomeInv;
    assert Held(s.(started := true)) == Held(s) && Held(s.(stopping := true)) == Held(s);
  }

  lemma FirstInv(encode: Encoder)
    ensures Inv(encode, FIRST)
  {
    hide B.Inv, R.Run, Late.Commits;
    R.IdleInv();
    Late.RunNothing();
    NothingCommitted();
    assert Held(FIRST) == [];
  }

  lemma NothingCommitted()
    ensures Late.Commits([]) == []
  {
  }

  lemma {:induction false} RunKeeps(encode: Encoder, events: seq<Event>)
    ensures Inv(encode, Run(encode, events))
  {
    hide Inv, Apply;
    if events == [] {
      FirstInv(encode);
    } else {
      RunKeeps(encode, events[..|events| - 1]);
      ApplyKeeps(encode, Run(encode, events[..|events| - 1]), events[|events| - 1]);
    }
  }

  // ----- what that means

  /** Queued, in work, published and being committed never exceed the observation slots: no run overflows. */
  lemma NoRunOverflows(encode: Encoder, events: seq<Event>)
    ensures var s := Run(encode, events);
            !s.exited && |s.queue| + |s.working| + |s.published| + |s.committing| <= CAPACITY
  {
    RunKeeps(encode, events);
    hide Run, B.Inv, FlowInv, OutcomeInv;
  }

  /**
   Each accepted submission yields at most one receipt. Receipts are committed in the order of submission, and
   the writer is handed them in that order too. What it is handed under a reservation is the receipt of the
   submission that made the reservation: its generation, its id, and what became of its value.
   */
  lemma ReceiptsFollowSubmissions(encode: Encoder, events: seq<Event>)
    ensures var s := Run(encode, events);
            && Rising(s.accepted) && Rising(Works(s.committed))
            && (forall p :: p in s.committed ==>
                  && p.work in s.accepted && p.work.ticket.identity in s.applied
                  && s.applied[p.work.ticket.identity] == p.outcome)
            && Sized(Output(s))
            && Late.InOrder(Output(s).value.takes)
            && (forall k :: 0 <= k < |Output(s).value.takes| && Late.Observation(Output(s).value.takes[k]) ==>
                  exists p :: p in s.committed && Output(s).value.takes[k] == Receipt(encode, p))
  {
    RunKeeps(encode, events);
    var s := Run(encode, events);
    hide Run, B.Inv, R.Run, Late.Commits, HeldInv, Rising, Late.Rising, Late.InOrder;
    CommittedRise(s);
    CommittedAreAccepted(s);
    assert Late.Identities(Receipts(encode, s.committed)) == Identities(Works(s.committed));
    Late.RisingCommitsLeaveInOrder(s.events);
    forall r | r in Receipts(encode, s.committed) ensures exists p :: p in s.committed && r == Receipt(encode, p) {
      var i :| 0 <= i < |s.committed| && Receipts(encode, s.committed)[i] == r;
      assert s.committed[i] in s.committed;
    }
  }

  lemma CommittedRise(s: System)
    requires Rising(Works(s.committed) + Held(s))
    ensures Rising(Works(s.committed)) && Late.Rising(Identities(Works(s.committed)))
  {
    var committed := Works(s.committed);
    assert committed + Held(s) == committed + Held(s) + [] && committed + [] == committed;
    RisingPart(committed, Held(s), []);
  }

  lemma CommittedAreAccepted(s: System)
    requires Sized(Output(s)) && OutcomeInv(s.applied, Made(s))
    requires FlowInv(Output(s).value.next, Works(s.committed), Held(s), s.accepted)
    ensures forall p :: p in s.committed ==>
              && p.work in s.accepted && p.work.ticket.identity in s.applied
              && s.applied[p.work.ticket.identity] == p.outcome
  {
    hide Rising, R.Run;
    forall p | p in s.committed
      ensures p.work in s.accepted && p.work.ticket.identity in s.applied
              && s.applied[p.work.ticket.identity] == p.outcome
    {
      var i :| 0 <= i < |s.committed| && s.committed[i] == p;
      assert (Works(s.committed) + Held(s))[i] == p.work;
      assert Made(s)[i] == p;
    }
  }
}
