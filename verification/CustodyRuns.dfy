/** What supervision guarantees over every run (custody.c). */
module CustodyRuns {
  import opened Bytes
  import opened Custody

  /** The owner gets a prefix of what the worker wrote; without a failure nothing read is lost. */
  ghost predicate RelayInv(r: Relay, failure: int) {
    && r.taken <= |r.produced| && r.delivered <= r.produced
    && |r.buffer| <= r.capacity
    && (failure == 0 ==> r.delivered + r.buffer == r.produced[..r.taken])
    && (failure != 0 ==> r.buffer == [] && !r.open && r.eof)
    && (failure == 0 && r.eof ==> r.ended && r.taken == |r.produced|)
  }

  /** The worker gets a prefix of what was read from the owner, and all of it until teardown begins. */
  ghost predicate FeedInv(f: Feed, stopping: bool) {
    && f.forwarded <= f.received
    && |f.buffer| <= f.capacity
    && (!stopping ==> f.forwarded + f.buffer == f.received)
    && (stopping ==> f.buffer == [] && !f.open)
  }

  predicate PlanInv(p: Plan, failure: int) {
    && (p.stopping ==> p.termAt <= p.killAt <= p.stopAt)
    && (!p.stopping ==> !p.terminated && !p.killed && failure == 0)
  }

  /** The child is reaped at most once, as the last thing done to it. */
  ghost predicate GroupInv(g: Group) {
    forall i :: 0 <= i < |g.actions| && g.actions[i].Reaped? ==> i == |g.actions| - 1 && !g.child
  }

  ghost predicate Inv(s: Custody) {
    && RelayInv(s.relay, s.failure) && FeedInv(s.feed, s.plan.stopping)
    && PlanInv(s.plan, s.failure) && GroupInv(s.group)
  }

  /** The first failure stays, and so does the teardown schedule once it is set. */
  predicate Firm(s: Custody, t: Custody) {
    && (s.failure != 0 ==> t.failure == s.failure)
    && (s.plan.stopping ==>
          && t.plan.stopping && t.plan.termAt == s.plan.termAt
          && t.plan.killAt == s.plan.killAt && t.plan.stopAt == s.plan.stopAt)
  }

  predicate Steady(s: Custody, t: Custody) { Firm(s, t) && t.group == s.group }

  lemma SteadyOn(s: Custody, t: Custody, u: Custody)
    requires Steady(s, t) && Steady(t, u)
    ensures Steady(s, u)
  {
  }

  lemma SteadyItself(s: Custody)
    ensures Steady(s, s)
  {
  }

  lemma SteadyMeans(s: Custody, t: Custody)
    requires Steady(s, t)
    ensures Firm(s, t) && t.group == s.group
  {
  }

  lemma StopKeeps(s: Custody, reason: int, now: int)
    requires Inv(s)
    ensures Inv(Stop(s, reason, now)) && Steady(s, Stop(s, reason, now))
  {
  }

  lemma LoseOwnerKeeps(s: Custody, now: int)
    requires Inv(s)
    ensures Inv(LoseOwner(s, now)) && Steady(s, LoseOwner(s, now))
  {
    StopKeeps(s.(ownerLive := false), 127, now);
  }

  lemma ReadOwnerKeeps(s: Custody, f: Flags, io: Io, data: seq<Byte>, now: int)
    requires Inv(s)
    ensures Inv(ReadOwner(s, f, io, data, now)) && Steady(s, ReadOwner(s, f, io, data, now))
  {
    hide LoseOwner;
    LoseOwnerKeeps(s, now);
  }

  lemma ReadSdkKeeps(s: Custody, f: Flags, io: Io, now: int)
    requires Inv(s)
    ensures Inv(ReadSdk(s, f, io, now)) && Steady(s, ReadSdk(s, f, io, now))
  {
    hide Stop, FeedInv, GroupInv;
    StopKeeps(s, 126, now);
  }

  lemma ReadDiagnosticKeeps(s: Custody, f: Flags, io: Io, now: int)
    requires Inv(s)
    ensures Inv(ReadDiagnostic(s, f, io, now)) && Steady(s, ReadDiagnostic(s, f, io, now))
  {
    hide Stop, FeedInv, GroupInv, RelayInv;
    StopKeeps(s, 126, now);
    StopKeeps(s, 131, now);
  }

  lemma WriteSdkKeeps(s: Custody, f: Flags, io: Io, now: int)
    requires Inv(s)
    ensures Inv(WriteSdk(s, f, io, now)) && Steady(s, WriteSdk(s, f, io, now))
  {
    hide Stop, RelayInv, GroupInv;
    StopKeeps(s, 126, now);
  }

  lemma WriteOwnerKeeps(s: Custody, f: Flags, io: Io, now: int)
    requires Inv(s)
    ensures Inv(WriteOwner(s, f, io, now)) && Steady(s, WriteOwner(s, f, io, now))
  {
    hide LoseOwner, FeedInv, GroupInv;
    LoseOwnerKeeps(s, now);
  }

  lemma ProbeKeeps(s: Custody, x: Inputs)
    requires Inv(s)
    ensures Inv(Probe(s, x)) && Steady(s, Probe(s, x))
  {
    hide Inv, Stop, ReadOwner, WriteOwner;
    StopKeeps(s, 126, x.now);
    if x.probed {
      var f, g := Flags(s.ownerLive && x.ownerGone, false, false), Flags(s.ownerLive && x.readerGone, false, false);
      var a := ReadOwner(s, f, Again, [], x.now);
      ReadOwnerKeeps(s, f, Again, [], x.now);
      WriteOwnerKeeps(a, g, Again, x.now);
    }
  }

  lemma DueKeeps(s: Custody, now: int)
    requires Inv(s)
    ensures var t := KillDue(TermDue(s, now), now); Inv(t) && Firm(s, t) && t.group.child == s.group.child
  {
    hide RelayInv, FeedInv;
  }

  lemma GatherKeeps(s: Custody, x: Inputs)
    requires Inv(s)
    ensures Inv(Gather(s, x)) && Firm(s, Gather(s, x)) && Gather(s, x).group.child == s.group.child
  {
    hide Inv, Observe, Stop, Probe, Steady;
    ObservedKeeps(s, x.waited);
    var a := s.(group := Observe(s.group, x.waited));
    var b := if x.interrupted then Stop(a, 127, x.now) else a;
    var c := Probe(b, x);
    SteadyItself(a);
    StopKeeps(a, 127, x.now);
    ProbeKeeps(b, x);
    SteadyOn(a, b, c);
    StopKeeps(c, 0, x.now);
    SteadyItself(c);
    SteadyOn(a, c, Gather(s, x));
    SteadyMeans(a, Gather(s, x));
  }

  lemma FinishedKeeps(s: Custody, outcome: int, reaped: bool)
    requires Inv(s) && s.group.child
    ensures Inv(Finished(s, outcome, reaped).s) && Firm(s, Finished(s, outcome, reaped).s)
  {
    hide RelayInv, FeedInv;
  }

  lemma JudgeKeeps(s: Custody, x: Inputs)
    requires Inv(s) && s.group.child
    ensures var j := Judge(s, x); Inv(j.s) && Firm(s, j.s) && (j.Running? ==> j.s.group.child)
  {
    hide Inv, Gather, TermDue, KillDue, Observe, Finished, Decide;
    ObservedKeeps(s, x.waited);
    FinishedKeeps(s, 129, x.reaped);
    GatherKeeps(s, x);
    var d := Gather(s, x);
    DueKeeps(d, x.now);
    DecideKeeps(KillDue(TermDue(d, x.now), x.now), x);
  }

  lemma DecideKeeps(s: Custody, x: Inputs)
    requires Inv(s) && s.group.child
    ensures var j := Decide(s, x); Inv(j.s) && Firm(s, j.s) && (j.Running? ==> j.s == s)
  {
    hide Inv, Finished;
    FinishedKeeps(s, 129, x.reaped);
    FinishedKeeps(s, if s.failure != 0 then s.failure else s.group.status, x.reaped);
  }

  lemma ObservedKeeps(s: Custody, w: Waited)
    requires Inv(s)
    ensures Inv(s.(group := Observe(s.group, w))) && Observe(s.group, w).child == s.group.child
  {
    hide RelayInv, FeedInv;
  }

  lemma TransferKeeps(s: Custody, x: Inputs)
    requires Inv(s)
    ensures Inv(Transfer(s, x)) && Steady(s, Transfer(s, x))
  {
    hide Inv, ReadOwner, ReadDiagnostic, ReadSdk, WriteSdk, WriteOwner;
    var now := x.later;
    var a := ReadOwner(s, x.ownerFlags, x.ownerIo, x.ownerData, now);
    var b := ReadDiagnostic(a, x.diagnosticFlags, x.diagnosticIo, now);
    var c := ReadSdk(b, x.sdkFlags, x.sdkIo, now);
    var d := if !c.plan.stopping then WriteSdk(c, x.inputFlags, x.inputIo, now) else c;
    ReadOwnerKeeps(s, x.ownerFlags, x.ownerIo, x.ownerData, now);
    ReadDiagnosticKeeps(a, x.diagnosticFlags, x.diagnosticIo, now);
    ReadSdkKeeps(b, x.sdkFlags, x.sdkIo, now);
    WriteSdkKeeps(c, x.inputFlags, x.inputIo, now);
    WriteOwnerKeeps(d, x.readerFlags, x.readerIo, now);
  }

  lemma ProgressKeeps(s: Custody, x: Inputs)
    requires Inv(s)
    ensures Inv(s.(relay := Progress(s.relay, x)))
  {
    hide FeedInv, GroupInv;
    assert Progress(s.relay, x).produced[..s.relay.taken] == s.relay.produced[..s.relay.taken];
  }

  lemma IterateKeeps(s: Custody, x: Inputs)
    requires Inv(s) && s.group.child
    ensures var t := Iterate(s, x); Inv(t.s) && Firm(s, t.s) && (t.Running? ==> t.s.group.child)
  {
    hide Inv, Judge, Progress, Stop, Finished, Transfer;
    JudgeKeeps(s, x);
    var j := Judge(s, x);
    if j.Running? {
      var p := j.s.(relay := Progress(j.s.relay, x));
      ProgressKeeps(j.s, x);
      StopKeeps(p, 126, x.now);
      FinishedKeeps(p, 129, x.reaped);
      TransferKeeps(p, x);
    }
  }

  lemma PartingKeeps(s: Custody)
    requires Inv(s)
    ensures Inv(s.(group := GroupSignal(s.group, Kill)))
  {
    hide RelayInv, FeedInv;
  }

  lemma {:induction false} RunKeeps(s: Custody, inputs: seq<Inputs>)
    requires Inv(s) && s.group.child
    ensures Inv(Run(s, inputs).s) && (Run(s, inputs).Running? ==> Run(s, inputs).s.group.child)
  {
    hide Inv, Iterate, GroupSignal;
    if inputs != [] {
      RunKeeps(s, inputs[..|inputs| - 1]);
      var before := Run(s, inputs[..|inputs| - 1]);
      if before.Running? {
        IterateKeeps(before.s, inputs[|inputs| - 1]);
        PartingKeeps(Iterate(before.s, inputs[|inputs| - 1]).s);
      }
    }
  }

  lemma BegunInv(cleanup: nat, inputCapacity: nat, outputCapacity: nat)
    ensures Inv(Begun(cleanup, inputCapacity, outputCapacity))
  {
  }

  // ----- what that means

  /** The owner always has a prefix of what the worker wrote, and the worker a prefix of what the owner sent. */
  lemma RelayDeliversAPrefix(cleanup: nat, inputCapacity: nat, outputCapacity: nat, inputs: seq<Inputs>)
    ensures var s := Run(Begun(cleanup, inputCapacity, outputCapacity), inputs).s;
            && s.relay.delivered <= s.relay.produced && s.feed.forwarded <= s.feed.received
            && s.relay.taken <= |s.relay.produced|
            && (s.failure == 0 ==> s.relay.delivered + s.relay.buffer == s.relay.produced[..s.relay.taken])
  {
    BegunInv(cleanup, inputCapacity, outputCapacity);
    RunKeeps(Begun(cleanup, inputCapacity, outputCapacity), inputs);
    hide Run, Begun;
  }

  /** A turn that returns anything but 129 found the worker's output at its end and nothing left to pass on. */
  lemma ReturnsOnlyWhenDrained(s: Custody, x: Inputs)
    requires Iterate(s, x).Returned? && Iterate(s, x).status != 129
    ensures var r := Iterate(s, x);
            && r.s.group.exited && r.s.relay.eof && r.s.relay.buffer == []
            && r.status == if r.s.failure != 0 then r.s.failure else r.s.group.status
  {
    hide Gather, TermDue, KillDue, Observe, Progress, Transfer;
  }

  /** When supervision returns without a failure and not 129, the status is the child's and every byte was delivered. */
  lemma {:induction false} ChildStatusMeansEverythingDelivered(cleanup: nat, inputCapacity: nat, outputCapacity: nat,
                                                               inputs: seq<Inputs>)
    requires var r := Run(Begun(cleanup, inputCapacity, outputCapacity), inputs);
             r.Returned? && r.status != 129 && r.s.failure == 0
    ensures var r := Run(Begun(cleanup, inputCapacity, outputCapacity), inputs);
            && r.status == r.s.group.status && r.s.group.exited && r.s.relay.ended
            && r.s.relay.delivered == r.s.relay.produced
  {
    var first := Begun(cleanup, inputCapacity, outputCapacity);
    BegunInv(cleanup, inputCapacity, outputCapacity);
    RunKeeps(first, inputs);
    hide Begun, Iterate;
    var rest := inputs[..|inputs| - 1];
    var before := Run(first, rest);
    if before.Returned? {
      ChildStatusMeansEverythingDelivered(cleanup, inputCapacity, outputCapacity, rest);
    } else {
      ReturnsOnlyWhenDrained(before.s, inputs[|inputs| - 1]);
    }
  }

  /** The first failure reason and the teardown deadlines never change, and the deadlines are ordered. */
  lemma {:induction false} FirstFailureAndScheduleStay(cleanup: nat, inputCapacity: nat, outputCapacity: nat,
                                                       inputs: seq<Inputs>, n: nat)
    requires n <= |inputs|
    ensures var first := Begun(cleanup, inputCapacity, outputCapacity);
            var s, t := Run(first, inputs[..n]).s, Run(first, inputs).s;
            && Firm(s, t)
            && (t.plan.stopping ==> t.plan.termAt <= t.plan.killAt <= t.plan.stopAt)
  {
    var first := Begun(cleanup, inputCapacity, outputCapacity);
    BegunInv(cleanup, inputCapacity, outputCapacity);
    RunKeeps(first, inputs);
    if n < |inputs| {
      var rest := inputs[..|inputs| - 1];
      assert rest[..n] == inputs[..n];
      FirstFailureAndScheduleStay(cleanup, inputCapacity, outputCapacity, rest, n);
      RunKeeps(first, rest);
      hide Begun, Inv, Iterate, GroupSignal;
      var before := Run(first, rest);
      if before.Running? { IterateKeeps(before.s, inputs[|inputs| - 1]); }
    } else {
      assert inputs[..n] == inputs;
    }
  }

  /** No signal goes to the process group after the child has been reaped, and it is reaped at most once. */
  lemma NoSignalAfterReap(cleanup: nat, inputCapacity: nat, outputCapacity: nat, inputs: seq<Inputs>)
    ensures var actions := Run(Begun(cleanup, inputCapacity, outputCapacity), inputs).s.group.actions;
            forall i, j :: 0 <= i < j < |actions| && actions[i].Reaped? ==>
              !actions[j].Signalled? && !actions[j].Reaped?
  {
    BegunInv(cleanup, inputCapacity, outputCapacity);
    RunKeeps(Begun(cleanup, inputCapacity, outputCapacity), inputs);
    hide Run, Begun, RelayInv, FeedInv, PlanInv;
  }

  /** The first turn whose clock has reached the end of the schedule returns; teardown cannot be extended. */
  lemma TeardownEndsOnTime(cleanup: nat, inputCapacity: nat, outputCapacity: nat, inputs: seq<Inputs>, x: Inputs)
    requires var r := Run(Begun(cleanup, inputCapacity, outputCapacity), inputs);
             r.Running? && r.s.plan.stopping && (x.now < 0 || x.now >= r.s.plan.stopAt)
    ensures Run(Begun(cleanup, inputCapacity, outputCapacity), inputs + [x]).Returned?
  {
    var first := Begun(cleanup, inputCapacity, outputCapacity);
    BegunInv(cleanup, inputCapacity, outputCapacity);
    RunKeeps(first, inputs);
    hide Begun, Inv, Judge;
    assert (inputs + [x])[..|inputs|] == inputs;
    var s := Run(first, inputs).s;
    JudgeKeeps(s, x);
    if Judge(s, x).Running? { RunningIsBeforeTheEnd(s, x); }
  }

  lemma RunningIsBeforeTheEnd(s: Custody, x: Inputs)
    requires Judge(s, x).Running?
    ensures x.now >= 0 && (Judge(s, x).s.plan.stopping ==> x.now < Judge(s, x).s.plan.stopAt)
  {
    hide Gather, TermDue, KillDue, Observe;
  }

  /** The poll never sleeps past the next deadline that is still to be acted on, nor returns early without cause. */
  lemma PollStopsAtTheNextDeadline(p: Plan, now: int)
    ensures PollWait(p, now) <= POLL_MS
    ensures p.stopping ==>
              && (PollWait(p, now) == 0 || now + PollWait(p, now) <= p.stopAt)
              && (!p.terminated ==> PollWait(p, now) == 0 || now + PollWait(p, now) <= p.termAt)
              && (!p.killed ==> PollWait(p, now) == 0 || now + PollWait(p, now) <= p.killAt)
    ensures p.stopping && PollWait(p, now) == 0 ==>
              now >= p.stopAt || (!p.terminated && now >= p.termAt) || (!p.killed && now >= p.killAt)
  {
  }
}
