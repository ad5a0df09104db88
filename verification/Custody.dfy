/**
 The supervisor between an owner and its worker process (custody.c): a poll loop that relays both
 directions through bounded queues and tears the worker's process group down on a fixed schedule.
 */
module Custody {
  import opened Bytes

  const POLL_MS: nat := 10

  datatype Signal = Term | Kill

  /** What the supervisor does to the worker's process group. */
  datatype Action = Signalled(signal: Signal) | Reaped

  /** The worker process and, as history, what was done to its group. */
  datatype Group = Group(child: bool, owned: bool, lost: bool, exited: bool, status: int, actions: seq<Action>)

  datatype Plan = Plan(
    cleanup: nat, stopping: bool, terminated: bool, killed: bool, termAt: int, killAt: int, stopAt: int)

  /**
   Worker to owner. History: `produced` is what the worker has written so far, `ended` whether that is all,
   `taken` how much of it was read, `delivered` what the owner was given.
   */
  datatype Relay = Relay(
    buffer: seq<Byte>, capacity: nat, open: bool, eof: bool,
    produced: seq<Byte>, ended: bool, taken: nat, delivered: seq<Byte>)

  /** Owner to worker, with what was read from the one and written to the other. */
  datatype Feed = Feed(buffer: seq<Byte>, capacity: nat, open: bool, received: seq<Byte>, forwarded: seq<Byte>)

  datatype Custody = Custody(
    group: Group, plan: Plan, relay: Relay, feed: Feed, diagnostic: bool, ownerLive: bool, failure: int)

  function Begun(cleanup: nat, inputCapacity: nat, outputCapacity: nat): Custody {
    Custody(Group(true, true, false, false, 0, []), Plan(cleanup, false, false, false, 0, 0, 0),
            Relay([], outputCapacity, true, false, [], false, 0, []),
            Feed([], inputCapacity, true, [], []), true, true, 0)
  }

  /** Only the unreaped child pins the identity of its process group. */
  function GroupSignal(g: Group, signal: Signal): Group {
    if g.child && g.owned && !g.lost then g.(actions := g.actions + [Signalled(signal)]) else g
  }

  function Less(a: int, b: int): int { if a < b then a else b }

  function Least(a: nat, b: nat): nat { if a < b then a else b }

  /** A failure drops what was meant for the owner and stops listening to the worker. */
  function Sever(r: Relay, failure: int): Relay {
    if failure != 0 then r.(buffer := [], open := false, eof := true) else r
  }

  /** The schedule is set once. */
  function Schedule(p: Plan, now: int): Plan {
    if p.stopping then p
    else p.(stopping := true, stopAt := now + p.cleanup,
            termAt := now + Less(p.cleanup / 4, 25), killAt := now + p.cleanup / 2)
  }

  function Withhold(f: Feed, stopping: bool): Feed {
    if stopping then f else f.(buffer := [], open := false)
  }

  /** The first reason is the one kept. */
  function Blame(failure: int, reason: int): int { if failure != 0 then failure else reason }

  function Stop(s: Custody, reason: int, now: int): Custody {
    var failure := Blame(s.failure, reason);
    s.(failure := failure, relay := Sever(s.relay, failure), feed := Withhold(s.feed, s.plan.stopping),
       plan := Schedule(s.plan, now))
  }

  function LoseOwner(s: Custody, now: int): Custody { Stop(s.(ownerLive := false), 127, now) }

  /** What asking for the child's state said. */
  datatype Waited = NoNews | WaitFailed | Ended(normally: bool, status: int)

  function Observe(g: Group, w: Waited): Group {
    if g.exited then g
    else
      match w
      case NoNews => g
      case WaitFailed => g.(lost := true)
      case Ended(normally, status) =>
        g.(exited := true, status := if normally && (status < 124 || status == 126) then status else 128)
  }

  function Reap(g: Group, outcome: int, reaped: bool): (Group, int) {
    var k := GroupSignal(g, Kill);
    if !g.exited || g.lost || !reaped then (k, 129)
    else (k.(child := false, actions := k.actions + [Reaped]), outcome)
  }

  /** Poll flags and the outcome of the read or write they allow. */
  datatype Flags = Flags(broken: bool, hungUp: bool, ready: bool)
  datatype Io = Moved(count: nat) | AtEnd | Again | Failed

  function Accept(f: Feed, data: seq<Byte>): Feed
    requires |f.buffer| <= f.capacity
  {
    var room := f.capacity - |f.buffer|;
    var bytes := if |data| > room then data[..room] else data;
    f.(buffer := f.buffer + bytes, received := f.received + bytes)
  }

  function ReadOwner(s: Custody, f: Flags, io: Io, data: seq<Byte>, now: int): Custody {
    if !s.ownerLive then s
    else if f.hungUp || f.broken then LoseOwner(s, now)
    else if s.plan.stopping || !f.ready || |s.feed.buffer| >= s.feed.capacity then s
    else
      match io
      case Moved(_) => s.(feed := Accept(s.feed, data))
      case Again => s
      case _ => LoseOwner(s, now)
  }

  /** A read brings at most what fits and what was written. */
  function Collect(r: Relay, count: nat): Relay
    requires |r.buffer| <= r.capacity && r.taken <= |r.produced|
  {
    var n := Least(count, Least(r.capacity - |r.buffer|, |r.produced| - r.taken));
    r.(buffer := r.buffer + r.produced[r.taken..r.taken + n], taken := r.taken + n)
  }

  /** A read gives zero only at the end of the worker's output. */
  function Conclude(r: Relay): Relay {
    if r.ended && r.taken == |r.produced| then r.(eof := true, open := false) else r
  }

  function ReadSdk(s: Custody, f: Flags, io: Io, now: int): Custody {
    if !s.relay.open then s
    else if f.broken then Stop(s, 126, now)
    else if !(f.ready || f.hungUp) || |s.relay.buffer| >= s.relay.capacity || s.relay.taken > |s.relay.produced| then s
    else
      match io
      case Moved(count) => s.(relay := Collect(s.relay, count))
      case AtEnd => s.(relay := Conclude(s.relay))
      case Again => s
      case Failed => Stop(s, 126, now)
  }

  function ReadDiagnostic(s: Custody, f: Flags, io: Io, now: int): Custody {
    if !s.diagnostic || !(f.ready || f.hungUp || f.broken) then s
    else if f.broken then Stop(s, 126, now)
    else
      match io
      case Moved(count) => if count > 0 then Stop(s, 131, now) else s.(diagnostic := false)
      case AtEnd => s.(diagnostic := false)
      case Again => s
      case Failed => Stop(s, 126, now)
  }

  function Forward(f: Feed, count: nat): Feed {
    var n := Least(count, |f.buffer|);
    f.(buffer := f.buffer[n..], forwarded := f.forwarded + f.buffer[..n])
  }

  function WriteSdk(s: Custody, f: Flags, io: Io, now: int): Custody {
    if !s.feed.open then s
    else if f.hungUp || f.broken then Stop(s, 126, now)
    else if !f.ready || s.feed.buffer == [] then s
    else
      match io
      case Moved(count) => s.(feed := Forward(s.feed, count))
      case Failed => Stop(s, 126, now)
      case _ => s
  }

  function Deliver(r: Relay, count: nat): Relay {
    var n := Least(count, |r.buffer|);
    r.(buffer := r.buffer[n..], delivered := r.delivered + r.buffer[..n])
  }

  function WriteOwner(s: Custody, f: Flags, io: Io, now: int): Custody {
    if f.hungUp || f.broken then LoseOwner(s, now)
    else if !f.ready || s.relay.buffer == [] then s
    else
      match io
      case Moved(count) => s.(relay := Deliver(s.relay, count))
      case Failed => LoseOwner(s, now)
      case _ => s
  }

  function PollWait(p: Plan, now: int): nat {
    if !p.stopping then POLL_MS
    else
      var a := p.stopAt - now;
      var b := if !p.terminated then Less(p.termAt - now, a) else a;
      var c := if !p.killed then Less(p.killAt - now, b) else b;
      if c <= 0 then 0 else Less(c, POLL_MS)
  }

  // ----- one turn of the loop

  /** Everything one turn learns from outside; `written` and `ends` are what the worker did meanwhile. */
  datatype Inputs = Inputs(
    now: int, waited: Waited, interrupted: bool, probed: bool, probeFailed: bool, ownerGone: bool, readerGone: bool,
    reaped: bool, written: seq<Byte>, ends: bool, pollFailed: bool, later: int,
    ownerFlags: Flags, ownerIo: Io, ownerData: seq<Byte>, diagnosticFlags: Flags, diagnosticIo: Io,
    sdkFlags: Flags, sdkIo: Io, inputFlags: Flags, inputIo: Io, readerFlags: Flags, readerIo: Io)

  datatype Turn = Running(s: Custody) | Returned(s: Custody, status: int)

  function Probe(s: Custody, x: Inputs): Custody {
    if !x.probed then if x.probeFailed then Stop(s, 126, x.now) else s
    else
      var a := ReadOwner(s, Flags(s.ownerLive && x.ownerGone, false, false), Again, [], x.now);
      WriteOwner(a, Flags(s.ownerLive && x.readerGone, false, false), Again, x.now)
  }

  /** Signals that are due, each sent once. */
  function TermDue(s: Custody, now: int): Custody {
    if s.plan.stopping && !s.plan.terminated && now >= s.plan.termAt
    then s.(group := GroupSignal(s.group, Term), plan := s.plan.(terminated := true)) else s
  }

  function KillDue(s: Custody, now: int): Custody {
    if s.plan.stopping && !s.plan.killed && now >= s.plan.killAt
    then s.(group := GroupSignal(s.group, Kill), plan := s.plan.(killed := true)) else s
  }

  /** News of the child, an interrupt, the owner's liveness; an exit or an end of output starts teardown. */
  function Gather(s: Custody, x: Inputs): Custody {
    var a := s.(group := Observe(s.group, x.waited));
    var b := if x.interrupted then Stop(a, 127, x.now) else a;
    var c := Probe(b, x);
    if c.group.exited || c.relay.eof then Stop(c, 0, x.now) else c
  }

  function Finished(s: Custody, outcome: int, reaped: bool): (t: Turn)
    ensures t.Returned?
  {
    var (g, status) := Reap(s.group, outcome, reaped);
    Returned(s.(group := g), status)
  }

  /** Whether to go on, once due signals are sent. */
  function Decide(s: Custody, x: Inputs): Turn {
    if s.plan.stopping && s.group.exited && s.relay.eof && !s.diagnostic && s.relay.buffer == [] then
      Finished(s, if s.failure != 0 then s.failure else s.group.status, x.reaped)
    else if s.plan.stopping && x.now >= s.plan.stopAt then Finished(s, 129, x.reaped)
    else Running(s)
  }

  function Judge(s: Custody, x: Inputs): Turn {
    if x.now < 0 then Finished(s, 129, x.reaped)
    else if !s.group.exited && x.waited.WaitFailed? then Returned(s.(group := Observe(s.group, x.waited)), 129)
    else Decide(KillDue(TermDue(Gather(s, x), x.now), x.now), x)
  }

  /** The worker runs on while the loop polls. */
  function Progress(r: Relay, x: Inputs): Relay {
    if r.ended then r else r.(produced := r.produced + x.written, ended := x.ends)
  }

  function Transfer(s: Custody, x: Inputs): Custody {
    var now := x.later;
    var a := ReadOwner(s, x.ownerFlags, x.ownerIo, x.ownerData, now);
    var b := ReadDiagnostic(a, x.diagnosticFlags, x.diagnosticIo, now);
    var c := ReadSdk(b, x.sdkFlags, x.sdkIo, now);
    var d := if !c.plan.stopping then WriteSdk(c, x.inputFlags, x.inputIo, now) else c;
    if d.ownerLive then WriteOwner(d, x.readerFlags, x.readerIo, now) else d
  }

  function Iterate(s: Custody, x: Inputs): Turn {
    var j := Judge(s, x);
    if j.Returned? then j
    else
      var p := j.s.(relay := Progress(j.s.relay, x));
      if x.pollFailed then Running(Stop(p, 126, x.now))
      else if x.later < 0 then Finished(p, 129, x.reaped)
      else Running(Transfer(p, x))
  }

  /** `supervise` over any inputs, and the parting signal of `main` once it has returned. */
  function Run(s: Custody, inputs: seq<Inputs>): Turn {
    if inputs == [] then Running(s)
    else
      var before := Run(s, inputs[..|inputs| - 1]);
      if before.Returned? then before
      else
        var turn := Iterate(before.s, inputs[|inputs| - 1]);
        if turn.Returned? then Returned(turn.s.(group := GroupSignal(turn.s.group, Kill)), turn.status) else turn
  }
}
