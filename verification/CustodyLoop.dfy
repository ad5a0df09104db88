/** The relay queues and the supervision loop in place (custody.c). */
module CustodyLoop {
  import opened Bytes
  import opened Custody
  import C = Custody

  class RelayQueue {
    const bytes: array<Byte>
    var size: nat

    ghost predicate Valid()
      reads this
    {
      size <= bytes.Length
    }

    ghost function Contents(): seq<Byte>
      requires Valid()
      reads this, bytes
    {
      bytes[..size]
    }

    constructor (capacity: nat)
      ensures Valid() && fresh(bytes) && bytes.Length == capacity && Contents() == []
    {
      bytes := new Byte[capacity](i => 0);
      size := 0;
    }

    /** What a read of the descriptor brought. */
    method Fill(data: seq<Byte>)
      requires Valid() && size + |data| <= bytes.Length
      modifies this, bytes
      ensures Valid() && Contents() == old(Contents()) + data
    {
      var i := 0;
      while i < |data|
        invariant 0 <= i <= |data| && size == old(size)
        invariant bytes[..size + i] == old(bytes[..size]) + data[..i]
      {
        bytes[size + i] := data[i];
        i := i + 1;
      }
      size := size + |data|;
      assert data[..|data|] == data;
    }

    /** `memmove` after a write of `count` bytes. */
    method Drain(count: nat)
      requires Valid() && count <= size
      modifies this, bytes
      ensures Valid() && Contents() == old(Contents())[count..]
    {
      size := size - count;
      var i := 0;
      while i < size
        invariant 0 <= i <= size == old(size) - count
        invariant forall j :: i + count <= j < bytes.Length ==> bytes[j] == old(bytes[j])
        invariant forall j :: 0 <= j < i ==> bytes[j] == old(bytes[j + count])
      {
        bytes[i] := bytes[i + count];
        i := i + 1;
      }
    }

    method Clear()
      modifies this
      ensures Valid() && Contents() == []
    {
      size := 0;
    }
  }

  class Supervisor {
    var group: Group
    var plan: Plan
    var relay: Relay
    var feed: Feed
    var diagnostic: bool
    var ownerLive: bool
    var failure: int
    const toSdk: RelayQueue
    const toOwner: RelayQueue

    /** The records leave their buffers to the two queues. */
    ghost predicate Valid()
      reads this, toSdk, toOwner
    {
      && toSdk.Valid() && toOwner.Valid() && toSdk != toOwner && toSdk.bytes != toOwner.bytes
      && toSdk.bytes.Length == feed.capacity && toOwner.bytes.Length == relay.capacity
      && relay.taken <= |relay.produced|
    }

    ghost function View(): Custody
      requires Valid()
      reads this, toSdk, toSdk.bytes, toOwner, toOwner.bytes
    {
      Custody(group, plan, relay.(buffer := toOwner.Contents()), feed.(buffer := toSdk.Contents()), diagnostic,
              ownerLive, failure)
    }

    constructor (cleanup: nat, inputCapacity: nat, outputCapacity: nat)
      ensures Valid() && View() == Begun(cleanup, inputCapacity, outputCapacity)
      ensures fresh(toSdk) && fresh(toOwner) && fresh(toSdk.bytes) && fresh(toOwner.bytes)
    {
      var first := Begun(cleanup, inputCapacity, outputCapacity);
      group, plan, relay, feed := first.group, first.plan, first.relay, first.feed;
      diagnostic, ownerLive, failure := true, true, 0;
      toSdk := new RelayQueue(inputCapacity);
      toOwner := new RelayQueue(outputCapacity);
    }

    method Stop(reason: int, now: int)
      requires Valid()
      modifies this, toSdk, toOwner
      ensures Valid() && View() == C.Stop(old(View()), reason, now)
    {
      if reason != 0 && failure == 0 { failure := reason; }
      if failure != 0 {
        toOwner.Clear();
        relay := relay.(open := false, eof := true);
      }
      if plan.stopping { return; }
      toSdk.Clear();
      feed := feed.(open := false);
      plan := plan.(stopping := true, stopAt := now + plan.cleanup,
                    termAt := now + Less(plan.cleanup / 4, 25), killAt := now + plan.cleanup / 2);
    }

    method Lose(now: int)
      requires Valid()
      modifies this, toSdk, toOwner
      ensures Valid() && View() == LoseOwner(old(View()), now)
    {
      hide C.Stop;
      ownerLive := false;
      Stop(127, now);
    }

    method ReadOwner(f: Flags, io: Io, data: seq<Byte>, now: int)
      requires Valid()
      modifies this, toSdk, toSdk.bytes, toOwner
      ensures Valid() && View() == C.ReadOwner(old(View()), f, io, data, now)
    {
      hide LoseOwner;
      if !ownerLive { return; }
      if f.hungUp || f.broken {
        Lose(now);
        return;
      }
      if plan.stopping || !f.ready || toSdk.size == toSdk.bytes.Length { return; }
      if io.Moved? {
        var room := toSdk.bytes.Length - toSdk.size;
        var bytes := if |data| > room then data[..room] else data;
        toSdk.Fill(bytes);
        feed := feed.(received := feed.received + bytes);
      } else if !io.Again? {
        Lose(now);
      }
    }

    method ReadSdk(f: Flags, io: Io, now: int)
      requires Valid()
      modifies this, toSdk, toOwner, toOwner.bytes
      ensures Valid() && View() == C.ReadSdk(old(View()), f, io, now)
    {
      hide C.Stop;
      if !relay.open { return; }
      if f.broken {
        Stop(126, now);
        return;
      }
      if !(f.ready || f.hungUp) || toOwner.size == toOwner.bytes.Length { return; }
      hide Collect;
      match io
      case Moved(count) => TakeIn(count);
      case AtEnd =>
        if relay.ended && relay.taken == |relay.produced| { relay := relay.(eof := true, open := false); }
      case Again =>
      case Failed => Stop(126, now);
    }

    method TakeIn(count: nat)
      requires Valid()
      modifies this`relay, toOwner, toOwner.bytes
      ensures Valid() && View() == old(View()).(relay := Collect(old(View()).relay, count))
    {
      var n := Least(count, Least(toOwner.bytes.Length - toOwner.size, |relay.produced| - relay.taken));
      toOwner.Fill(relay.produced[relay.taken..relay.taken + n]);
      relay := relay.(taken := relay.taken + n);
    }

    method ReadDiagnostic(f: Flags, io: Io, now: int)
      requires Valid()
      modifies this, toSdk, toOwner
      ensures Valid() && View() == C.ReadDiagnostic(old(View()), f, io, now)
    {
      hide C.Stop;
      if !diagnostic || !(f.ready || f.hungUp || f.broken) { return; }
      if f.broken {
        Stop(126, now);
        return;
      }
      match io
      case Moved(count) => if count > 0 { Stop(131, now); } else { diagnostic := false; }
      case AtEnd => diagnostic := false;
      case Again =>
      case Failed => Stop(126, now);
    }

    method WriteSdk(f: Flags, io: Io, now: int)
      requires Valid()
      modifies this, toSdk, toSdk.bytes, toOwner
      ensures Valid() && View() == C.WriteSdk(old(View()), f, io, now)
    {
      hide C.Stop;
      if !feed.open { return; }
      if f.hungUp || f.broken {
        Stop(126, now);
        return;
      }
      if !f.ready || toSdk.size == 0 { return; }
      if io.Moved? {
        var n := Least(io.count, toSdk.size);
        feed := feed.(forwarded := feed.forwarded + toSdk.bytes[..n]);
        toSdk.Drain(n);
      } else if io.Failed? {
        Stop(126, now);
      }
    }

    method WriteOwner(f: Flags, io: Io, now: int)
      requires Valid()
      modifies this, toSdk, toOwner, toOwner.bytes
      ensures Valid() && View() == C.WriteOwner(old(View()), f, io, now)
    {
      hide LoseOwner;
      if f.hungUp || f.broken {
        Lose(now);
        return;
      }
      if !f.ready || toOwner.size == 0 { return; }
      if io.Moved? {
        var n := Least(io.count, toOwner.size);
        relay := relay.(delivered := relay.delivered + toOwner.bytes[..n]);
        toOwner.Drain(n);
      } else if io.Failed? {
        Lose(now);
      }
    }

    /** The tail of a turn: both directions move once. */
    method Transfer(x: Inputs)
      requires Valid()
      modifies this, toSdk, toSdk.bytes, toOwner, toOwner.bytes
      ensures Valid() && View() == C.Transfer(old(View()), x)
    {
      hide C.ReadOwner, C.ReadDiagnostic, C.ReadSdk, C.WriteSdk, C.WriteOwner;
      ReadOwner(x.ownerFlags, x.ownerIo, x.ownerData, x.later);
      ReadDiagnostic(x.diagnosticFlags, x.diagnosticIo, x.later);
      ReadSdk(x.sdkFlags, x.sdkIo, x.later);
      if !plan.stopping { WriteSdk(x.inputFlags, x.inputIo, x.later); }
      if ownerLive { WriteOwner(x.readerFlags, x.readerIo, x.later); }
    }

    /** The head of a turn, up to the signals. */
    method Gather(x: Inputs)
      requires Valid()
      modifies this, toSdk, toSdk.bytes, toOwner, toOwner.bytes
      ensures Valid() && View() == C.Gather(old(View()), x)
    {
      hide C.Stop, C.Probe, Observe;
      group := Observe(group, x.waited);
      if x.interrupted { Stop(127, x.now); }
      Probe(x);
      if group.exited || relay.eof { Stop(0, x.now); }
    }

    /** `owner_liveness`. */
    method Probe(x: Inputs)
      requires Valid()
      modifies this, toSdk, toSdk.bytes, toOwner, toOwner.bytes
      ensures Valid() && View() == C.Probe(old(View()), x)
    {
      hide C.Stop, C.ReadOwner, C.WriteOwner;
      if x.probed {
        var gone, unread := ownerLive && x.ownerGone, ownerLive && x.readerGone;
        ReadOwner(Flags(gone, false, false), Again, [], x.now);
        WriteOwner(Flags(unread, false, false), Again, x.now);
      } else if x.probeFailed {
        Stop(126, x.now);
      }
    }

    method SendDueSignals(now: int)
      requires Valid()
      modifies this
      ensures Valid() && View() == KillDue(TermDue(old(View()), now), now)
    {
      if plan.stopping && !plan.terminated && now >= plan.termAt {
        group := GroupSignal(group, Term);
        plan := plan.(terminated := true);
      }
      if plan.stopping && !plan.killed && now >= plan.killAt {
        group := GroupSignal(group, Kill);
        plan := plan.(killed := true);
      }
    }

    method Finish(outcome: int, reaped: bool) returns (status: int)
      requires Valid()
      modifies this
      ensures Valid() && Returned(View(), status) == Finished(old(View()), outcome, reaped)
    {
      var (g, code) := Reap(group, outcome, reaped);
      group := g;
      status := code;
    }

    /** One turn of `supervise`; Some once it returns. */
    method Turn(x: Inputs) returns (status: Option<int>)
      requires Valid()
      modifies this, toSdk, toSdk.bytes, toOwner, toOwner.bytes
      ensures Valid()
      ensures Iterate(old(View()), x) == if status.Some? then Returned(View(), status.value) else Running(View())
    {
      hide C.Gather, KillDue, TermDue, Observe, C.Transfer, C.Stop, Finished, Progress;
      var code: int;
      if x.now < 0 {
        code := Finish(129, x.reaped);
        return Some(code);
      }
      if !group.exited && x.waited.WaitFailed? {
        group := Observe(group, x.waited);
        return Some(129);
      }
      Gather(x);
      SendDueSignals(x.now);
      if plan.stopping && group.exited && relay.eof && !diagnostic && toOwner.size == 0 {
        code := Finish(if failure != 0 then failure else group.status, x.reaped);
        return Some(code);
      }
      if plan.stopping && x.now >= plan.stopAt {
        code := Finish(129, x.reaped);
        return Some(code);
      }
      WorkerRuns(x);
      if x.pollFailed {
        Stop(126, x.now);
        return None;
      }
      if x.later < 0 {
        code := Finish(129, x.reaped);
        return Some(code);
      }
      Transfer(x);
      return None;
    }

    /** The worker writes while the loop polls. */
    method WorkerRuns(x: Inputs)
      requires Valid()
      modifies this
      ensures Valid() && View() == old(View()).(relay := Progress(old(View()).relay, x))
    {
      relay := Progress(relay, x);
    }
  }
}
