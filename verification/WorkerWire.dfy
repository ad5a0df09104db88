/** What the worker's output descriptor carries over every run (worker.c). */
module WorkerWire {
  import opened Bytes
  import opened Reports
  import opened OutputQueue
  import opened Worker
  import opened WorkerSafety
  import opened WorkerRuns
  import Credit
  import Exchange

  /** The frame text an event brings. */
  function LineOf(e: Event): seq<Byte> {
    if e.EnterIo? || e.LeaveIo? || e.Wrote? || e.Stopped? then [] else e.line
  }

  /** Whether an event is a write of the descriptor. */
  predicate Writes(w: Worker, e: Event) { e.Wrote? && !w.exited && !w.io && e.count <= Used(w.wire.out) }

  /** The frame gained between two logs, with the text its event brought. */
  function Gained(before: Wire, after: Wire, line: seq<Byte>): seq<Frame<Tag>> {
    if |after.log| > |before.log| then [Frame(line, after.log[|after.log| - 1])] else []
  }

  /** Every frame a run has appended, in order. */
  function Appended(sha: Hash, now: int, line: seq<Byte>, events: seq<Event>): seq<Frame<Tag>> {
    if events == [] then Gained(NOTHING_SENT, Boot(now, line).wire, line)
    else
      var rest, e := events[..|events| - 1], events[|events| - 1];
      Appended(sha, now, line, rest)
      + Gained(Reached(sha, now, line, rest).wire, Reached(sha, now, line, events).wire, LineOf(e))
  }

  /** Every byte that has left, in order: at each write as much of the front of the buffer as it took. */
  function Carried(sha: Hash, now: int, line: seq<Byte>, events: seq<Event>): seq<Byte> {
    if events == [] then []
    else
      var rest, e := events[..|events| - 1], events[|events| - 1];
      var w := Reached(sha, now, line, rest);
      Carried(sha, now, line, rest) + if Writes(w, e) then Front(w.wire.out, e.count) else []
  }

  function Front(q: Queue<Tag>, count: nat): seq<Byte>
    requires count <= Used(q)
  {
    if q.gone <= |Flatten(q.frames)| then Buffered(q)[..count] else []
  }

  /** Output is left alone, or one frame of this text is appended whole. */
  ghost predicate Grows(before: Wire, line: seq<Byte>, after: Wire) {
    || (after.out == before.out && after.log == before.log)
    || (&& |after.log| == |before.log| + 1 && Fits(before.out, line)
        && var tag := after.log[|before.log|];
        after.log == before.log + [tag] && after.out == Append(before.out, line, tag))
  }

  lemma SpokenGrows(wire: Wire, reply: Reply, line: seq<Byte>)
    ensures Grows(wire, line, Spoken(wire, reply, line))
  {
    hide Used;
  }

  lemma CarryGrows(w: Worker, d: Decision, line: seq<Byte>)
    ensures Grows(w.wire, line, Carry(w, d, line).wire) && Grows(w.wire, line, Conclude(w, d, line).wire)
    ensures Grows(w.wire, line, Called(w, d, line).wire)
  {
    SpokenGrows(w.wire, d.reply, line);
    hide Spoken, Adjust, Grows, Invalid;
  }

  lemma FailureGrows(w: Worker, now: int, withdrawal: Exchange.Withdrawal, line: seq<Byte>)
    ensures Grows(w.wire, line, RunFailure(w, now, withdrawal, line).wire)
  {
    hide Carry, Failed, Exchange.Fail, Used;
    CarryGrows(w, Failed(w.core.(exchange := Exchange.Fail(w.core.exchange)), now, withdrawal), line);
  }

  lemma ResponseGrows(w: Worker, m: Message, now: int, withdrawal: Exchange.Withdrawal, line: seq<Byte>)
    ensures Grows(w.wire, line, RunResponse(w, m, now, withdrawal, line).wire)
  {
    hide Called, Callback, RunFailure, Exchange.Receive, Used;
    FailureGrows(w, now, withdrawal, line);
    var (y, delivery) := Exchange.Receive(w.core.exchange, !m.observe.Absent?, m.code);
    if delivery.Some? {
      var busy, fits := w.feed.report.Holding?, Fits(w.wire.out, line);
      CarryGrows(w, Callback(w.core.(exchange := y), delivery.value, m, busy, now, withdrawal, fits, line), line);
    }
  }

  lemma CommandGrows(sha: Hash, w: Worker, id: string, command: Command, now: int, timeout: nat, line: seq<Byte>)
    ensures Grows(w.wire, line, RunCommand(sha, w, id, command, now, timeout, line).wire)
  {
    hide Conclude, Execute, Used;
    var c := w.wire.commands;
    var v := w.(wire := Settle(w.wire.(commands := c + 1), c, Waiting));
    CarryGrows(v, Execute(sha, v.core, c, id, command, now, timeout), line);
  }

  lemma PumpGrows(sha: Hash, w: Worker, now: int, line: seq<Byte>)
    ensures Grows(w.wire, line, PumpStream(sha, w, line).wire)
    ensures Grows(w.wire, line, PumpReport(sha, w, now, line).wire)
  {
    hide Used, Following, Pump, Emitted, StreamContent, Credit.Assign, Credit.Available;
  }

  lemma ApplyGrows(sha: Hash, w: Worker, e: Event)
    requires !Writes(w, e)
    ensures Grows(w.wire, LineOf(e), Apply(sha, w, e).wire)
  {
    hide RunCommand, RunResponse, RunFailure, Conclude, PumpStream, PumpReport, Timeout, Maintain, Used;
    match e
    case Commanded(id, command, now, timeout, line) => CommandGrows(sha, w, id, command, now, timeout, line);
    case Responded(m, now, withdrawal, line) => ResponseGrows(w, m, now, withdrawal, line);
    case Broken(now, withdrawal, line) => FailureGrows(w, now, withdrawal, line);
    case Ticked(now, line) => CarryGrows(w, Timeout(w.core, now), line);
    case Maintained(now, sending, withdrawal, line) =>
      CarryGrows(w, Maintain(w.core, now, sending, withdrawal), line);
    case PumpedStream(line) => PumpGrows(sha, w, 0, line);
    case PumpedReport(now, line) => PumpGrows(sha, w, now, line);
    case Wrote(_) =>
    case EnterIo =>
    case LeaveIo =>
    case Stopped =>
  }

  /** No write is refused, so each one moves its bytes. */
  lemma WriteFlushes(sha: Hash, w: Worker, e: Event)
    requires Inv(sha, w) && Writes(w, e)
    ensures Apply(sha, w, e).wire == w.wire.(out := Flush(w.wire.out, e.count))
  {
    hide SlotInv, ControlInv, ToldInv, TrackInv, Used, Completed, Credited, Completing, Numbered;
    WriteIsNeverRefused(w, e.count);
    hide Flush;
  }

  /** The pipe of the output queue, read off a run. */
  function PipeOf(sha: Hash, now: int, line: seq<Byte>, events: seq<Event>): Pipe<Tag> {
    Pipe(Reached(sha, now, line, events).wire.out, Appended(sha, now, line, events), Carried(sha, now, line, events))
  }

  ghost predicate Logged(p: Pipe<Tag>, wire: Wire) { PipeInv(p) && p.queue == wire.out && Tags(p.appended) == wire.log }

  lemma GrowthIsLogged(p: Pipe<Tag>, before: Wire, line: seq<Byte>, after: Wire)
    requires Logged(p, before) && Grows(before, line, after)
    ensures Logged(Pipe(after.out, p.appended + Gained(before, after, line), p.wire), after)
  {
    hide PipeInv, Used;
    var more := p.appended + Gained(before, after, line);
    if |after.log| > |before.log| {
      var tag := after.log[|before.log|];
      AppendingKeepsInv(p, line, tag);
      assert Tags(more) == Tags(p.appended) + [tag];
    } else {
      assert more == p.appended;
    }
  }

  lemma WriteIsLogged(p: Pipe<Tag>, before: Wire, count: nat)
    requires Logged(p, before) && count <= Used(before.out)
    ensures var out := Flush(before.out, count);
            Logged(Pipe(out, p.appended, p.wire + Front(before.out, count)), before.(out := out))
  {
    WritingKeepsInv(p, count);
    hide Flush, Flatten;
  }

  lemma NothingIsLogged()
    ensures Logged(Pipe(Queue([], 0), [], []), NOTHING_SENT)
  {
  }

  lemma {:induction false} RunIsLogged(sha: Hash, now: int, line: seq<Byte>, events: seq<Event>)
    ensures Logged(PipeOf(sha, now, line, events), Reached(sha, now, line, events).wire)
  {
    hide Logged, Grows, Gained, Front, Apply, Boot, Inv, Writes, Flush;
    if events == [] {
      NothingIsLogged();
      BootGrows(now, line);
      GrowthIsLogged(Pipe(Queue([], 0), [], []), NOTHING_SENT, line, Boot(now, line).wire);
      var first := Gained(NOTHING_SENT, Boot(now, line).wire, line);
      assert [] + first == first;
    } else {
      var rest, e := events[..|events| - 1], events[|events| - 1];
      RunIsLogged(sha, now, line, rest);
      StepIsLogged(sha, PipeOf(sha, now, line, rest), now, line, rest, e);
    }
  }

  lemma BootGrows(now: int, line: seq<Byte>)
    ensures Grows(NOTHING_SENT, line, Boot(now, line).wire)
  {
    hide Used;
  }

  lemma StepIsLogged(sha: Hash, p: Pipe<Tag>, now: int, line: seq<Byte>, rest: seq<Event>, e: Event)
    requires Logged(p, Reached(sha, now, line, rest).wire)
    ensures var w := Reached(sha, now, line, rest);
            var v := Apply(sha, w, e).wire;
            var sent := if Writes(w, e) then Front(w.wire.out, e.count) else [];
            Logged(Pipe(v.out, p.appended + Gained(w.wire, v, LineOf(e)), p.wire + sent), v)
  {
    var w := Reached(sha, now, line, rest);
    Reaches(sha, now, line, rest);
    hide Reached, Logged, Grows, Inv, Apply, Front, Flush;
    if Writes(w, e) {
      WriteFlushes(sha, w, e);
      WriteIsLogged(p, w.wire, e.count);
      assert p.appended + Gained(w.wire, Apply(sha, w, e).wire, LineOf(e)) == p.appended;
    } else {
      ApplyGrows(sha, w, e);
      GrowthIsLogged(p, w.wire, LineOf(e), Apply(sha, w, e).wire);
      assert p.wire + [] == p.wire;
    }
  }

  /**
   In every run the bytes that have left, followed by those buffered, are the frames the handlers and pumps
   appended, whole and in order; their tags are the log that the other theorems speak of; and a frame is off the
   queue exactly when its last byte has left.
   */
  lemma DescriptorCarriesEveryFrame(sha: Hash, now: int, line: seq<Byte>, events: seq<Event>, k: nat)
    requires k <= |Appended(sha, now, line, events)|
    ensures var wire := Reached(sha, now, line, events).wire;
            var frames, sent := Appended(sha, now, line, events), Carried(sha, now, line, events);
            && Tags(frames) == wire.log
            && wire.out.gone <= |Flatten(wire.out.frames)|
            && sent + Buffered(wire.out) == Flatten(frames)
            && (k <= |frames| - |wire.out.frames| <==> |Flatten(frames[..k])| <= |sent|)
  {
    hide Reached, Appended, Carried, Flatten;
    RunIsLogged(sha, now, line, events);
    SentIsExact(PipeOf(sha, now, line, events), k);
  }
}
