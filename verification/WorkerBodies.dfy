/** What the worker sends in pieces is always a body that an upload acceptor takes (worker.c). */
module WorkerBodies {
  import opened Bytes
  import opened Reports
  import opened OutputQueue
  import opened Worker
  import opened WorkerSafety
  import opened WorkerRuns
  import Body
  import Credit
  import Exchange
  import Freshness

  predicate Small(body: seq<Byte>) { |body| <= Body.BODY_MAX }

  /** A body that is sent in pieces and within the upload limit. */
  predicate Large(body: seq<Byte>) { 32768 < |body| && Small(body) }

  predicate SmallStream(s: Stream) { s.Stream? ==> Large(s.body) }

  ghost predicate SmallFeed(f: Feed) { forall p :: p in f.admitted ==> Small(p) }

  ghost predicate SmallReplies(outcomes: map<nat, Outcome>) {
    forall c :: c in outcomes && outcomes[c].Whole? ==> Large(outcomes[c].body)
  }

  /** Everything admitted, being streamed or streamed whole is within the upload limit. */
  ghost predicate SmallInv(w: Worker) {
    SmallFeed(w.feed) && SmallStream(w.core.stream) && SmallReplies(w.wire.outcomes)
  }

  predicate SmallAction(a: FeedAction) { a.Storing? || a.Overlapping? ==> Small(a.payload) }

  /** The stream goes on, or ends, or begins with a body of the right size; so does a report. */
  predicate Modest(s: Stream, d: Decision) {
    (d.core.stream == s || SmallStream(d.core.stream)) && SmallAction(d.feed)
  }

  lemma ExecuteIsModest(sha: Hash, k: Core, c: nat, id: string, command: Command, now: int, timeout: nat)
    ensures Modest(k.stream, Execute(sha, k, c, id, command, now, timeout))
  {
    hide Exchange.Request, Exchange.Observe, Exchange.Cancel, Credit.Acknowledge, Body.Accept, Body.Exposed;
  }

  lemma TerminalIsModest(k: Core, now: int, w: Exchange.Withdrawal, action: FeedAction)
    requires SmallAction(action)
    ensures Modest(k.stream, Terminal(k, now, w, action))
  {
    hide Exchange.Cancel;
  }

  lemma ClockIsModest(k: Core, now: int, sending: Exchange.Sending, w: Exchange.Withdrawal)
    ensures Modest(k.stream, Timeout(k, now)) && Modest(k.stream, Maintain(k, now, sending, w))
  {
    hide Terminal, Exchange.Observe, Large;
    TerminalIsModest(k, now, w, Discarding);
    TerminalIsModest(k.(exchange := Exchange.Observe(k.exchange, true, sending).0), now, w, Discarding);
  }

  lemma FailureIsModest(k: Core, now: int, w: Exchange.Withdrawal)
    ensures Modest(k.stream, Failed(k, now, w))
  {
    hide Terminal, Large;
    TerminalIsModest(k, now, w, Discarding);
  }

  lemma JudgedIsModest(k: Core, payload: seq<Byte>, admission: Freshness.Admission, armed: Option<int>,
                       renewal: bool, busy: bool, now: int, w: Exchange.Withdrawal)
    requires Small(payload)
    ensures Modest(k.stream, Judged(k, payload, admission, armed, renewal, busy, now, w))
  {
    hide Terminal;
    TerminalIsModest(k, now, w, Discarding);
    if armed.Some? {
      var l := k.(watch := k.watch.(refreshAt := armed.value, renewing := k.watch.renewing && !renewal));
      TerminalIsModest(l, now, w, Overlapping(payload));
    }
  }

  lemma NotifiedIsModest(k: Core, m: Message, renewal: bool, busy: bool, now: int, w: Exchange.Withdrawal)
    ensures Modest(k.stream, Notified(k, m, renewal, busy, now, w))
  {
    hide Terminal, Judged, Freshness.NextAdmission, Armed;
    TerminalIsModest(k, now, w, Discarding);
    if Prepared(m).Some? {
      var meta := Prepared(m).value;
      var (weighed, admission) := Weigh(k.watch, meta, now, renewal);
      JudgedIsModest(k.(watch := weighed), m.payload, admission, Armed(k.watch, meta, now), renewal, busy, now, w);
    }
  }

  lemma InitialIsModest(k: Core, m: Message, now: int, fits: bool)
    ensures Modest(k.stream, InitialResponse(k, m, now, fits))
  {
    hide Freshness.NextAdmission, Armed;
  }

  lemma CallbackIsModest(k: Core, delivery: Exchange.Delivery, m: Message, busy: bool, now: int,
                         w: Exchange.Withdrawal, fits: bool, line: seq<Byte>)
    requires Small(m.payload)
    ensures Modest(k.stream, Callback(k, delivery, m, busy, now, w, fits, line))
  {
    hide InitialResponse, Notified, Freshness.NextAdmission;
    InitialIsModest(k, m, now, fits);
    NotifiedIsModest(k, m, false, busy, now, w);
    NotifiedIsModest(k, m, true, busy, now, w);
  }

  // ----- every step

  lemma AdjustKeepsSmall(f: Feed, a: FeedAction, event: bool)
    requires SmallFeed(f) && SmallAction(a)
    ensures SmallFeed(Adjust(f, a, event))
  {
  }

  lemma SpokenKeepsSmall(wire: Wire, reply: Reply, line: seq<Byte>)
    requires SmallReplies(wire.outcomes)
    ensures SmallReplies(Spoken(wire, reply, line).outcomes)
  {
    hide Fits, Large;
  }

  lemma CarryKeepsSmall(w: Worker, d: Decision, line: seq<Byte>)
    requires SmallInv(w) && Modest(w.core.stream, d)
    ensures SmallInv(Carry(w, d, line)) && SmallInv(Conclude(w, d, line)) && SmallInv(Called(w, d, line))
  {
    hide SmallFeed, SmallReplies, SmallAction, Adjust, Spoken, Invalid, Large;
    AdjustKeepsSmall(w.feed, d.feed, d.core.watch.event);
    SpokenKeepsSmall(w.wire, d.reply, line);
  }

  lemma CommandKeepsSmall(sha: Hash, w: Worker, id: string, command: Command, now: int, timeout: nat, line: seq<Byte>)
    requires SmallInv(w)
    ensures SmallInv(RunCommand(sha, w, id, command, now, timeout, line))
  {
    hide Execute, Conclude, Modest, Large;
    var c := w.wire.commands;
    var v := w.(wire := Settle(w.wire.(commands := c + 1), c, Waiting));
    ExecuteIsModest(sha, v.core, c, id, command, now, timeout);
    CarryKeepsSmall(v, Execute(sha, v.core, c, id, command, now, timeout), line);
  }

  lemma FailureKeepsSmall(w: Worker, now: int, withdrawal: Exchange.Withdrawal, line: seq<Byte>)
    requires SmallInv(w)
    ensures SmallInv(RunFailure(w, now, withdrawal, line))
  {
    hide Carry, Failed, Modest, SmallInv, Exchange.Fail;
    var k := w.core.(exchange := Exchange.Fail(w.core.exchange));
    FailureIsModest(k, now, withdrawal);
    CarryKeepsSmall(w, Failed(k, now, withdrawal), line);
  }

  lemma ResponseKeepsSmall(w: Worker, m: Message, now: int, withdrawal: Exchange.Withdrawal, line: seq<Byte>)
    requires SmallInv(w)
    ensures SmallInv(RunResponse(w, m, now, withdrawal, line))
  {
    hide Called, Callback, RunFailure, Modest, SmallInv, Exchange.Receive, Fits;
    FailureKeepsSmall(w, now, withdrawal, line);
    var (y, delivery) := Exchange.Receive(w.core.exchange, !m.observe.Absent?, m.code);
    if delivery.Some? && |m.payload| <= Body.BODY_MAX {
      var k, busy, fits := w.core.(exchange := y), w.feed.report.Holding?, Fits(w.wire.out, line);
      CallbackIsModest(k, delivery.value, m, busy, now, withdrawal, fits, line);
      CarryKeepsSmall(w, Callback(k, delivery.value, m, busy, now, withdrawal, fits, line), line);
    }
  }

  /** Pumps admit nothing, and a streamed answer is whole only once its stream has ended. */
  lemma PumpKeepsSmall(sha: Hash, w: Worker, now: int, line: seq<Byte>)
    requires SmallInv(w)
    ensures SmallInv(PumpStream(sha, w, line)) && SmallInv(PumpReport(sha, w, now, line))
  {
    hide Room, Following, Emitted, StreamContent, Credit.Assign, Credit.Available, Large;
  }

  lemma WriteKeepsSmall(w: Worker, count: nat)
    requires SmallInv(w)
    ensures SmallInv(Write(w, count))
  {
    hide Credited, Completed, Completing, Flush, Tags, Large;
  }

  lemma ApplyKeepsSmall(sha: Hash, w: Worker, e: Event)
    requires SmallInv(w)
    ensures SmallInv(Apply(sha, w, e))
  {
    hide RunCommand, RunResponse, RunFailure, Conclude, Write, PumpStream, PumpReport, Timeout, Maintain, Used, Modest;
    hide SmallFeed, SmallReplies, Large;
    match e
    case Commanded(id, command, now, timeout, line) => CommandKeepsSmall(sha, w, id, command, now, timeout, line);
    case Responded(m, now, withdrawal, line) => ResponseKeepsSmall(w, m, now, withdrawal, line);
    case Broken(now, withdrawal, line) => FailureKeepsSmall(w, now, withdrawal, line);
    case Wrote(count) => WriteKeepsSmall(w, count);
    case Ticked(now, line) =>
      ClockIsModest(w.core, now, Exchange.Sent, Exchange.Direct);
      CarryKeepsSmall(w, Timeout(w.core, now), line);
    case Maintained(now, sending, withdrawal, line) =>
      ClockIsModest(w.core, now, sending, withdrawal);
      CarryKeepsSmall(w, Maintain(w.core, now, sending, withdrawal), line);
    case PumpedStream(line) => PumpKeepsSmall(sha, w, 0, line);
    case PumpedReport(now, line) => PumpKeepsSmall(sha, w, now, line);
    case EnterIo =>
    case LeaveIo =>
    case Stopped =>
  }

  lemma BootIsSmall(now: int, line: seq<Byte>)
    ensures SmallInv(Boot(now, line))
  {
    hide Fits;
  }

  lemma {:induction false} RunKeepsSmall(sha: Hash, w: Worker, events: seq<Event>)
    requires SmallInv(w)
    ensures SmallInv(Run(sha, w, events))
  {
    hide SmallInv, Apply;
    if events != [] {
      RunKeepsSmall(sha, w, events[..|events| - 1]);
      ApplyKeepsSmall(sha, Run(sha, w, events[..|events| - 1]), events[|events| - 1]);
    }
  }

  lemma ReachedIsSmall(sha: Hash, now: int, line: seq<Byte>, events: seq<Event>)
    ensures SmallInv(Reached(sha, now, line, events))
  {
    hide SmallInv;
    BootIsSmall(now, line);
    RunKeepsSmall(sha, Boot(now, line), events);
  }

  // ----- what that means

  /** An upload acceptor takes these pieces and is left with this body. */
  ghost predicate Uploads(sha: Hash, pieces: seq<Body.Piece>, body: seq<Byte>) {
    forall id :: Body.Identifier(id) ==>
      Body.Exposed(Body.AcceptAll(sha, Body.IDLE, Body.AsEvents(id, pieces))) == Some(body)
  }

  lemma LargeUploads(sha: Hash, body: seq<Byte>)
    requires Large(body)
    ensures Uploads(sha, Body.Transfer(sha, body), body)
  {
    hide Body.AcceptAll, Body.AsEvents, Body.Transfer, Body.Exposed;
    forall id | Body.Identifier(id)
      ensures Body.Exposed(Body.AcceptAll(sha, Body.IDLE, Body.AsEvents(id, Body.Transfer(sha, body)))) == Some(body)
    {
      Body.TransferIsAccepted(sha, id, body);
    }
  }

  /** Where the frames of the i-th delivered report stand among all report frames. */
  lemma {:induction false} FlatHolds(sha: Hash, delivered: seq<Delivered>, i: nat)
    requires i < |delivered|
    ensures Flat(sha, delivered[..i]) + Frames(sha, delivered[i].index, delivered[i].payload) <= Flat(sha, delivered)
  {
    hide Frames;
    var rest := delivered[..|delivered| - 1];
    if i < |rest| {
      FlatHolds(sha, rest, i);
      assert rest[..i] == delivered[..i];
    } else {
      assert delivered[..i] == rest;
    }
  }

  /**
   In every run the frames of each delivered report over 32768 bytes stand together on the log: the pieces of an
   upload that an acceptor takes and that leaves it with the admitted payload, then the report itself.
   */
  lemma DeliveredReportsAreAcceptedUploads(sha: Hash, now: int, line: seq<Byte>, events: seq<Event>, i: nat)
    requires i < |Reached(sha, now, line, events).feed.delivered|
    requires |Reached(sha, now, line, events).feed.delivered[i].payload| > 32768
    ensures var w := Reached(sha, now, line, events);
            var d := w.feed.delivered[i];
            var pieces := Body.Transfer(sha, d.payload);
            && d.index < |w.feed.admitted| && w.feed.admitted[d.index] == d.payload
            && Uploads(sha, pieces, d.payload)
            && Flat(sha, w.feed.delivered[..i]) + Show(d.index, pieces) + [Reported(d.index)]
               <= Contents(Numbered(w.wire.log))
  {
    var w := Reached(sha, now, line, events);
    var d := w.feed.delivered[i];
    ReportsLeaveWholeAndInOrder(sha, now, line, events);
    ReachedIsSmall(sha, now, line, events);
    hide Reached, Uploads, Body.Transfer, Flat, Numbered, SmallReplies;
    assert d.payload in w.feed.admitted;
    LargeUploads(sha, d.payload);
    FlatHolds(sha, w.feed.delivered, i);
    LargeFrames(sha, d.index, d.payload);
    var before, pieces := Flat(sha, w.feed.delivered[..i]), Show(d.index, Body.Transfer(sha, d.payload));
    assert before + (pieces + [Reported(d.index)]) == before + pieces + [Reported(d.index)];
  }

  lemma LargeFrames(sha: Hash, index: nat, payload: seq<Byte>)
    requires |payload| > 32768
    ensures Frames(sha, index, payload) == Show(index, Body.Transfer(sha, payload)) + [Reported(index)]
  {
  }

  /**
   In every run all that was said about a command answered by a streamed body is the pieces of an upload that an
   acceptor takes and that leaves it with that body, then the result.
   */
  lemma StreamedAnswersAreAcceptedUploads(sha: Hash, now: int, line: seq<Byte>, events: seq<Event>, c: nat)
    requires var outcomes := Reached(sha, now, line, events).wire.outcomes; c in outcomes && outcomes[c].Whole?
    ensures var wire := Reached(sha, now, line, events).wire;
            var body := wire.outcomes[c].body;
            var pieces := Body.Transfer(sha, body);
            Uploads(sha, pieces, body) && About(wire.log, c) == Relay(c, pieces) + [Answer(c, true)]
  {
    OneFinalReply(sha, now, line, events, c);
    ReachedIsSmall(sha, now, line, events);
    hide Reached, Uploads, Body.Transfer, About, Finals, SmallFeed;
    LargeUploads(sha, Reached(sha, now, line, events).wire.outcomes[c].body);
  }
}
