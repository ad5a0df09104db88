/** Which notifications the worker admits over a whole run (worker.c, observation.c). */
module WorkerFreshness {
  import opened Bytes
  import opened Reports
  import opened OutputQueue
  import opened Worker
  import Body
  import Credit
  import Exchange
  import F = Freshness

  /** The record after admitting the notices one by one; None if one of them would not have been admitted. */
  function Replay(notices: seq<(F.Notice, bool)>): Option<F.Freshness> {
    if notices == [] then Some(F.UNSEEN)
    else
      var before := Replay(notices[..|notices| - 1]);
      var (n, renewal) := notices[|notices| - 1];
      if before.None? then None
      else
        var (f, admission) := F.NextAdmission(before.value, n.observe, n.at, n.format, renewal);
        if admission == F.Newer then Some(f) else None
  }

  ghost predicate Timely(watch: Watch) { Replay(watch.notices) == Some(watch.freshness) }

  /** While the run has not failed, every notification judged newer became an admitted report. */
  ghost predicate FreshInv(w: Worker) {
    Timely(w.core.watch) && (!w.core.failed ==> |w.feed.admitted| == |w.core.watch.notices|)
  }

  /** Decisions that neither judge nor store a notification. */
  predicate Aside(k: Core, d: Decision) {
    && d.core.watch.freshness == k.watch.freshness && d.core.watch.notices == k.watch.notices
    && !d.feed.Storing? && !d.feed.Overlapping? && d.core.failed == k.failed
  }

  /** A judged notification is stored, or dropped with the observation, or the run fails. */
  ghost predicate Judges(k: Core, d: Decision, fits: bool) {
    && Timely(d.core.watch) && d.core.failed == k.failed
    && (d.reply.Failing? || (d.reply.Answering? && !fits)
        || |d.core.watch.notices| == |k.watch.notices| + (if d.feed.Storing? || d.feed.Overlapping? then 1 else 0))
  }

  lemma WeighIsTimely(watch: Watch, meta: Meta, now: int, renewal: bool)
    requires Timely(watch)
    ensures var (v, admission) := Weigh(watch, meta, now, renewal);
            Timely(v) && |v.notices| == |watch.notices| + (if admission == F.Newer then 1 else 0)
  {
    hide F.NextAdmission;
    var (v, admission) := Weigh(watch, meta, now, renewal);
    KeptUnlessNewer(watch.freshness, meta, now, renewal);
    if admission == F.Newer { assert v.notices[..|watch.notices|] == watch.notices; }
  }

  lemma KeptUnlessNewer(f: F.Freshness, meta: Meta, now: int, renewal: bool)
    ensures var (g, admission) := F.NextAdmission(f, meta.observe, now, meta.format, renewal);
            admission != F.Newer ==> g == f
  {
  }

  lemma ExecuteStandsAside(sha: Hash, k: Core, c: nat, id: string, command: Command, now: int, timeout: nat)
    ensures Aside(k, Execute(sha, k, c, id, command, now, timeout))
  {
    hide SendCommand, ObserveCommand, CreditCommand, CancelCommand, UploadCommand;
    match command
    case Send(body, sending) => SendStandsAside(k, c, id, body, sending, now, timeout);
    case Observe(event, renew, sending) => ObserveStandsAside(k, c, id, event, renew, sending, now, timeout);
    case Credit(generation, acknowledged) => CreditStandsAside(k, c, generation, acknowledged, now, timeout);
    case Cancel(subscription, generation, w) =>
      CancelStandsAside(k, c, id, subscription, generation, w, now, timeout);
    case Upload(name, part) => UploadStandsAside(sha, k, c, name, part, now, timeout);
    case Open(_, _) =>
    case Close =>
  }

  lemma SendStandsAside(k: Core, c: nat, id: string, body: Option<string>, sending: Exchange.Sending, now: int,
                        timeout: nat)
    ensures Aside(k, SendCommand(k, c, id, body, sending, now, timeout))
  {
    hide Exchange.Request, Body.Exposed;
  }

  lemma ObserveStandsAside(k: Core, c: nat, id: string, event: bool, renew: bool, sending: Exchange.Sending, now: int,
                           timeout: nat)
    ensures Aside(k, ObserveCommand(k, c, id, event, renew, sending, now, timeout))
  {
    hide Exchange.Observe;
  }

  lemma CreditStandsAside(k: Core, c: nat, generation: nat, acknowledged: nat, now: int, timeout: nat)
    ensures Aside(k, CreditCommand(k, c, generation, acknowledged, now, timeout))
  {
    hide Credit.Acknowledge;
  }

  lemma CancelStandsAside(k: Core, c: nat, id: string, subscription: string, generation: nat, w: Exchange.Withdrawal,
                          now: int, timeout: nat)
    ensures Aside(k, CancelCommand(k, c, id, subscription, generation, w, now, timeout))
  {
    hide Exchange.Cancel;
    var (x, error) := Exchange.Cancel(k.exchange, w);
    var request := Request(error.None?, id, c, now + timeout);
    var l := k.(exchange := x, request := request, watch := k.watch.(cancelling := error.None?, renewing := false));
    assert l.watch.notices == k.watch.notices && l.watch.freshness == k.watch.freshness && l.failed == k.failed;
  }

  lemma UploadStandsAside(sha: Hash, k: Core, c: nat, body: string, event: Body.Event, now: int, timeout: nat)
    ensures Aside(k, UploadCommand(sha, k, c, body, event, now, timeout))
  {
    hide Body.Accept;
  }

  lemma FailureStandsAside(k: Core, now: int, w: Exchange.Withdrawal)
    ensures Aside(k, Failed(k, now, w))
  {
    hide Exchange.Cancel;
  }

  lemma TimeoutStandsAside(k: Core, now: int)
    ensures Aside(k, Timeout(k, now))
  {
  }

  lemma MaintainStandsAside(k: Core, now: int, sending: Exchange.Sending, w: Exchange.Withdrawal)
    ensures Aside(k, Maintain(k, now, sending, w))
  {
    hide Terminal, Exchange.Observe;
    TerminalStandsAside(k, now, w);
    TerminalStandsAside(k.(exchange := Exchange.Observe(k.exchange, true, sending).0), now, w);
  }

  lemma TerminalStandsAside(k: Core, now: int, w: Exchange.Withdrawal)
    ensures Aside(k, Terminal(k, now, w, Discarding))
  {
    hide Exchange.Cancel;
  }

  lemma JudgedJudges(k: Core, l: Core, payload: seq<Byte>, admission: F.Admission, armed: Option<int>,
                     renewal: bool, busy: bool, now: int, w: Exchange.Withdrawal, fits: bool)
    requires Timely(l.watch) && l.failed == k.failed
    requires |l.watch.notices| == |k.watch.notices| + (if admission == F.Newer then 1 else 0)
    ensures Judges(k, Judged(l, payload, admission, armed, renewal, busy, now, w), fits)
  {
    hide Terminal, Judges, Timely;
    StillJudges(k, l, fits);
    match admission
    case Stale =>
    case Unusable =>
    case Changed => TerminalJudges(k, l, now, w, Discarding, fits);
    case Newer => if armed.Some? { NewerJudges(k, l, payload, armed.value, renewal, busy, now, w, fits); }
  }

  lemma NewerJudges(k: Core, l: Core, payload: seq<Byte>, armed: int, renewal: bool, busy: bool, now: int,
                    w: Exchange.Withdrawal, fits: bool)
    requires Timely(l.watch) && l.failed == k.failed && |l.watch.notices| == |k.watch.notices| + 1
    ensures Judges(k, Judged(l, payload, F.Newer, Some(armed), renewal, busy, now, w), fits)
  {
    hide Terminal, Judges, Timely;
    var n := l.(watch := l.watch.(refreshAt := armed, renewing := l.watch.renewing && !renewal));
    RetimedIsTimely(l, n);
    TerminalJudges(k, n, now, w, Overlapping(payload), fits);
    StoredJudges(k, n, payload, fits);
  }

  lemma RetimedIsTimely(k: Core, l: Core)
    requires Timely(k.watch) && l.watch.notices == k.watch.notices && l.watch.freshness == k.watch.freshness
    ensures Timely(l.watch)
  {
  }

  lemma StillJudges(k: Core, l: Core, fits: bool)
    requires Timely(l.watch) && l.failed == k.failed
    ensures Judges(k, Refuse(l), fits)
    ensures |l.watch.notices| == |k.watch.notices| ==> Judges(k, Decision(l, Keep, Silent), fits)
  {
    hide Replay;
  }

  lemma StoredJudges(k: Core, l: Core, payload: seq<Byte>, fits: bool)
    requires Timely(l.watch) && l.failed == k.failed && |l.watch.notices| == |k.watch.notices| + 1
    ensures Judges(k, Decision(l, Storing(payload), Silent), fits)
  {
    hide Replay;
  }

  lemma TerminalJudges(k: Core, l: Core, now: int, w: Exchange.Withdrawal, action: FeedAction, fits: bool)
    requires Timely(l.watch) && l.failed == k.failed
    requires |l.watch.notices| == |k.watch.notices| + (if action.Storing? || action.Overlapping? then 1 else 0)
    ensures Judges(k, Terminal(l, now, w, action), fits)
  {
    hide Exchange.Cancel, Replay;
  }

  lemma NotifiedJudges(k: Core, m: Message, renewal: bool, busy: bool, now: int, w: Exchange.Withdrawal, fits: bool)
    requires Timely(k.watch)
    ensures Judges(k, Notified(k, m, renewal, busy, now, w), fits)
  {
    hide Exchange.Cancel, Judged, Weigh, Armed, Replay;
    if Prepared(m).Some? {
      var meta := Prepared(m).value;
      var (weighed, admission) := Weigh(k.watch, meta, now, renewal);
      WeighIsTimely(k.watch, meta, now, renewal);
      JudgedJudges(k, k.(watch := weighed), m.payload, admission, Armed(k.watch, meta, now), renewal, busy, now, w,
                   fits);
    }
  }

  lemma InitialJudges(k: Core, m: Message, now: int, fits: bool)
    requires Timely(k.watch)
    ensures Judges(k, InitialResponse(k, m, now, fits), fits)
  {
    hide Weigh, Armed, Replay;
    if Prepared(m).Some? { WeighIsTimely(k.watch, Prepared(m).value, now, false); }
  }

  lemma CallbackJudges(k: Core, delivery: Exchange.Delivery, m: Message, busy: bool, now: int,
                       w: Exchange.Withdrawal, fits: bool, line: seq<Byte>)
    requires Timely(k.watch)
    ensures Judges(k, Callback(k, delivery, m, busy, now, w, fits, line), fits)
  {
    hide Notified, InitialResponse, UnaryResponse, CancelledResponse, Judges, Timely;
    match delivery
    case Initial => InitialJudges(k, m, now, fits);
    case Report => NotifiedJudges(k, m, false, busy, now, w, fits);
    case Renewed => NotifiedJudges(k, m, true, busy, now, w, fits);
    case Unary => UnaryJudges(k, m, line, fits);
    case Cancelled => CancelledJudges(k, m, fits);
    case Intervening => QuietJudges(k, fits);
  }

  lemma UnaryJudges(k: Core, m: Message, line: seq<Byte>, fits: bool)
    requires Timely(k.watch)
    ensures Judges(k, UnaryResponse(k, m, line), fits)
  {
    hide Replay;
  }

  lemma CancelledJudges(k: Core, m: Message, fits: bool)
    requires Timely(k.watch)
    ensures Judges(k, CancelledResponse(k, m), fits)
  {
    hide Replay;
  }

  lemma QuietJudges(k: Core, fits: bool)
    requires Timely(k.watch)
    ensures Judges(k, Decision(k, Keep, Silent), fits) && Judges(k, Refuse(k), fits)
  {
    hide Replay;
  }

  /** What carrying out a decision does to the count of admitted reports. */
  lemma CarryCounts(w: Worker, k: Core, d: Decision, line: seq<Byte>)
    requires FreshInv(w) && k.failed == w.core.failed && |k.watch.notices| == |w.core.watch.notices|
    requires Judges(k, d, Fits(w.wire.out, line))
    ensures FreshInv(Carry(w, d, line))
  {
    hide Replay, Spoken, Fits;
  }

  lemma AsideJudges(k: Core, d: Decision, fits: bool)
    requires Timely(k.watch) && Aside(k, d)
    ensures Judges(k, d, fits)
  {
    hide Replay;
  }

  lemma PumpCounts(sha: Hash, f: Feed)
    requires f.report.Holding? && f.report.offset <= |f.report.payload|
    ensures Pump(sha, f).admitted == f.admitted
  {
  }

  lemma ResponseKeeps(w: Worker, m: Message, now: int, withdrawal: Exchange.Withdrawal, line: seq<Byte>)
    requires FreshInv(w)
    ensures FreshInv(RunResponse(w, m, now, withdrawal, line))
  {
    hide Callback, Carry, RunFailure, Exchange.Receive, Timely, Fits;
    FailureKeeps(w, now, withdrawal, line);
    var (y, delivery) := Exchange.Receive(w.core.exchange, !m.observe.Absent?, m.code);
    if delivery.Some? {
      var k := w.core.(exchange := y);
      var fits := Fits(w.wire.out, line);
      CallbackJudges(k, delivery.value, m, w.feed.report.Holding?, now, withdrawal, fits, line);
      CarryCounts(w, k, Callback(k, delivery.value, m, w.feed.report.Holding?, now, withdrawal, fits, line), line);
    }
  }

  lemma FailureKeeps(w: Worker, now: int, withdrawal: Exchange.Withdrawal, line: seq<Byte>)
    requires FreshInv(w)
    ensures FreshInv(RunFailure(w, now, withdrawal, line))
  {
    hide Failed, Carry, Timely, Fits;
    var k := w.core.(exchange := Exchange.Fail(w.core.exchange));
    var d := Failed(k, now, withdrawal);
    FailureStandsAside(k, now, withdrawal);
    AsideJudges(k, d, Fits(w.wire.out, line));
    CarryCounts(w, k, d, line);
  }

  lemma ConcludeKeeps(w: Worker, d: Decision, line: seq<Byte>)
    requires FreshInv(w) && Aside(w.core, d)
    ensures FreshInv(Conclude(w, d, line))
  {
    hide Carry, Timely, Fits;
    AsideJudges(w.core, d, Fits(w.wire.out, line));
    CarryCounts(w, w.core, d, line);
  }

  lemma CommandKeeps(sha: Hash, w: Worker, id: string, command: Command, now: int, timeout: nat, line: seq<Byte>)
    requires FreshInv(w)
    ensures FreshInv(RunCommand(sha, w, id, command, now, timeout, line))
  {
    hide Execute, Conclude, Timely;
    var c := w.wire.commands;
    var v := w.(wire := Settle(w.wire.(commands := c + 1), c, Waiting));
    ExecuteStandsAside(sha, v.core, c, id, command, now, timeout);
    ConcludeKeeps(v, Execute(sha, v.core, c, id, command, now, timeout), line);
  }

  lemma StreamKeeps(sha: Hash, w: Worker, line: seq<Byte>)
    requires FreshInv(w)
    ensures FreshInv(PumpStream(sha, w, line))
  {
    hide Timely, StreamContent, Following, Room, Put, Settle;
  }

  lemma ReportKeeps(sha: Hash, w: Worker, now: int, line: seq<Byte>)
    requires FreshInv(w)
    ensures FreshInv(PumpReport(sha, w, now, line))
  {
    hide Timely, Pump, Credit.Available, Credit.Assign, Emitted, Room, Put;
    if w.feed.report.Holding? && w.feed.report.offset <= |w.feed.report.payload| { PumpCounts(sha, w.feed); }
  }

  lemma WriteKeeps(w: Worker, count: nat)
    requires FreshInv(w)
    ensures FreshInv(Write(w, count))
  {
    hide Replay, Flush, Completed, Credited, Completing;
  }

  lemma ApplyKeeps(sha: Hash, w: Worker, e: Event)
    requires FreshInv(w)
    ensures FreshInv(Apply(sha, w, e))
  {
    hide RunCommand, RunResponse, RunFailure, Conclude, Write, PumpStream, PumpReport, Timeout, Maintain, Timely, Used;
    match e
    case Commanded(id, command, now, timeout, line) => CommandKeeps(sha, w, id, command, now, timeout, line);
    case EnterIo =>
    case LeaveIo =>
    case Responded(m, now, withdrawal, line) => ResponseKeeps(w, m, now, withdrawal, line);
    case Broken(now, withdrawal, line) => FailureKeeps(w, now, withdrawal, line);
    case Wrote(count) => WriteKeeps(w, count);
    case Ticked(now, line) =>
      TimeoutStandsAside(w.core, now);
      ConcludeKeeps(w, Timeout(w.core, now), line);
    case Maintained(now, sending, withdrawal, line) =>
      MaintainStandsAside(w.core, now, sending, withdrawal);
      ConcludeKeeps(w, Maintain(w.core, now, sending, withdrawal), line);
    case PumpedStream(line) => StreamKeeps(sha, w, line);
    case PumpedReport(now, line) => ReportKeeps(sha, w, now, line);
    case Stopped =>
  }

  lemma {:induction false} RunKeeps(sha: Hash, w: Worker, events: seq<Event>)
    requires FreshInv(w)
    ensures FreshInv(Run(sha, w, events))
  {
    hide FreshInv, Apply;
    if events != [] {
      RunKeeps(sha, w, events[..|events| - 1]);
      ApplyKeeps(sha, Run(sha, w, events[..|events| - 1]), events[|events| - 1]);
    }
  }

  lemma BootKeeps(now: int, line: seq<Byte>)
    ensures FreshInv(Boot(now, line))
  {
    hide Used;
  }

  lemma {:induction false} ReplayRemembers(notices: seq<(F.Notice, bool)>)
    requires Replay(notices).Some? && notices != []
    ensures var f, last := Replay(notices).value, notices[|notices| - 1].0;
            f == F.Freshness(true, last.observe, last.at, notices[0].0.format) && last.format == notices[0].0.format
            && last.observe <= 0xff_ffff && last.at >= 0
  {
    var rest := notices[..|notices| - 1];
    if rest != [] { ReplayRemembers(rest); }
  }

  lemma {:induction false} ReplayPrefix(notices: seq<(F.Notice, bool)>, n: nat)
    requires Replay(notices).Some? && n <= |notices|
    ensures Replay(notices[..n]).Some?
  {
    if n < |notices| {
      assert notices[..|notices| - 1][..n] == notices[..n];
      ReplayPrefix(notices[..|notices| - 1], n);
    } else {
      assert notices[..n] == notices;
    }
  }

  lemma ReplayedInOrder(notices: seq<(F.Notice, bool)>, i: nat)
    requires Replay(notices).Some? && 0 < i < |notices|
    ensures var before, (notice, renewal) := notices[i - 1].0, notices[i];
            && (!renewal ==> F.NewerThan(before.observe, before.at, notice.observe, notice.at))
            && notice.format == before.format
  {
    ReplayPrefix(notices, i + 1);
    ReplayPrefix(notices, i);
    var upto, more := notices[..i], notices[..i + 1];
    assert more[..i] == upto && more[i] == notices[i] && upto[i - 1] == notices[i - 1];
    ReplayRemembers(upto);
    ReplayRemembers(more);
    ReplayedLast(more);
  }

  lemma ReplayedLast(notices: seq<(F.Notice, bool)>)
    requires |notices| > 1 && Replay(notices).Some? && Replay(notices[..|notices| - 1]).Some?
    ensures var f, (notice, renewal) := Replay(notices[..|notices| - 1]).value, notices[|notices| - 1];
            !renewal ==> F.NewerThan(f.observe, f.at, notice.observe, notice.at)
  {
    var rest := notices[..|notices| - 1];
    ReplayRemembers(rest);
    ReplayRemembers(notices);
    F.FreshnessMatchesTheStandard(Replay(rest).value, notices[|notices| - 1].0.observe, notices[|notices| - 1].0.at);
    hide F.TooOld, F.NewerThan;
  }

  /**
   In every run each admitted notification that does not answer a renewal is newer than the one before it by
   section 3.4 of RFC 7641, all have the same content format, and until the run fails they are exactly the
   reports admitted for delivery.
   */
  lemma AdmittedNotificationsAreNewer(sha: Hash, now: int, line: seq<Byte>, events: seq<Event>, i: nat)
    requires 0 < i < |Run(sha, Boot(now, line), events).core.watch.notices|
    ensures var w := Run(sha, Boot(now, line), events);
            var before, (notice, renewal) := w.core.watch.notices[i - 1].0, w.core.watch.notices[i];
            && (!renewal ==> F.NewerThan(before.observe, before.at, notice.observe, notice.at))
            && notice.format == before.format
            && (!w.core.failed ==> |w.feed.admitted| == |w.core.watch.notices|)
  {
    BootKeeps(now, line);
    RunKeeps(sha, Boot(now, line), events);
    hide Run, Boot, Replay, F.NewerThan;
    ReplayedInOrder(Run(sha, Boot(now, line), events).core.watch.notices, i);
  }
}
