/** The worker's guarantees over every run, whatever the peer, the owner and the clock do (worker.c). */
module WorkerRuns {
  import opened Bytes
  import opened Reports
  import opened OutputQueue
  import opened Worker
  import opened WorkerSafety
  import Body
  import Credit
  import Exchange
  import Freshness

  // ----- the control state

  /** A response stream exists only while its request is active and the exchange is idle. */
  predicate StreamAlone(k: Core) {
    k.stream.Stream? ==> k.request.active && !k.exchange.active && !k.exchange.observing
  }

  predicate WatchInv(k: Core) {
    && (k.watch.established ==> k.watch.used)
    && (k.watch.cancelling ==> k.watch.established)
    && (k.exchange.pending == Exchange.Observing ==> !k.watch.used)
    && (!k.open ==> !k.credit.started)
  }

  /** The slots are closed only by shutting down or by ending the observation; no report is admitted after that. */
  predicate ClosedInv(k: Core, f: Feed, io: bool) {
    && (f.closed ==> k.closing || (k.watch.used && (!k.watch.established || k.watch.cancelling)))
    && (io && k.closing ==> k.exchange.pending != Exchange.Observing && !(k.watch.established && !k.watch.cancelling))
    && (k.watch.established && !f.closed ==> f.event == k.watch.event)
    && (!k.watch.used ==> f.admitted == [])
  }

  predicate ControlInv(k: Core, f: Feed, io: bool) {
    && Exchange.Coherent(k.exchange) && StreamAlone(k) && WatchInv(k) && ClosedInv(k, f, io)
  }

  // ----- every handler decides soundly

  lemma ExecuteIsSound(sha: Hash, k: Core, c: nat, id: string, command: Command, now: int, timeout: nat, fits: bool)
    requires k.stream.Stream? ==> k.request.active
    requires k.request.active ==> k.request.command != c
    ensures Sound(k, Execute(sha, k, c, id, command, now, timeout), c, fits)
  {
    hide SendCommand, ObserveCommand, CreditCommand, CancelCommand, UploadCommand;
    if k.open && !k.request.active { IdleIsSound(sha, k, c, id, command, now, timeout, fits); }
    if k.open && command.Credit? {
      CreditIsSound(k, c, command.generation, command.acknowledged, now, timeout, fits);
    }
  }

  lemma IdleIsSound(sha: Hash, k: Core, c: nat, id: string, command: Command, now: int, timeout: nat, fits: bool)
    requires k.stream.Stream? ==> k.request.active
    requires k.open && !k.request.active
    ensures Sound(k, Execute(sha, k, c, id, command, now, timeout), c, fits)
  {
    hide SendCommand, ObserveCommand, CreditCommand, CancelCommand, UploadCommand;
    match command
    case Send(body, sending) => SendIsSound(k, c, id, body, sending, now, timeout, fits);
    case Observe(event, renew, sending) => ObserveIsSound(k, c, id, event, renew, sending, now, timeout, fits);
    case Credit(generation, acknowledged) => CreditIsSound(k, c, generation, acknowledged, now, timeout, fits);
    case Cancel(subscription, generation, w) =>
      CancelIsSound(k, c, id, subscription, generation, w, now, timeout, fits);
    case Upload(name, part) => UploadIsSound(sha, k, c, name, part, now, timeout, fits);
    case Open(_, _) =>
    case Close =>
  }

  lemma SendIsSound(k: Core, c: nat, id: string, body: Option<string>, sending: Exchange.Sending, now: int,
                    timeout: nat, fits: bool)
    requires k.stream.NoStream? && !k.request.active
    ensures Sound(k, SendCommand(k, c, id, body, sending, now, timeout), c, fits)
  {
    hide Exchange.Request, Body.Exposed;
  }

  lemma ObserveIsSound(k: Core, c: nat, id: string, event: bool, renew: bool, sending: Exchange.Sending, now: int,
                       timeout: nat, fits: bool)
    requires k.stream.NoStream? && !k.request.active
    ensures Sound(k, ObserveCommand(k, c, id, event, renew, sending, now, timeout), c, fits)
  {
    hide Exchange.Observe;
  }

  lemma CreditIsSound(k: Core, c: nat, generation: nat, acknowledged: nat, now: int, timeout: nat, fits: bool)
    requires k.stream.Stream? ==> k.request.active
    requires k.request.active ==> k.request.command != c
    ensures Sound(k, CreditCommand(k, c, generation, acknowledged, now, timeout), c, fits)
  {
    hide Credit.Acknowledge;
  }

  lemma CancelIsSound(k: Core, c: nat, id: string, subscription: string, generation: nat, w: Exchange.Withdrawal,
                      now: int, timeout: nat, fits: bool)
    requires k.stream.NoStream? && !k.request.active
    ensures Sound(k, CancelCommand(k, c, id, subscription, generation, w, now, timeout), c, fits)
  {
    hide Exchange.Cancel;
  }

  lemma UploadIsSound(sha: Hash, k: Core, c: nat, body: string, event: Body.Event, now: int, timeout: nat, fits: bool)
    requires k.stream.NoStream? && !k.request.active
    ensures Sound(k, UploadCommand(sha, k, c, body, event, now, timeout), c, fits)
  {
    hide Body.Accept;
  }

  /** Decisions that touch neither request nor stream and answer no command. */
  lemma CalmIsSound(k: Core, d: Decision, fits: bool)
    requires k.stream.Stream? ==> k.request.active
    requires d.core.stream == k.stream && d.core.request == k.request && !d.reply.Answering? && !d.reply.Cutting?
    ensures Sound(k, d, -1, fits)
  {
  }

  lemma NotifiedIsSound(k: Core, m: Message, renewal: bool, busy: bool, now: int, w: Exchange.Withdrawal, fits: bool)
    requires k.stream.NoStream?
    ensures Sound(k, Notified(k, m, renewal, busy, now, w), -1, fits)
  {
    hide Exchange.Cancel, Freshness.NextAdmission, Armed, Sound, Judged;
    if Prepared(m).Some? {
      var meta := Prepared(m).value;
      var (weighed, admission) := Weigh(k.watch, meta, now, renewal);
      JudgedIsCalm(k.(watch := weighed), m.payload, admission, Armed(k.watch, meta, now), renewal, busy, now, w);
    }
    CalmIsSound(k, Notified(k, m, renewal, busy, now, w), fits);
  }

  lemma JudgedIsCalm(k: Core, payload: seq<Byte>, admission: Freshness.Admission, armed: Option<int>,
                     renewal: bool, busy: bool, now: int, w: Exchange.Withdrawal)
    ensures var d := Judged(k, payload, admission, armed, renewal, busy, now, w);
            && d.core.stream == k.stream && d.core.request == k.request && !d.reply.Answering? && !d.reply.Cutting?
            && d.core.credit == k.credit && d.core.failed == k.failed
  {
    hide Exchange.Cancel;
  }

  lemma InitialIsSound(k: Core, m: Message, now: int, fits: bool)
    requires k.stream.NoStream?
    ensures Sound(k, InitialResponse(k, m, now, fits), -1, fits)
  {
    hide Freshness.NextAdmission, Armed;
  }

  lemma CallbackIsSound(k: Core, delivery: Exchange.Delivery, m: Message, busy: bool, now: int,
                        w: Exchange.Withdrawal, fits: bool, line: seq<Byte>)
    requires k.stream.NoStream?
    ensures Sound(k, Callback(k, delivery, m, busy, now, w, fits, line), -1, fits)
  {
    match delivery
    case Initial => InitialIsSound(k, m, now, fits);
    case Report => NotifiedIsSound(k, m, false, busy, now, w, fits);
    case Renewed => NotifiedIsSound(k, m, true, busy, now, w, fits);
    case Unary =>
    case Intervening =>
    case Cancelled =>
  }

  lemma FailureIsSound(k: Core, now: int, w: Exchange.Withdrawal, fits: bool)
    requires k.stream.NoStream?
    ensures Sound(k, Failed(k, now, w), -1, fits)
  {
    hide Exchange.Cancel;
  }

  lemma TimeoutIsSound(k: Core, now: int, fits: bool)
    requires k.stream.Stream? ==> k.request.active
    ensures Sound(k, Timeout(k, now), -1, fits)
  {
  }

  lemma MaintainIsSound(k: Core, now: int, sending: Exchange.Sending, w: Exchange.Withdrawal, fits: bool)
    requires k.stream.Stream? ==> k.request.active
    ensures Sound(k, Maintain(k, now, sending, w), -1, fits)
  {
    hide Exchange.Cancel, Exchange.Observe, Sound;
    CalmIsSound(k, Maintain(k, now, sending, w), fits);
  }

  // ----- every handler keeps the control state

  /** What a decision may do to the slots. */
  predicate FeedStep(f: Feed, d: Decision) {
    && (d.feed.Storing? || d.feed.Overlapping? ==> !f.closed)
    && (d.feed.Storing? ==>
          && (f.admitted != [] ==> f.event == d.core.watch.event)
          && (d.core.watch.event ==> f.report.Empty?))
  }

  predicate Keeps(d: Decision, f: Feed, io: bool) {
    && ControlInv(d.core, Adjust(f, d.feed, d.core.watch.event), io)
    && FeedStep(f, d)
  }

  /** Handlers that leave exchange, stream and observation alone. */
  lemma ReplyKeeps(k: Core, l: Core, f: Feed, c: nat, ok: bool, now: int, timeout: nat)
    requires ControlInv(l, f, false)
    ensures Keeps(Respond(l, c, ok, now, timeout), f, false)
  {
  }

  lemma RequestFacts(x: Exchange.Exchange, s: Exchange.Sending)
    requires Exchange.Coherent(x)
    ensures var (y, error) := Exchange.Request(x, s);
            && Exchange.Coherent(y)
            && (error.None? ==> y.pending == Exchange.Requesting && !x.active && !x.observing)
            && (error.Some? ==> y == x.(failed := y.failed))
  {
  }

  lemma ObserveFacts(x: Exchange.Exchange, renewing: bool, s: Exchange.Sending)
    requires Exchange.Coherent(x)
    ensures var (y, error) := Exchange.Observe(x, renewing, s);
            && Exchange.Coherent(y)
            && (error.None? ==> !x.active && x.observing == renewing == y.observing
                                && y.pending == if renewing then Exchange.Renewing else Exchange.Observing)
            && (error.Some? ==> y == x.(failed := y.failed))
  {
  }

  lemma CancelFacts(x: Exchange.Exchange, w: Exchange.Withdrawal)
    requires Exchange.Coherent(x)
    ensures var (y, error) := Exchange.Cancel(x, w);
            && Exchange.Coherent(y)
            && (error.None? ==> x.observing)
            && (x.active || x.observing || y == x)
            && (y.pending == Exchange.Observing ==> x.pending == Exchange.Observing)
  {
  }

  lemma SendKeeps(k: Core, f: Feed, c: nat, id: string, body: Option<string>, sending: Exchange.Sending, now: int,
                  timeout: nat)
    requires ControlInv(k, f, false) && !k.request.active
    ensures Keeps(SendCommand(k, c, id, body, sending, now, timeout), f, false)
  {
    assert k.stream.NoStream?;
    hide Exchange.Request, Launched, Keeps, ControlInv;
    ReplyKeeps(k, k, f, c, false, now, timeout);
    RefuseKeeps(k, f);
    var (x, error) := Exchange.Request(k.exchange, sending);
    var l := k.(exchange := x, upload := if body.Some? then Body.Clear(k.upload) else k.upload);
    RequestedKeeps(k, f, sending, l.upload);
    LaunchedKeeps(l, f, error, Request(true, id, c, now + timeout), now, timeout);
  }

  lemma RequestedKeeps(k: Core, f: Feed, sending: Exchange.Sending, upload: Body.Upload)
    requires ControlInv(k, f, false) && k.stream.NoStream?
    ensures ControlInv(k.(exchange := Exchange.Request(k.exchange, sending).0, upload := upload), f, false)
  {
    hide Exchange.Request, Exchange.Coherent;
    RequestFacts(k.exchange, sending);
  }

  lemma LaunchedKeeps(k: Core, f: Feed, error: Option<Exchange.Error>, request: Request, now: int, timeout: nat)
    requires ControlInv(k, f, false) && k.stream.NoStream?
    ensures Keeps(Launched(k, error, request, now, timeout), f, false)
  {
  }

  lemma ObserveKeeps(k: Core, f: Feed, c: nat, id: string, event: bool, renew: bool, sending: Exchange.Sending,
                     now: int, timeout: nat)
    requires ControlInv(k, f, false) && !k.request.active
    ensures Keeps(ObserveCommand(k, c, id, event, renew, sending, now, timeout), f, false)
  {
    hide Exchange.Observe, Exchange.Coherent;
    ObserveFacts(k.exchange, false, sending);
  }

  lemma CreditKeeps(k: Core, f: Feed, c: nat, generation: nat, acknowledged: nat, now: int, timeout: nat)
    requires ControlInv(k, f, false) && k.open
    ensures Keeps(CreditCommand(k, c, generation, acknowledged, now, timeout), f, false)
  {
    hide Credit.Acknowledge;
  }

  lemma CancelKeeps(k: Core, f: Feed, c: nat, id: string, subscription: string, generation: nat,
                    w: Exchange.Withdrawal, now: int, timeout: nat)
    requires ControlInv(k, f, false) && !k.request.active
    ensures Keeps(CancelCommand(k, c, id, subscription, generation, w, now, timeout), f, false)
  {
    hide Exchange.Cancel, Exchange.Coherent;
    CancelFacts(k.exchange, w);
  }

  lemma UploadKeeps(sha: Hash, k: Core, f: Feed, c: nat, body: string, event: Body.Event, now: int, timeout: nat)
    requires ControlInv(k, f, false)
    ensures Keeps(UploadCommand(sha, k, c, body, event, now, timeout), f, false)
  {
    hide Body.Accept;
  }

  lemma CloseKeeps(k: Core, f: Feed, c: nat, now: int, timeout: nat)
    requires ControlInv(k, f, false)
    ensures Keeps(Respond(Shut(k), c, true, now, timeout).(feed := Discarding), f, false)
  {
  }

  lemma ExecuteKeeps(sha: Hash, k: Core, f: Feed, c: nat, id: string, command: Command, now: int, timeout: nat)
    requires ControlInv(k, f, false)
    ensures Keeps(Execute(sha, k, c, id, command, now, timeout), f, false)
  {
    hide SendCommand, ObserveCommand, CreditCommand, CancelCommand, UploadCommand, Keeps, ControlInv, Respond;
    ReplyKeeps(k, k, f, c, false, now, timeout);
    RefuseKeeps(k, f);
    if k.open && !k.request.active {
      match command
      case Open(_, _) =>
      case Upload(name, part) => UploadKeeps(sha, k, f, c, name, part, now, timeout);
      case Send(body, sending) => SendKeeps(k, f, c, id, body, sending, now, timeout);
      case Observe(event, renew, sending) => ObserveKeeps(k, f, c, id, event, renew, sending, now, timeout);
      case Credit(generation, acknowledged) => CreditKeeps(k, f, c, generation, acknowledged, now, timeout);
      case Cancel(subscription, generation, w) => CancelKeeps(k, f, c, id, subscription, generation, w, now, timeout);
      case Close => CloseKeeps(k, f, c, now, timeout);
    }
    if !k.open && command.Open? { OpenKeeps(k, f, c, command.generation, now, timeout); }
  }

  lemma OpenKeeps(k: Core, f: Feed, c: nat, generation: nat, now: int, timeout: nat)
    requires ControlInv(k, f, false)
    ensures Keeps(Respond(k.(open := true, generation := generation, credit := Credit.Initial(generation)), c, true,
                          now, timeout), f, false)
  {
  }

  lemma RefuseKeeps(k: Core, f: Feed)
    requires ControlInv(k, f, false)
    ensures Keeps(Refuse(k), f, false)
  {
  }

  lemma TerminalKeeps(k: Core, f: Feed, now: int, w: Exchange.Withdrawal, io: bool, action: FeedAction)
    requires ControlInv(k, f, io) && k.watch.established
    requires action.Discarding? || (action.Overlapping? && !k.watch.cancelling && io)
    ensures Keeps(Terminal(k, now, w, action), f, io)
  {
    hide Exchange.Cancel, Exchange.Coherent;
    CancelFacts(k.exchange, w);
  }

  lemma TimeoutKeeps(k: Core, f: Feed, now: int)
    requires ControlInv(k, f, false)
    ensures Keeps(Timeout(k, now), f, false)
  {
  }

  lemma MaintainKeeps(k: Core, f: Feed, now: int, sending: Exchange.Sending, w: Exchange.Withdrawal)
    requires ControlInv(k, f, false)
    ensures Keeps(Maintain(k, now, sending, w), f, false)
  {
    hide Terminal, Exchange.Observe, Keeps, ControlInv;
    QuietKeeps(k, f);
    if k.watch.established {
      TerminalKeeps(k, f, now, w, false, Discarding);
      RenewedControl(k, f, now, sending);
      TerminalKeeps(k.(exchange := Exchange.Observe(k.exchange, true, sending).0), f, now, w, false, Discarding);
    }
  }

  lemma QuietKeeps(k: Core, f: Feed)
    requires ControlInv(k, f, false)
    ensures Keeps(Decision(k, Keep, Silent), f, false)
  {
  }

  lemma RenewedControl(k: Core, f: Feed, now: int, sending: Exchange.Sending)
    requires ControlInv(k, f, false) && k.watch.established
    ensures var (x, error) := Exchange.Observe(k.exchange, true, sending);
            var l := k.(exchange := x);
            var renewing := l.(watch := l.watch.(renewing := true, renewalDeadline := now + l.watch.timeout));
            ControlInv(l, f, false) && Keeps(Decision(renewing, Keep, Silent), f, false)
  {
    hide Exchange.Observe, Exchange.Coherent;
    ObserveFacts(k.exchange, true, sending);
    var l := k.(exchange := Exchange.Observe(k.exchange, true, sending).0);
    assert ControlInv(l, f, false);
    var renewing := l.(watch := l.watch.(renewing := true, renewalDeadline := now + l.watch.timeout));
    assert ControlInv(renewing, f, false) && Adjust(f, Keep, renewing.watch.event) == f;
  }

  // ----- callbacks, on the exchange as the response leaves it

  lemma UnaryKeeps(k: Core, y: Exchange.Exchange, f: Feed, m: Message, line: seq<Byte>)
    requires ControlInv(k, f, true) && k.stream.NoStream?
    requires Exchange.Coherent(y) && !y.active && !y.observing
    ensures Keeps(UnaryResponse(k.(exchange := y), m, line), f, true)
  {
  }

  lemma InitialKeeps(k: Core, y: Exchange.Exchange, f: Feed, m: Message, now: int, fits: bool)
    requires ControlInv(k, f, true) && k.stream.NoStream? && k.exchange.pending == Exchange.Observing && f.report.Empty?
    requires Exchange.Coherent(y) && y.pending == Exchange.Nothing
    ensures Keeps(InitialResponse(k.(exchange := y), m, now, fits), f, true)
  {
    hide Freshness.NextAdmission, Armed, Exchange.Coherent;
  }

  lemma NotifiedKeeps(k: Core, f: Feed, m: Message, renewal: bool, now: int, w: Exchange.Withdrawal)
    requires ControlInv(k, f, true)
    ensures Keeps(Notified(k, m, renewal, f.report.Holding?, now, w), f, true)
  {
    hide Terminal, Freshness.NextAdmission, Armed, Keeps, ControlInv;
    InterveningKeeps(k, f);
    if k.watch.established && !k.watch.cancelling && (renewal ==> k.watch.renewing) {
      TerminalKeeps(k, f, now, w, true, Discarding);
      if Prepared(m).Some? { PreparedKeeps(k, f, m, renewal, now, w); }
    }
  }

  lemma PreparedKeeps(k: Core, f: Feed, m: Message, renewal: bool, now: int, w: Exchange.Withdrawal)
    requires ControlInv(k, f, true) && Prepared(m).Some?
    requires k.watch.established && !k.watch.cancelling && (renewal ==> k.watch.renewing)
    ensures Keeps(Notified(k, m, renewal, f.report.Holding?, now, w), f, true)
  {
    hide Freshness.NextAdmission, Armed, Keeps, ControlInv, Judged;
    var meta := Prepared(m).value;
    var (weighed, admission) := Weigh(k.watch, meta, now, renewal);
    var l := k.(watch := weighed);
    Retimed(k, l, f);
    JudgedKeeps(l, f, m.payload, admission, Armed(k.watch, meta, now), renewal, now, w);
  }

  lemma JudgedKeeps(k: Core, f: Feed, payload: seq<Byte>, admission: Freshness.Admission, armed: Option<int>,
                    renewal: bool, now: int, w: Exchange.Withdrawal)
    requires ControlInv(k, f, true) && k.watch.established && !k.watch.cancelling
    ensures Keeps(Judged(k, payload, admission, armed, renewal, f.report.Holding?, now, w), f, true)
  {
    hide Terminal, Keeps, ControlInv;
    InterveningKeeps(k, f);
    TerminalKeeps(k, f, now, w, true, Discarding);
    if armed.Some? {
      var l := k.(watch := k.watch.(refreshAt := armed.value, renewing := k.watch.renewing && !renewal));
      Retimed(k, l, f);
      AdmittedKeeps(l, f, now, w, payload);
    }
  }

  /** Freshness and timers play no part in the control state. */
  lemma Retimed(k: Core, l: Core, f: Feed)
    requires ControlInv(k, f, true)
    requires l == k.(watch := k.watch.(freshness := l.watch.freshness, notices := l.watch.notices,
                                       refreshAt := l.watch.refreshAt, renewing := l.watch.renewing))
    ensures ControlInv(l, f, true)
  {
  }

  lemma AdmittedKeeps(n: Core, f: Feed, now: int, w: Exchange.Withdrawal, payload: seq<Byte>)
    requires ControlInv(n, f, true) && n.watch.established && !n.watch.cancelling
    ensures Keeps(Terminal(n, now, w, Overlapping(payload)), f, true)
    ensures !(f.report.Holding? && n.watch.event) ==> Keeps(Decision(n, Storing(payload), Silent), f, true)
  {
    hide Terminal;
    TerminalKeeps(n, f, now, w, true, Overlapping(payload));
  }

  lemma Received(k: Core, y: Exchange.Exchange, f: Feed)
    requires ControlInv(k, f, true) && k.stream.NoStream?
    requires Exchange.Coherent(y) && y.pending == Exchange.Nothing
    ensures ControlInv(k.(exchange := y), f, true)
  {
  }

  lemma CancelledKeeps(k: Core, y: Exchange.Exchange, f: Feed, m: Message)
    requires ControlInv(k, f, true) && k.stream.NoStream?
    requires Exchange.Coherent(y) && y.pending == Exchange.Nothing
    ensures Keeps(CancelledResponse(k.(exchange := y), m), f, true)
  {
  }

  lemma CallbackKeeps(k: Core, f: Feed, m: Message, now: int, w: Exchange.Withdrawal, fits: bool, line: seq<Byte>)
    requires ControlInv(k, f, true) && k.stream.NoStream? && (f.admitted == [] ==> f.report.Empty?)
    ensures var (y, delivery) := Exchange.Receive(k.exchange, !m.observe.Absent?, m.code);
            delivery.Some? ==>
              Keeps(Callback(k.(exchange := y), delivery.value, m, f.report.Holding?, now, w, fits, line), f, true)
  {
    hide UnaryResponse, InitialResponse, Notified, CancelledResponse, Keeps;
    var (y, delivery) := Exchange.Receive(k.exchange, !m.observe.Absent?, m.code);
    if delivery.Some? {
      match delivery.value
      case Unary => UnaryKeeps(k, y, f, m, line);
      case Initial => InitialKeeps(k, y, f, m, now, fits);
      case Report => Received(k, y, f); NotifiedKeeps(k.(exchange := y), f, m, false, now, w);
      case Renewed => Received(k, y, f); NotifiedKeeps(k.(exchange := y), f, m, true, now, w);
      case Intervening => InterveningKeeps(k, f);
      case Cancelled => CancelledKeeps(k, y, f, m);
    }
  }

  lemma InterveningKeeps(k: Core, f: Feed)
    requires ControlInv(k, f, true)
    ensures Keeps(Refuse(k), f, true) && Keeps(Decision(k, Keep, Silent), f, true)
  {
  }

  lemma FailedControl(k: Core, f: Feed)
    requires ControlInv(k, f, true) && k.stream.NoStream? && !k.exchange.failed
    ensures var j := k.(exchange := Exchange.Fail(k.exchange));
            ControlInv(j, f, true) && j.stream.NoStream? && j.exchange.pending == Exchange.Nothing
  {
  }

  lemma AnsweredFailureKeeps(j: Core, f: Feed, reply: Reply)
    requires ControlInv(j, f, true) && j.stream.NoStream? && j.exchange.pending == Exchange.Nothing
    ensures Keeps(Decision(Shut(Unwatch(Idle(j))), Discarding, reply), f, true)
  {
    hide Exchange.Coherent;
  }

  lemma FailureKeeps(k: Core, f: Feed, now: int, w: Exchange.Withdrawal)
    requires ControlInv(k, f, true) && k.stream.NoStream? && !k.exchange.failed
    ensures Keeps(Failed(k.(exchange := Exchange.Fail(k.exchange)), now, w), f, true)
  {
    hide Terminal, ControlInv, Keeps, Exchange.Fail;
    var j := k.(exchange := Exchange.Fail(k.exchange));
    FailedControl(k, f);
    InterveningKeeps(j, f);
    AnsweredFailureKeeps(j, f, Answering(j.request.command, false, j.request.deadline));
    if j.watch.established { TerminalKeeps(j, f, now, w, true, Discarding); }
  }

  // ----- all together

  function Contents(tags: seq<Tag>): (contents: seq<Content>)
    ensures |contents| == |tags|
    ensures forall i :: 0 <= i < |tags| ==> contents[i] == tags[i].content
  {
    seq(|tags|, i requires 0 <= i < |tags| => tags[i].content)
  }

  /** The report frames on the log are the delivered reports' frames, whole and in order, then the ones under way. */
  ghost predicate ReportsLogged(sha: Hash, wire: Wire, f: Feed) {
    Contents(Numbered(wire.log)) == Flat(sha, f.delivered) + f.partial
  }

  ghost predicate WireInv(sha: Hash, wire: Wire, k: Core, newest: int) {
    && QueueInv(wire) && NumberInv(wire, k.credit)
    && ToldInv(sha, wire, k.stream, k.request.command)
    && TrackInv(wire.outcomes, k.request, k.stream, newest, k.failed)
  }

  ghost predicate SlotInv(sha: Hash, wire: Wire, f: Feed) {
    FeedInv(sha, f) && ReportsLogged(sha, wire, f)
  }

  ghost predicate Inv(sha: Hash, w: Worker) {
    && WireInv(sha, w.wire, w.core, -1)
    && SlotInv(sha, w.wire, w.feed)
    && ControlInv(w.core, w.feed, w.io)
    && (w.core.credit.failed ==> w.exited || w.core.credit.issued == 0)
  }

  lemma SpokenKeepsQueue(wire: Wire, reply: Reply, line: seq<Byte>, c: Credit.Credit)
    requires QueueInv(wire) && NumberInv(wire, c)
    ensures var v := Spoken(wire, reply, line);
            QueueInv(v) && NumberInv(v, c) && Numbered(v.log) == Numbered(wire.log)
  {
    hide QueueInv, NumberInv, Numbered, Credit.Ordered, Used;
    if (reply.Answering? || reply.Terminating?) && Fits(wire.out, line) {
      var content := if reply.Answering? then Answer(reply.command, reply.ok) else Ended;
      var tag := Tag(reply.deadline, 0, false, content);
      PutKeepsQueue(wire, line, tag);
      CreditIsOrdered(wire, c);
      PutKeepsNumbers(wire, line, tag, c, c);
      NumberedOneMore(wire.log, tag);
      QueueIgnoresOutcomes(Put(wire, line, tag), Spoken(wire, reply, line), c);
    } else if reply.Cutting? {
      QueueIgnoresOutcomes(wire, Spoken(wire, reply, line), c);
    }
  }

  lemma CreditIsOrdered(wire: Wire, c: Credit.Credit)
    requires NumberInv(wire, c)
    ensures Credit.Ordered(c)
  {
  }

  lemma QueueIgnoresOutcomes(wire: Wire, v: Wire, c: Credit.Credit)
    requires QueueInv(wire) && NumberInv(wire, c) && v.out == wire.out && v.log == wire.log
    ensures QueueInv(v) && NumberInv(v, c)
  {
  }

  lemma AdjustKeepsFeed(sha: Hash, f: Feed, d: Decision)
    requires FeedInv(sha, f) && FeedStep(f, d)
    ensures var g := Adjust(f, d.feed, d.core.watch.event);
            && FeedInv(sha, g) && g.delivered == f.delivered && g.partial == f.partial
            && (f.closed ==> g == f)
  {
    if f.closed { ClosedIsEmpty(sha, f); }
    hide FeedInv;
    match d.feed
    case Keep =>
    case Storing(payload) =>
      EventIsFree(sha, f, d.core.watch.event);
      StoreKeepsInv(sha, f.(event := d.core.watch.event), payload);
    case Overlapping(payload) => OverlapKeepsInv(sha, f, payload);
    case Discarding => DiscardKeepsInv(sha, f);
  }

  lemma ClosedIsEmpty(sha: Hash, f: Feed)
    requires FeedInv(sha, f) && f.closed
    ensures f.report.Empty? && f.next.Empty?
  {
    hide WholeInv;
  }

  /** Before any report is admitted the kind of observation is open. */
  lemma EventIsFree(sha: Hash, f: Feed, event: bool)
    requires FeedInv(sha, f) && (f.admitted != [] ==> f.event == event)
    ensures FeedInv(sha, f.(event := event))
  {
    hide Frames, Remaining;
    assert f.delivered == [] || f.delivered[0].index < |f.admitted|;
  }

  /** A sound decision that keeps the control state keeps the whole invariant, once carried out. */
  lemma CarryKeepsInv(sha: Hash, w: Worker, d: Decision, line: seq<Byte>, newest: int)
    requires WireInv(sha, w.wire, w.core, newest) && SlotInv(sha, w.wire, w.feed)
    requires newest >= 0 ==> newest in w.wire.outcomes && w.wire.outcomes[newest].Waiting?
    requires Sound(w.core, d, newest, Fits(w.wire.out, line)) && FeedStep(w.feed, d)
    requires NumberInv(w.wire, d.core.credit) && (w.core.failed ==> d.core.failed)
    ensures var v := Carry(w, d, line);
            && WireInv(sha, v.wire, v.core, -1) && SlotInv(sha, v.wire, v.feed)
            && (w.feed.closed ==> v.feed == w.feed)
  {
    hide QueueInv, NumberInv, ToldInv, Sound, FeedStep, Fits, FeedInv, Flat, Numbered, Spoken, Adjust, Invalid;
    SpokenKeepsQueue(w.wire, d.reply, line, d.core.credit);
    TrackWhenFailed(w.wire.outcomes, w.core.request, w.core.stream, newest, w.core.failed, d.core.failed);
    TrackWhenFailed(w.wire.outcomes, w.core.request, w.core.stream, newest, w.core.failed, true);
    SoundIsTold(sha, w.wire, w.core, d, line, newest);
    SoundIsTracked(w.wire, w.core, d, line, newest, d.core.failed);
    AdjustKeepsFeed(sha, w.feed, d);
  }

  lemma TrackWhenFailed(outcomes: map<nat, Outcome>, request: Request, s: Stream, newest: int, failed: bool, more: bool)
    requires TrackInv(outcomes, request, s, newest, failed) && (failed ==> more)
    ensures TrackInv(outcomes, request, s, newest, more)
  {
  }

  // ----- step by step

  /** Commands change the credit only by opening it or by acknowledging reports. */
  lemma ExecuteKeepsCredit(sha: Hash, k: Core, wire: Wire, c: nat, id: string, command: Command, now: int, timeout: nat)
    requires NumberInv(wire, k.credit) && (!k.open ==> !k.credit.started)
    ensures var d := Execute(sha, k, c, id, command, now, timeout);
            && NumberInv(wire, d.core.credit) && d.core.failed == k.failed
            && (d.core.credit.failed ==> k.credit.failed || d.core.credit.issued == 0 || d.reply.Failing?)
            && d.core.credit.issued <= k.credit.issued
            && (k.credit.failed && k.credit.issued == 0 ==> d.core.credit.issued == 0)
  {
    hide SendCommand, ObserveCommand, CreditCommand, CancelCommand, UploadCommand, Numbered;
    match command
    case Send(body, sending) => SendLeavesCredit(k, c, id, body, sending, now, timeout);
    case Observe(event, renew, sending) => ObserveLeavesCredit(k, c, id, event, renew, sending, now, timeout);
    case Cancel(subscription, generation, w) =>
      CancelLeavesCredit(k, c, id, subscription, generation, w, now, timeout);
    case Upload(name, part) => UploadLeavesCredit(sha, k, c, name, part, now, timeout);
    case Credit(generation, acknowledged) => CreditCommandFacts(k, c, generation, acknowledged, now, timeout);
    case Open(_, _) =>
    case Close =>
  }

  predicate LeavesCredit(k: Core, d: Decision) { d.core.credit == k.credit && d.core.failed == k.failed }

  lemma SendLeavesCredit(k: Core, c: nat, id: string, body: Option<string>, sending: Exchange.Sending, now: int,
                         timeout: nat)
    ensures LeavesCredit(k, SendCommand(k, c, id, body, sending, now, timeout))
  {
    hide Exchange.Request, Body.Exposed;
  }

  lemma ObserveLeavesCredit(k: Core, c: nat, id: string, event: bool, renew: bool, sending: Exchange.Sending,
                            now: int, timeout: nat)
    ensures LeavesCredit(k, ObserveCommand(k, c, id, event, renew, sending, now, timeout))
  {
    hide Exchange.Observe;
  }

  lemma CancelLeavesCredit(k: Core, c: nat, id: string, subscription: string, generation: nat,
                           w: Exchange.Withdrawal, now: int, timeout: nat)
    ensures LeavesCredit(k, CancelCommand(k, c, id, subscription, generation, w, now, timeout))
  {
    hide Exchange.Cancel;
  }

  lemma UploadLeavesCredit(sha: Hash, k: Core, c: nat, body: string, event: Body.Event, now: int, timeout: nat)
    ensures LeavesCredit(k, UploadCommand(sha, k, c, body, event, now, timeout))
  {
    hide Body.Accept;
  }

  lemma CreditCommandFacts(k: Core, c: nat, generation: nat, acknowledged: nat, now: int, timeout: nat)
    requires Credit.Ordered(k.credit)
    ensures var d := CreditCommand(k, c, generation, acknowledged, now, timeout);
            && Credit.Ordered(d.core.credit) && d.core.failed == k.failed
            && d.core.credit.written == k.credit.written && d.core.credit.issued == k.credit.issued
            && (d.core.credit.failed ==> k.credit.failed || d.reply.Failing?)
  {
    hide Credit.Acknowledge;
    Credit.AcknowledgeKeepsOrder(k.credit, generation, acknowledged);
  }

  lemma CommandKeepsInv(sha: Hash, w: Worker, id: string, command: Command, now: int, timeout: nat, line: seq<Byte>)
    requires Inv(sha, w) && !w.io && !w.exited
    ensures Inv(sha, RunCommand(sha, w, id, command, now, timeout, line))
    ensures w.feed.closed ==> RunCommand(sha, w, id, command, now, timeout, line).feed == w.feed
  {
    hide Execute, SlotInv, ControlInv, Sound, QueueInv, NumberInv, ToldInv, Spoken, Adjust, FeedStep, TrackInv;
    var c := w.wire.commands;
    var v := w.(wire := Settle(w.wire.(commands := c + 1), c, Waiting));
    Untangle(w);
    NewCommandKeeps(sha, w.wire, w.core);
    SlotIgnoresOutcomes(sha, w.wire, v.wire, w.feed);
    var d := Execute(sha, v.core, c, id, command, now, timeout);
    ExecuteIsSound(sha, v.core, c, id, command, now, timeout, Fits(v.wire.out, line));
    ExecuteKeeps(sha, v.core, v.feed, c, id, command, now, timeout);
    ExecuteKeepsCredit(sha, v.core, v.wire, c, id, command, now, timeout);
    CarryKeepsInv(sha, v, d, line, c);
    FailedIsNoControl(d.core, d.core.failed || Invalid(v.wire, d.reply, line),
                      Adjust(v.feed, d.feed, d.core.watch.event), false);
  }

  /** Facts of the control state the wire relies on. */
  lemma Untangle(w: Worker)
    requires ControlInv(w.core, w.feed, w.io)
    requires TrackInv(w.wire.outcomes, w.core.request, w.core.stream, -1, w.core.failed)
    ensures w.core.stream.Stream? ==> w.core.request.active && !w.core.exchange.active && !w.core.exchange.observing
    ensures w.core.request.active ==>
              w.core.request.command in w.wire.outcomes && w.wire.outcomes[w.core.request.command].Waiting?
    ensures !w.core.open ==> !w.core.credit.started
  {
  }

  lemma FailedIsNoControl(k: Core, failed: bool, f: Feed, io: bool)
    requires ControlInv(k, f, io)
    ensures ControlInv(k.(failed := failed), f, io)
  {
  }

  lemma SlotIgnoresOutcomes(sha: Hash, wire: Wire, v: Wire, f: Feed)
    requires SlotInv(sha, wire, f) && v.log == wire.log
    ensures SlotInv(sha, v, f)
  {
    hide FeedInv, Flat, Numbered;
  }

  lemma NewCommandKeeps(sha: Hash, wire: Wire, k: Core)
    requires WireInv(sha, wire, k, -1) && (k.stream.Stream? ==> k.request.active)
    ensures var v := Settle(wire.(commands := wire.commands + 1), wire.commands, Waiting);
            && WireInv(sha, v, k, wire.commands)
            && (k.request.active ==> k.request.command < wire.commands)
  {
    hide QueueInv, NumberInv;
    NewCommandIsTold(sha, wire, k.stream, k.request.command);
    QueueIgnoresOutcomes(wire, Settle(wire.(commands := wire.commands + 1), wire.commands, Waiting), k.credit);
  }

  lemma FailureKeepsInv(sha: Hash, w: Worker, now: int, withdrawal: Exchange.Withdrawal, line: seq<Byte>)
    requires Inv(sha, w) && w.io && !w.exited
    ensures Inv(sha, RunFailure(w, now, withdrawal, line))
    ensures w.feed.closed ==> RunFailure(w, now, withdrawal, line).feed == w.feed
  {
    hide Failed, SlotInv, ControlInv, Sound, QueueInv, NumberInv, ToldInv, Spoken, Adjust, FeedStep, TrackInv;
    var x := w.core.exchange;
    if (x.active || x.observing) && !x.failed {
      Untangle(w);
      var k := w.core.(exchange := Exchange.Fail(x));
      var d := Failed(k, now, withdrawal);
      FailureIsSound(k, now, withdrawal, Fits(w.wire.out, line));
      FailureKeeps(w.core, w.feed, now, withdrawal);
      FailureLeavesCredit(k, now, withdrawal);
      CarryKeepsInv(sha, w.(core := k), d, line, -1);
      FailedIsNoControl(d.core, d.core.failed || Invalid(w.wire, d.reply, line),
                        Adjust(w.feed, d.feed, d.core.watch.event), true);
    }
  }

  lemma FailureLeavesCredit(k: Core, now: int, w: Exchange.Withdrawal)
    ensures Failed(k, now, w).core.credit == k.credit && Failed(k, now, w).core.failed == k.failed
  {
    hide Exchange.Cancel;
  }

  lemma NotifiedLeavesCredit(k: Core, m: Message, renewal: bool, busy: bool, now: int, w: Exchange.Withdrawal)
    ensures var d := Notified(k, m, renewal, busy, now, w); d.core.credit == k.credit && d.core.failed == k.failed
  {
    hide Exchange.Cancel, Freshness.NextAdmission, Armed, Judged;
    if Prepared(m).Some? {
      var meta := Prepared(m).value;
      var (weighed, admission) := Weigh(k.watch, meta, now, renewal);
      JudgedIsCalm(k.(watch := weighed), m.payload, admission, Armed(k.watch, meta, now), renewal, busy, now, w);
    }
  }

  lemma CallbackLeavesCredit(k: Core, delivery: Exchange.Delivery, m: Message, busy: bool, now: int,
                             w: Exchange.Withdrawal, fits: bool, line: seq<Byte>)
    ensures var d := Callback(k, delivery, m, busy, now, w, fits, line);
            d.core.credit == k.credit && d.core.failed == k.failed
  {
    hide Notified, Freshness.NextAdmission, Armed;
    NotifiedLeavesCredit(k, m, false, busy, now, w);
    NotifiedLeavesCredit(k, m, true, busy, now, w);
  }

  lemma ResponseKeepsInv(sha: Hash, w: Worker, m: Message, now: int, withdrawal: Exchange.Withdrawal, line: seq<Byte>)
    requires Inv(sha, w) && w.io && !w.exited
    ensures Inv(sha, RunResponse(w, m, now, withdrawal, line))
    ensures w.feed.closed ==> RunResponse(w, m, now, withdrawal, line).feed == w.feed
  {
    hide Callback, RunFailure, SlotInv, ControlInv, Sound, QueueInv, NumberInv, ToldInv, Spoken, Adjust, FeedStep;
    hide TrackInv;
    var x := w.core.exchange;
    if x.active || x.observing {
      if !m.whole || |m.payload| > Body.BODY_MAX {
        FailureKeepsInv(sha, w, now, withdrawal, line);
      } else {
        Untangle(w);
        var (y, delivery) := Exchange.Receive(x, !m.observe.Absent?, m.code);
        if delivery.Some? { DeliveryKeepsInv(sha, w, y, delivery.value, m, now, withdrawal, line); }
      }
    }
  }

  lemma DeliveryKeepsInv(sha: Hash, w: Worker, y: Exchange.Exchange, delivery: Exchange.Delivery, m: Message,
                         now: int, withdrawal: Exchange.Withdrawal, line: seq<Byte>)
    requires Inv(sha, w) && w.io && !w.exited && w.core.stream.NoStream?
    requires Exchange.Receive(w.core.exchange, !m.observe.Absent?, m.code) == (y, Some(delivery))
    ensures var fits := Fits(w.wire.out, line);
            var v := Called(w, Callback(w.core.(exchange := y), delivery, m, w.feed.report.Holding?, now,
                                        withdrawal, fits, line), line);
            Inv(sha, v) && (w.feed.closed ==> v.feed == w.feed)
  {
    hide Callback, SlotInv, ControlInv, Sound, QueueInv, NumberInv, ToldInv, Spoken, Adjust, FeedStep, TrackInv;
    hide Exchange.Receive;
    var fits, busy := Fits(w.wire.out, line), w.feed.report.Holding?;
    var k := w.core.(exchange := y);
    var d := Callback(k, delivery, m, busy, now, withdrawal, fits, line);
    NothingAdmittedNothingHeld(sha, w.wire, w.feed);
    CallbackIsSound(k, delivery, m, busy, now, withdrawal, fits, line);
    CallbackKeeps(w.core, w.feed, m, now, withdrawal, fits, line);
    CallbackLeavesCredit(k, delivery, m, busy, now, withdrawal, fits, line);
    CarryKeepsInv(sha, w.(core := k), d, line, -1);
    var g := Adjust(w.feed, d.feed, d.core.watch.event);
    var after := d.core.(failed := d.core.failed || Invalid(w.wire, d.reply, line));
    FailedIsNoControl(d.core, after.failed, g, true);
    PoisonIsNoControl(after, g, true);
  }

  lemma NothingAdmittedNothingHeld(sha: Hash, wire: Wire, f: Feed)
    requires SlotInv(sha, wire, f)
    ensures f.admitted == [] ==> f.report.Empty?
  {
    hide WholeInv, Flat, Numbered;
  }

  lemma PoisonIsNoControl(k: Core, f: Feed, io: bool)
    requires ControlInv(k, f, io)
    ensures ControlInv(k.(exchange := k.exchange.(failed := true)), f, io)
  {
  }

  lemma ClockKeepsInv(sha: Hash, w: Worker, d: Decision, now: int, sending: Exchange.Sending,
                      withdrawal: Exchange.Withdrawal, line: seq<Byte>)
    requires Inv(sha, w) && !w.io && !w.exited
    requires d == Timeout(w.core, now) || d == Maintain(w.core, now, sending, withdrawal)
    ensures Inv(sha, Conclude(w, d, line))
    ensures w.feed.closed ==> Conclude(w, d, line).feed == w.feed
  {
    hide Timeout, Maintain, SlotInv, ControlInv, Sound, QueueInv, NumberInv, ToldInv, Spoken, Adjust, FeedStep;
    hide TrackInv;
    Untangle(w);
    TimeoutIsSound(w.core, now, Fits(w.wire.out, line));
    MaintainIsSound(w.core, now, sending, withdrawal, Fits(w.wire.out, line));
    TimeoutKeeps(w.core, w.feed, now);
    MaintainKeeps(w.core, w.feed, now, sending, withdrawal);
    ClockLeavesCredit(w.core, now, sending, withdrawal);
    CarryKeepsInv(sha, w, d, line, -1);
    FailedIsNoControl(d.core, d.core.failed || Invalid(w.wire, d.reply, line),
                      Adjust(w.feed, d.feed, d.core.watch.event), false);
  }

  lemma ClockLeavesCredit(k: Core, now: int, sending: Exchange.Sending, w: Exchange.Withdrawal)
    ensures Timeout(k, now).core.credit == k.credit && Timeout(k, now).core.failed == k.failed
    ensures Maintain(k, now, sending, w).core.credit == k.credit && Maintain(k, now, sending, w).core.failed == k.failed
  {
    hide Terminal, Exchange.Observe;
    TerminalLeavesCredit(k, now, w);
    TerminalLeavesCredit(k.(exchange := Exchange.Observe(k.exchange, true, sending).0), now, w);
  }

  lemma TerminalLeavesCredit(k: Core, now: int, w: Exchange.Withdrawal)
    ensures var d := Terminal(k, now, w, Discarding); d.core.credit == k.credit && d.core.failed == k.failed
  {
    hide Exchange.Cancel;
  }

  lemma WriteKeepsInv(sha: Hash, w: Worker, count: nat)
    requires Inv(sha, w) && !w.exited && count <= Used(w.wire.out)
    ensures Inv(sha, Write(w, count))
    ensures w.feed.closed ==> Write(w, count).feed == w.feed
  {
    hide Write, SlotInv, ControlInv, QueueInv, NumberInv, ToldInv, TrackInv;
    WriteIsNeverRefused(w, count);
    var v := Write(w, count);
    SlotIgnoresOutcomes(sha, w.wire, v.wire, w.feed);
    ToldIgnoresQueue(sha, w.wire, v.wire, w.core.stream, w.core.request.command);
    WrittenIsNoControl(w.core, v.core, w.feed, w.io);
  }

  lemma ToldIgnoresQueue(sha: Hash, wire: Wire, v: Wire, s: Stream, target: nat)
    requires ToldInv(sha, wire, s, target) && v == wire.(out := v.out)
    ensures ToldInv(sha, v, s, target)
  {
    hide Told, About;
  }

  lemma WrittenIsNoControl(k: Core, l: Core, f: Feed, io: bool)
    requires ControlInv(k, f, io)
    requires l == k.(credit := l.credit, watch := k.watch.(initialWritten := l.watch.initialWritten))
    requires l.credit.started == k.credit.started
    ensures ControlInv(l, f, io)
  {
  }

  lemma PumpStreamKeepsInv(sha: Hash, w: Worker, line: seq<Byte>)
    requires Inv(sha, w) && !w.io && !w.exited
    ensures Inv(sha, PumpStream(sha, w, line))
    ensures w.feed.closed ==> PumpStream(sha, w, line).feed == w.feed
  {
    hide SlotInv, ControlInv, QueueInv, NumberInv, ToldInv, TrackInv, Used, StreamContent, Following, StreamStands;
    if w.core.stream.Stream? {
      Untangle(w);
      StreamOffset(sha, w);
      StreamIsTold(sha, w, line);
      if Room(w.wire.out, line) && line == [] {
        TrackWhenFailed(w.wire.outcomes, w.core.request, w.core.stream, -1, w.core.failed, true);
        FailedIsNoControl(w.core, true, w.feed, w.io);
      } else if Room(w.wire.out, line) {
        var k, s := w.core, w.core.stream;
        var tag := Tag(k.request.deadline, 0, false, StreamContent(sha, k.request.command, s));
        var v := PumpStream(sha, w, line);
        PlainPutKeeps(sha, w.wire, v.wire, k.credit, w.feed, line, tag);
        StreamPumpIsNoControl(k, v.core, w.feed);
        StreamPumpTracks(w.wire.outcomes, v.wire.outcomes, k, v.core,
                         if s.phase == Finishing then Whole(s.body) else Waiting);
      }
    }
  }

  lemma StreamOffset(sha: Hash, w: Worker)
    requires ToldInv(sha, w.wire, w.core.stream, w.core.request.command) && w.core.stream.Stream?
    ensures w.core.stream.offset <= |w.core.stream.body|
  {
    hide Told, About;
  }

  /** Frames without a number touch neither the numbering nor the reports. */
  lemma PlainPutKeeps(sha: Hash, wire: Wire, v: Wire, c: Credit.Credit, f: Feed, line: seq<Byte>, tag: Tag)
    requires QueueInv(wire) && NumberInv(wire, c) && SlotInv(sha, wire, f) && Fits(wire.out, line) && tag.number == 0
    requires v.out == Put(wire, line, tag).out && v.log == Put(wire, line, tag).log
    ensures QueueInv(v) && NumberInv(v, c) && SlotInv(sha, v, f)
  {
    hide QueueInv, NumberInv, Numbered, Credit.Ordered, Used, FeedInv, Flat;
    PutKeepsQueue(wire, line, tag);
    CreditIsOrdered(wire, c);
    PutKeepsNumbers(wire, line, tag, c, c);
    NumberedOneMore(wire.log, tag);
    QueueIgnoresOutcomes(Put(wire, line, tag), v, c);
  }

  lemma StreamPumpIsNoControl(k: Core, l: Core, f: Feed)
    requires ControlInv(k, f, false)
    requires (l == k.(stream := l.stream) && (l.stream.Stream? ==> k.stream.Stream?))
             || l == Idle(k.(stream := NoStream))
    ensures ControlInv(l, f, false)
  {
  }

  lemma StreamPumpTracks(before: map<nat, Outcome>, after: map<nat, Outcome>, k: Core, l: Core, outcome: Outcome)
    requires TrackInv(before, k.request, k.stream, -1, k.failed) && k.stream.Stream? && l.failed == k.failed
    requires outcome.Waiting? ==> after == before && l.request == k.request
    requires outcome.Whole? ==>
               && after == before[k.request.command := outcome]
               && l.request == k.request.(active := false) && l.stream.NoStream?
    requires !outcome.Cut? && !outcome.Plain?
    ensures TrackInv(after, l.request, l.stream, -1, l.failed)
  {
  }

  lemma PumpReportKeepsInv(sha: Hash, w: Worker, now: int, line: seq<Byte>)
    requires Inv(sha, w) && !w.io && !w.exited
    ensures Inv(sha, PumpReport(sha, w, now, line))
    ensures w.feed.closed ==> PumpReport(sha, w, now, line).feed == w.feed
  {
    hide SlotInv, ControlInv, QueueInv, NumberInv, ToldInv, TrackInv, Used, Pump, Emitted, Credit.Available;
    var v := PumpReport(sha, w, now, line);
    if w.feed.closed { ClosedHoldsNothing(sha, w.wire, w.feed); }
    TrackWhenFailed(w.wire.outcomes, w.core.request, w.core.stream, -1, w.core.failed, true);
    FailedIsNoControl(w.core, true, w.feed, w.io);
    if v.wire != w.wire {
      var (credit, grant) := Credit.Assign(w.core.credit);
      var tag := Tag(now + 5000, grant.number, w.feed.report.phase == Finishing, Emitted(sha, w.feed));
      NumberedPutKeeps(sha, w, credit, grant, line, tag);
      EmittedIsReport(sha, w.feed);
      OtherFramesAreTold(sha, w.wire, w.core.stream, w.core.request.command, tag, line);
      PumpIsNoControl(sha, w.core, credit, w.feed);
    }
  }

  lemma ClosedHoldsNothing(sha: Hash, wire: Wire, f: Feed)
    requires SlotInv(sha, wire, f) && f.closed
    ensures f.report.Empty?
  {
    hide FeedInv;
    ClosedIsEmpty(sha, f);
  }

  lemma EmittedIsReport(sha: Hash, f: Feed)
    requires f.report.Holding? && f.report.offset <= |f.report.payload|
    ensures !Emitted(sha, f).Answer? && !Emitted(sha, f).Streamed?
  {
  }

  lemma NumberedPutKeeps(sha: Hash, w: Worker, credit: Credit.Credit, grant: Credit.Grant, line: seq<Byte>, tag: Tag)
    requires QueueInv(w.wire) && NumberInv(w.wire, w.core.credit) && SlotInv(sha, w.wire, w.feed)
             && Fits(w.wire.out, line)
    requires Credit.Assign(w.core.credit) == (credit, grant) && grant.Granted? && tag.number == grant.number
    requires w.feed.report.Holding? && w.feed.report.offset <= |w.feed.report.payload|
             && tag.content == Emitted(sha, w.feed)
    ensures var v := Put(w.wire, line, tag);
            && QueueInv(v) && NumberInv(v, credit) && SlotInv(sha, v, Pump(sha, w.feed))
            && credit.failed == w.core.credit.failed == false
  {
    hide QueueInv, NumberInv, Numbered, Used, FeedInv, Flat, Pump, Emitted, Credit.Available;
    PutKeepsQueue(w.wire, line, tag);
    CreditIsOrdered(w.wire, w.core.credit);
    Credit.AssignKeepsOrder(w.core.credit);
    PutKeepsNumbers(w.wire, line, tag, w.core.credit, credit);
    NumberedOneMore(w.wire.log, tag);
    PumpKeepsInv(sha, w.feed);
    PumpLogs(sha, w.feed);
    assert Contents(Numbered(w.wire.log) + [tag]) == Contents(Numbered(w.wire.log)) + [tag.content];
  }

  lemma PumpLogs(sha: Hash, f: Feed)
    requires FeedInv(sha, f) && f.report.Holding?
    ensures Flat(sha, Pump(sha, f).delivered) + Pump(sha, f).partial == Flat(sha, f.delivered) + f.partial
            + [Emitted(sha, f)]
  {
    hide SlotsInv, WholeInv, Flat, Pump, Emitted;
    PumpEmitsInOrder(sha, f);
  }

  lemma PumpIsNoControl(sha: Hash, k: Core, credit: Credit.Credit, f: Feed)
    requires ControlInv(k, f, false) && f.report.Holding? && f.report.offset <= |f.report.payload|
             && credit.started == k.credit.started
    ensures ControlInv(k.(credit := credit), Pump(sha, f), false)
  {
  }

  // ----- every run

  const NOTHING_SENT: Wire := Wire(Queue([], 0), [], 0, map[])

  lemma NothingQueued()
    ensures QueueInv(NOTHING_SENT) && NumberInv(NOTHING_SENT, FIRST.credit)
  {
    assert Tags([]) == [] && Numbered([]) == [];
  }

  lemma NothingReported(sha: Hash)
    ensures SlotInv(sha, NOTHING_SENT, QUIET)
  {
    hide Frames, Remaining;
    assert Numbered([]) == [] && Flat(sha, []) + [] == [];
  }

  lemma NothingTold(sha: Hash)
    ensures ToldInv(sha, NOTHING_SENT, NoStream, 0)
  {
    hide Told;
  }

  lemma BootKeepsInv(sha: Hash, now: int, line: seq<Byte>)
    ensures Inv(sha, Boot(now, line))
  {
    NothingQueued();
    NothingReported(sha);
    NothingTold(sha);
    hide QueueInv, NumberInv, SlotInv, ToldInv, Used;
    if now >= 0 && Fits(NOTHING_SENT.out, line) {
      var tag := Tag(now + 5000, 0, false, Ready);
      PlainPutKeeps(sha, NOTHING_SENT, Put(NOTHING_SENT, line, tag), FIRST.credit, QUIET, line, tag);
      OtherFramesAreTold(sha, NOTHING_SENT, NoStream, 0, tag, line);
    }
  }

  lemma ApplyKeepsInv(sha: Hash, w: Worker, e: Event)
    requires Inv(sha, w)
    ensures Inv(sha, Apply(sha, w, e))
    ensures w.feed.closed ==> Apply(sha, w, e).feed == w.feed
  {
    hide Inv, RunCommand, RunResponse, RunFailure, Conclude, Write, PumpStream, PumpReport, Timeout, Maintain, Used;
    if !w.exited {
      match e
      case Commanded(id, command, now, timeout, line) =>
        if !w.io { CommandKeepsInv(sha, w, id, command, now, timeout, line); }
      case EnterIo => IoKeepsInv(sha, w);
      case LeaveIo => IoKeepsInv(sha, w);
      case Responded(m, now, withdrawal, line) => if w.io { ResponseKeepsInv(sha, w, m, now, withdrawal, line); }
      case Broken(now, withdrawal, line) => if w.io { FailureKeepsInv(sha, w, now, withdrawal, line); }
      case Wrote(count) => if count <= Used(w.wire.out) { WriteKeepsInv(sha, w, count); }
      case Ticked(now, line) =>
        IoKeepsInv(sha, w);
        if !w.io { ClockKeepsInv(sha, w, Timeout(w.core, now), now, Exchange.Sent, Exchange.Direct, line); }
      case Maintained(now, sending, withdrawal, line) =>
        if !w.io { ClockKeepsInv(sha, w, Maintain(w.core, now, sending, withdrawal), now, sending, withdrawal, line); }
      case PumpedStream(line) => if !w.io { PumpStreamKeepsInv(sha, w, line); }
      case PumpedReport(now, line) => if !w.io { PumpReportKeepsInv(sha, w, now, line); }
      case Stopped => IoKeepsInv(sha, w);
    }
  }

  lemma IoKeepsInv(sha: Hash, w: Worker)
    requires Inv(sha, w)
    ensures !w.core.closing ==> Inv(sha, w.(io := true))
    ensures Inv(sha, w.(io := false))
    ensures Inv(sha, w.(exited := true))
  {
    hide WireInv, SlotInv, Exchange.Coherent;
  }

  lemma {:induction false} RunKeepsInv(sha: Hash, w: Worker, events: seq<Event>)
    requires Inv(sha, w)
    ensures Inv(sha, Run(sha, w, events))
    ensures w.feed.closed ==> Run(sha, w, events).feed == w.feed
  {
    hide Inv, Apply;
    if events != [] {
      RunKeepsInv(sha, w, events[..|events| - 1]);
      ApplyKeepsInv(sha, Run(sha, w, events[..|events| - 1]), events[|events| - 1]);
    }
  }

  // ----- what that means

  /** The worker after any events. */
  function Reached(sha: Hash, now: int, line: seq<Byte>, events: seq<Event>): Worker {
    Run(sha, Boot(now, line), events)
  }

  lemma Reaches(sha: Hash, now: int, line: seq<Byte>, events: seq<Event>)
    ensures Inv(sha, Reached(sha, now, line, events))
  {
    hide Inv;
    BootKeepsInv(sha, now, line);
    RunKeepsInv(sha, Boot(now, line), events);
  }

  /**
   In every reachable state the report numbers still queued are exactly written + 1 to issued, in order;
   acknowledged, written and issued stay within a window of eight; and no write is ever refused.
   */
  lemma QueuedReportsFollowTheCredit(sha: Hash, now: int, line: seq<Byte>, events: seq<Event>, count: nat)
    ensures var w := Reached(sha, now, line, events);
            var c := w.core.credit;
            var queued := Numbered(Tags(w.wire.out.frames));
            && c.acknowledged <= c.written <= c.issued <= c.acknowledged + 8
            && |queued| == c.issued - c.written
            && (forall i :: 0 <= i < |queued| ==> queued[i].number == c.written + 1 + i)
            && (!w.exited && count <= Used(w.wire.out) ==>
                !Write(w, count).exited && Write(w, count).core.failed == w.core.failed)
  {
    Reaches(sha, now, line, events);
    var w := Reached(sha, now, line, events);
    hide Reached, Write, ToldInv, TrackInv, SlotInv, ControlInv, Numbered, Used;
    if !w.exited && count <= Used(w.wire.out) { WriteIsNeverRefused(w, count); }
  }

  /**
   However credit, space and time interrupt it, the report frames appended so far are, in order and numbered
   from 1 without a gap, all the frames of each delivered report and then some first frames of one more.
   Delivered reports are admitted ones, each at most once and in admission order.
   */
  lemma ReportsLeaveWholeAndInOrder(sha: Hash, now: int, line: seq<Byte>, events: seq<Event>)
    ensures var w := Reached(sha, now, line, events);
            var f := w.feed;
            var frames := Numbered(w.wire.log);
            && Contents(frames) == Flat(sha, f.delivered) + f.partial
            && (forall i :: 0 <= i < |frames| ==> frames[i].number == 1 + i)
            && (forall i :: 0 <= i < |f.delivered| ==>
                  f.delivered[i].index < |f.admitted| && f.admitted[f.delivered[i].index] == f.delivered[i].payload)
            && (forall i, j :: 0 <= i < j < |f.delivered| ==> f.delivered[i].index < f.delivered[j].index)
            && (f.partial == [] || (Current(f).Holding? && f.partial < Frames(sha, Current(f).index, Current(f).payload)
                                    && Current(f).index < |f.admitted|
                                    && f.admitted[Current(f).index] == Current(f).payload
                                    && forall i :: 0 <= i < |f.delivered| ==> f.delivered[i].index < Current(f).index))
  {
    Reaches(sha, now, line, events);
    hide Reached, ToldInv, TrackInv, ControlInv, QueueInv, Numbered, Flat, Frames, Outstanding;
  }

  /**
   Property observations: when nothing is pending, the newest admitted report has been delivered.
   Event observations: the delivered reports are the first ones admitted, without a gap, and nothing else is held.
   */
  lemma NewestIsDeliveredAndEventsHaveNoGaps(sha: Hash, now: int, line: seq<Byte>, events: seq<Event>)
    ensures var f := Reached(sha, now, line, events).feed;
            && (!f.closed && f.admitted != [] && f.report.Empty? ==>
                  && f.delivered != []
                  && f.delivered[|f.delivered| - 1] == Delivered(|f.admitted| - 1, f.admitted[|f.admitted| - 1]))
            && (f.event ==>
                  && |f.delivered| <= |f.admitted|
                  && forall i :: 0 <= i < |f.delivered| ==> f.delivered[i] == Delivered(i, f.admitted[i]))
            && (f.event && !f.closed && f.report.Empty? ==> |f.delivered| == |f.admitted|)
  {
    Reaches(sha, now, line, events);
    var f := Reached(sha, now, line, events).feed;
    hide Reached, WireInv, ControlInv, WholeInv;
    if f.event && f.delivered != [] { assert f.delivered[|f.delivered| - 1].index < |f.admitted|; }
  }

  /** After a cancellation, a terminal error or a close, no report is admitted or emitted any more. */
  lemma NothingIsReportedAfterTheEnd(sha: Hash, now: int, line: seq<Byte>, events: seq<Event>, more: seq<Event>)
    requires Reached(sha, now, line, events).feed.closed
    ensures Run(sha, Reached(sha, now, line, events), more).feed == Reached(sha, now, line, events).feed
  {
    hide Inv, Reached;
    Reaches(sha, now, line, events);
    RunKeepsInv(sha, Reached(sha, now, line, events), more);
  }

  /** The exchange is active exactly while an operation is pending, and a stream never coincides with either. */
  lemma StreamsOnlyOnAnIdleExchange(sha: Hash, now: int, line: seq<Byte>, events: seq<Event>)
    ensures var k := Reached(sha, now, line, events).core;
            && (k.exchange.active <==> k.exchange.pending != Exchange.Nothing)
            && (k.stream.Stream? ==> k.request.active && !k.exchange.active && !k.exchange.observing)
  {
    Reaches(sha, now, line, events);
    hide Reached, WireInv, SlotInv;
  }

  /** How many final replies to a command are in the log. */
  function Finals(said: seq<Content>): nat {
    if said == [] then 0 else Finals(said[..|said| - 1]) + (if said[|said| - 1].Answer? then 1 else 0)
  }

  lemma {:induction false} NoFinals(said: seq<Content>)
    requires forall x :: x in said ==> !x.Answer?
    ensures Finals(said) == 0
  {
    if said != [] { NoFinals(said[..|said| - 1]); }
  }

  lemma StreamHasOneFinal(sha: Hash, c: nat, body: seq<Byte>)
    ensures Finals(StreamFrames(sha, c, body)) == 1
  {
    hide Body.Transfer;
    var all := StreamFrames(sha, c, body);
    assert all[..|all| - 1] == Relay(c, Body.Transfer(sha, body));
    NoFinals(Relay(c, Body.Transfer(sha, body)));
  }

  /**
   Every command gets at most one final reply, over the response, failure, deadline and local-error paths;
   and exactly one unless it is the request under way or the run has failed. A body sent in pieces is sent whole.
   */
  lemma OneFinalReply(sha: Hash, now: int, line: seq<Byte>, events: seq<Event>, c: nat)
    ensures var w := Reached(sha, now, line, events);
            var said := About(w.wire.log, c);
            && Finals(said) <= 1
            && (c < w.wire.commands && !w.core.failed && !(w.core.request.active && w.core.request.command == c) ==>
                Finals(said) == 1)
            && (c >= w.wire.commands ==> said == [])
            && (c in w.wire.outcomes && w.wire.outcomes[c].Whole? ==>
                said == StreamFrames(sha, c, w.wire.outcomes[c].body))
  {
    Reaches(sha, now, line, events);
    var w := Reached(sha, now, line, events);
    hide Reached, SlotInv, ControlInv, QueueInv, NumberInv, About, StreamFrames, StreamRemaining;
    if c < w.wire.commands {
      var outcome := w.wire.outcomes[c];
      assert Told(sha, About(w.wire.log, c), c, outcome, w.core.stream, w.core.request.command);
      ToldOnce(sha, About(w.wire.log, c), c, outcome, w.core.stream, w.core.request.command);
      assert Tracked(outcome, c, w.core.request, -1, w.core.failed);
    }
  }

  lemma ToldOnce(sha: Hash, said: seq<Content>, c: nat, outcome: Outcome, s: Stream, target: nat)
    requires StreamStands(s) && Told(sha, said, c, outcome, s, target)
    ensures Finals(said) <= 1 && (outcome.Plain? || outcome.Whole? ==> Finals(said) == 1)
  {
    hide StreamFrames, StreamRemaining;
    match outcome
    case Plain(ok) => assert [Answer(c, ok)][..0] == [];
    case Whole(body) => StreamHasOneFinal(sha, c, body);
    case Cut => NoFinals(said);
    case Waiting =>
      if s.Stream? && target == c { PrefixHasNoAnswer(sha, said, c, s); NoFinals(said); }
  }
}
