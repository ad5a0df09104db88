/**
 The worker as a machine (worker.c): one step per command, exchange callback, pump, write of any
 length or clock tick. Frame texts come with the events; what a frame says is its tag.
 */
module Worker {
  import opened Bytes
  import Registry
  import opened Reports
  import opened OutputQueue
  import Body
  import Credit
  import Exchange
  import Freshness

  type Hash = Registry.Hash

  const CHUNK: nat := 32768
  const TIME_MAX: int := 0x7fff_ffff_ffff_ffff

  datatype Tag = Tag(deadline: int, number: nat, completes: bool, content: Content)

  datatype Request = Request(active: bool, id: string, command: nat, deadline: int)

  /** `notices` is history: every notification judged newer, and whether it answered a renewal. */
  datatype Watch = Watch(
    id: string, freshness: Freshness.Freshness, notices: seq<(Freshness.Notice, bool)>,
    refreshAt: int, renewalDeadline: int, timeout: nat,
    renew: bool, renewing: bool, initialWritten: bool, established: bool, cancelling: bool, event: bool, used: bool)

  datatype Stream = NoStream | Stream(body: seq<Byte>, phase: Phase, offset: nat)

  /** Everything the handlers read and change, besides the output and the report slots. */
  datatype Core = Core(
    exchange: Exchange.Exchange, credit: Credit.Credit, stream: Stream, watch: Watch, request: Request,
    upload: Body.Upload, generation: nat, open: bool, closing: bool, failed: bool)

  /** How each command was answered: not yet, by one frame, by a streamed body and a frame, or by part of a body. */
  datatype Outcome = Waiting | Plain(ok: bool) | Whole(body: seq<Byte>) | Cut

  /** The output queue, and beside it every tag ever appended and the outcome of every command. */
  datatype Wire = Wire(out: Queue<Tag>, log: seq<Tag>, commands: nat, outcomes: map<nat, Outcome>)

  /** `io` while the library runs callbacks; `exited` once the loop has returned an error. */
  datatype Worker = Worker(core: Core, feed: Feed, wire: Wire, io: bool, exited: bool)

  // ----- inputs

  datatype Meta = Meta(observe: nat, format: Option<nat>, maxAge: nat)

  datatype ObserveOption = Absent | Unreadable | Present(meta: Meta)

  /** `whole`: one message with all its data and readable options; `memory`: copies could be made. */
  datatype Message = Message(kind: nat, code: nat, observe: ObserveOption, payload: seq<Byte>, whole: bool,
                             memory: bool)

  datatype Command =
    | Open(accepted: bool, generation: nat)
    | Upload(name: string, part: Body.Event)
    | Send(body: Option<string>, sending: Exchange.Sending)
    | Observe(isEvent: bool, renew: bool, sending: Exchange.Sending)
    | Credit(generation: nat, acknowledged: nat)
    | Cancel(subscription: string, generation: nat, withdrawal: Exchange.Withdrawal)
    | Close

  datatype Event =
    | Commanded(id: string, command: Command, now: int, timeout: nat, line: seq<Byte>)
    | EnterIo
    | LeaveIo
    | Responded(message: Message, now: int, withdrawal: Exchange.Withdrawal, line: seq<Byte>)
    | Broken(now: int, withdrawal: Exchange.Withdrawal, line: seq<Byte>)
    | Wrote(count: nat)
    | Ticked(now: int, line: seq<Byte>)
    | Maintained(now: int, sending: Exchange.Sending, withdrawal: Exchange.Withdrawal, line: seq<Byte>)
    | PumpedStream(line: seq<Byte>)
    | PumpedReport(now: int, line: seq<Byte>)
    | Stopped

  // ----- what a handler decides

  datatype FeedAction = Keep | Storing(payload: seq<Byte>) | Overlapping(payload: seq<Byte>) | Discarding

  datatype Reply =
    | Silent
    | Failing
    | Answering(command: nat, ok: bool, deadline: int)
    | Terminating(deadline: int)
    | Cutting(command: nat)

  datatype Decision = Decision(core: Core, feed: FeedAction, reply: Reply)

  function Refuse(k: Core): Decision { Decision(k, Keep, Failing) }

  /** `response`: the clock must be readable. */
  function Respond(k: Core, command: nat, ok: bool, now: int, timeout: nat): Decision {
    if now < 0 then Refuse(k) else Decision(k, Keep, Answering(command, ok, now + timeout))
  }

  function Idle(k: Core): Core { k.(request := k.request.(active := false)) }

  /** The request's own reply, under its own deadline. */
  function AnswerRequest(k: Core, ok: bool): Decision {
    Decision(Idle(k), Keep, Answering(k.request.command, ok, k.request.deadline))
  }

  function Shut(k: Core): Core { k.(closing := true) }

  function Unwatch(k: Core): Core {
    k.(watch := k.watch.(established := false, cancelling := false, renewing := false))
  }

  predicate Fatal(e: Exchange.Error) { e.ConnectionClosed? || e.StoreError? }

  // ----- commands

  function UploadCommand(sha: Hash, k: Core, c: nat, body: string, event: Body.Event, now: int,
                         timeout: nat): Decision {
    var u := Body.Accept(sha, k.upload, body, event);
    if event.BodyClear? then Refuse(k)
    else if u.failed then Refuse(k.(upload := u))
    else Respond(k.(upload := u), c, true, now, timeout)
  }

  function SendCommand(k: Core, c: nat, id: string, body: Option<string>, sending: Exchange.Sending, now: int,
                       timeout: nat): Decision {
    if now < 0 then Refuse(k)
    else if body.Some? && (!k.upload.complete || k.upload.id != body.value || Body.Exposed(k.upload).None?) then
      Respond(k, c, false, now, timeout)
    else if body.None? && (k.upload.active || k.upload.complete) then Respond(k, c, false, now, timeout)
    else
      var (x, error) := Exchange.Request(k.exchange, sending);
      var l := k.(exchange := x, upload := if body.Some? then Body.Clear(k.upload) else k.upload);
      Launched(l, error, Request(true, id, c, now + timeout), now, timeout)
  }

  /** A started operation waits for its callback; an error answers at once and may close the worker. */
  function Launched(k: Core, error: Option<Exchange.Error>, request: Request, now: int, timeout: nat): Decision {
    if error.None? then Decision(k.(request := request), Keep, Silent)
    else
      var l := k.(request := request.(active := false));
      Respond(if Fatal(error.value) then Shut(l) else l, request.command, false, now, timeout)
  }

  function ObserveCommand(k: Core, c: nat, id: string, event: bool, renew: bool, sending: Exchange.Sending, now: int,
                          timeout: nat): Decision {
    if k.watch.used then Respond(k, c, false, now, timeout)
    else if k.upload.active || k.upload.complete then Respond(k, c, false, now, timeout)
    else if now < 0 then Refuse(k)
    else
      var (x, error) := Exchange.Observe(k.exchange, false, sending);
      var watch := k.watch.(renew := renew, timeout := timeout, event := event && error.None?);
      Launched(k.(exchange := x, watch := watch), error, Request(true, id, c, now + timeout), now, timeout)
  }

  function CreditCommand(k: Core, c: nat, generation: nat, acknowledged: nat, now: int, timeout: nat): Decision {
    if !k.watch.established || k.watch.cancelling then Respond(k, c, false, now, timeout)
    else
      var (credit, ok) := Credit.Acknowledge(k.credit, generation, acknowledged);
      if !ok then Refuse(k.(credit := credit)) else Respond(k.(credit := credit), c, true, now, timeout)
  }

  function CancelCommand(k: Core, c: nat, id: string, subscription: string, generation: nat, w: Exchange.Withdrawal,
                         now: int, timeout: nat): Decision {
    if !k.watch.established || k.watch.cancelling || now < 0 || generation != k.generation || k.watch.id != subscription
    then Respond(k, c, false, now, timeout)
    else
      var (x, error) := Exchange.Cancel(k.exchange, w);
      var request := Request(error.None?, id, c, now + timeout);
      var l := k.(exchange := x, request := request, watch := k.watch.(cancelling := error.None?, renewing := false));
      if error.None? then Decision(l, Discarding, Silent)
      else Decision(Shut(l), Discarding, Answering(c, false, now + timeout))
  }

  function Execute(sha: Hash, k: Core, c: nat, id: string, command: Command, now: int, timeout: nat): Decision {
    if !k.open then
      if !command.Open? then Refuse(k)
      else if !command.accepted then Respond(k, c, false, now, timeout)
      else
        var l := k.(open := true, generation := command.generation, credit := Credit.Initial(command.generation));
        Respond(l, c, true, now, timeout)
    else if command.Open? then Refuse(k)
    else if k.request.active then Respond(k, c, false, now, timeout)
    else if k.watch.established && !command.Close? then
      match command
      case Credit(generation, acknowledged) => CreditCommand(k, c, generation, acknowledged, now, timeout)
      case Cancel(subscription, generation, w) => CancelCommand(k, c, id, subscription, generation, w, now, timeout)
      case _ => Respond(k, c, false, now, timeout)
    else
      match command
      case Upload(body, event) => UploadCommand(sha, k, c, body, event, now, timeout)
      case Close => Respond(Shut(k), c, true, now, timeout).(feed := Discarding)
      case Send(body, sending) => SendCommand(k, c, id, body, sending, now, timeout)
      case Observe(event, renew, sending) => ObserveCommand(k, c, id, event, renew, sending, now, timeout)
      case _ => Respond(k, c, false, now, timeout)
  }

  // ----- exchange callbacks

  predicate Success(m: Message) { m.kind <= 2 && 64 <= m.code <= 94 }

  /** `prepare_report`: an Observe option is required, and the body must fit. */
  function Prepared(m: Message): Option<Meta> {
    if Success(m) && |m.payload| <= Body.BODY_MAX && m.observe.Present? && m.memory then Some(m.observe.meta) else None
  }

  /** `admit_report`: the freshness record decides. */
  function Weigh(watch: Watch, meta: Meta, now: int, renewal: bool): (Watch, Freshness.Admission) {
    var (freshness, admission) := Freshness.NextAdmission(watch.freshness, meta.observe, now, meta.format, renewal);
    var notice := (Freshness.Notice(meta.observe, now, meta.format), renewal);
    (watch.(freshness := freshness,
            notices := if admission == Freshness.Newer then watch.notices + [notice] else watch.notices),
     admission)
  }

  /** When the report goes stale; renewals wait at least a second. None if the clock would overflow. */
  function Armed(watch: Watch, meta: Meta, now: int): Option<int> {
    var delay := if watch.renew && meta.maxAge * 1000 < 1000 then 1000 else meta.maxAge * 1000;
    if now < 0 || delay > TIME_MAX - now then None else Some(now + delay)
  }

  /** The observation ends with an error event; `action` empties the slots. */
  function Terminal(k: Core, now: int, w: Exchange.Withdrawal, action: FeedAction): Decision {
    if now < 0 then Refuse(k)
    else Decision(Shut(Unwatch(k.(exchange := Exchange.Cancel(k.exchange, w).0))), action, Terminating(now + 5000))
  }

  function UnaryResponse(k: Core, m: Message, line: seq<Byte>): Decision {
    if !k.request.active then Refuse(k)
    else if !Success(m) then AnswerRequest(k, false)
    else if |m.payload| <= CHUNK then if line == [] then Refuse(k) else AnswerRequest(k, true)
    else if k.stream.NoStream? && m.memory then Decision(k.(stream := Stream(m.payload, Beginning, 0)), Keep, Silent)
    else AnswerRequest(k, false)
  }

  /** `fits` tells whether the reply can be queued: only then is the observation established. */
  function InitialResponse(k: Core, m: Message, now: int, fits: bool): Decision {
    if !k.request.active then Refuse(k)
    else if Prepared(m).None? then var d := AnswerRequest(k, false); d.(core := Shut(d.core))
    else
      var meta := Prepared(m).value;
      var (weighed, admission) := Weigh(k.watch, meta, now, false);
      var armed := Armed(k.watch, meta, now);
      var l := k.(watch := weighed);
      if admission != Freshness.Newer || armed.None? then Refuse(l)
      else
        var reply := Answering(k.request.command, true, k.request.deadline);
        var watch := l.watch.(refreshAt := armed.value);
        if !fits then Decision(k.(watch := watch), Keep, reply)
        else Decision(Idle(k.(watch := watch.(id := k.request.id, established := true, used := true))),
                      Storing(m.payload), reply)
  }

  function Notified(k: Core, m: Message, renewal: bool, busy: bool, now: int, w: Exchange.Withdrawal): Decision {
    if !k.watch.established || k.watch.cancelling || (renewal && !k.watch.renewing) then Refuse(k)
    else if Prepared(m).None? then Terminal(k, now, w, Discarding)
    else
      var meta := Prepared(m).value;
      var (weighed, admission) := Weigh(k.watch, meta, now, renewal);
      Judged(k.(watch := weighed), m.payload, admission, Armed(k.watch, meta, now), renewal, busy, now, w)
  }

  /** What becomes of a readable notification. */
  function Judged(k: Core, payload: seq<Byte>, admission: Freshness.Admission, armed: Option<int>,
                  renewal: bool, busy: bool, now: int, w: Exchange.Withdrawal): Decision {
    match admission
    case Stale => Decision(k, Keep, Silent)
    case Changed => Terminal(k, now, w, Discarding)
    case Unusable => Refuse(k)
    case Newer =>
      if armed.None? then Refuse(k)
      else
        var l := k.(watch := k.watch.(refreshAt := armed.value, renewing := k.watch.renewing && !renewal));
        if busy && k.watch.event then Terminal(l, now, w, Overlapping(payload))
        else Decision(l, Storing(payload), Silent)
  }

  function CancelledResponse(k: Core, m: Message): Decision {
    if !k.request.active || !k.watch.established || !k.watch.cancelling then Refuse(k)
    else if !Success(m) then var d := AnswerRequest(k, false); d.(core := Shut(d.core))
    else
      var d := AnswerRequest(k, true);
      Decision(Unwatch(d.core).(watch := Unwatch(d.core).watch.(id := "", event := false)), Discarding, d.reply)
  }

  function Callback(k: Core, delivery: Exchange.Delivery, m: Message, busy: bool, now: int, w: Exchange.Withdrawal,
                    fits: bool, line: seq<Byte>): Decision {
    match delivery
    case Unary => UnaryResponse(k, m, line)
    case Initial => InitialResponse(k, m, now, fits)
    case Report => Notified(k, m, false, busy, now, w)
    case Renewed => Notified(k, m, true, busy, now, w)
    case Intervening =>
      if k.watch.established && k.watch.cancelling && Prepared(m).Some? then Decision(k, Keep, Silent) else Refuse(k)
    case Cancelled => CancelledResponse(k, m)
  }

  /** `exchange_failure`, after the exchange has been marked failed. */
  function Failed(k: Core, now: int, w: Exchange.Withdrawal): Decision {
    if k.watch.established && !k.request.active then Terminal(k, now, w, Discarding)
    else if !k.request.active then Refuse(k)
    else var d := AnswerRequest(k, false); Decision(Shut(Unwatch(d.core)), Discarding, d.reply)
  }

  // ----- the clock

  function Timeout(k: Core, now: int): Decision {
    if k.request.active && now >= k.request.deadline then
      if k.stream.Stream? then Decision(Idle(k.(stream := NoStream)), Keep, Cutting(k.request.command))
      else Decision(Shut(Idle(k)), Keep, Answering(k.request.command, false, now + 500))
    else Decision(k, Keep, Silent)
  }

  function Maintain(k: Core, now: int, sending: Exchange.Sending, w: Exchange.Withdrawal): Decision {
    if !k.watch.established || k.watch.cancelling || !k.watch.initialWritten then Decision(k, Keep, Silent)
    else if k.watch.renewing then
      if now < k.watch.renewalDeadline then Decision(k, Keep, Silent) else Terminal(k, now, w, Discarding)
    else if now < k.watch.refreshAt then Decision(k, Keep, Silent)
    else if !k.watch.renew then Terminal(k, now, w, Discarding)
    else
      var (x, error) := Exchange.Observe(k.exchange, true, sending);
      if error.Some? then Terminal(k.(exchange := x), now, w, Discarding)
      else Decision(k.(exchange := x,
                       watch := k.watch.(renewing := true, renewalDeadline := now + k.watch.timeout)), Keep, Silent)
  }

  // ----- effects

  function Put(wire: Wire, line: seq<Byte>, tag: Tag): Wire {
    wire.(out := Append(wire.out, line, tag), log := wire.log + [tag])
  }

  function Settle(wire: Wire, command: nat, outcome: Outcome): Wire {
    wire.(outcomes := wire.outcomes[command := outcome])
  }

  function Adjust(f: Feed, a: FeedAction, event: bool): Feed {
    match a
    case Keep => f
    case Storing(payload) => Store(f.(event := event), payload)
    case Overlapping(payload) => Overlap(f, payload)
    case Discarding => Discard(f)
  }

  function Spoken(wire: Wire, reply: Reply, line: seq<Byte>): Wire {
    match reply
    case Answering(command, ok, deadline) =>
      if Fits(wire.out, line)
      then Settle(Put(wire, line, Tag(deadline, 0, false, Answer(command, ok))), command, Plain(ok))
      else wire
    case Terminating(deadline) =>
      if Fits(wire.out, line) then Put(wire, line, Tag(deadline, 0, false, Ended)) else wire
    case Cutting(command) => Settle(wire, command, Cut)
    case _ => wire
  }

  predicate Invalid(wire: Wire, reply: Reply, line: seq<Byte>) {
    reply.Failing? || reply.Cutting? || (!reply.Silent? && !Fits(wire.out, line))
  }

  function Carry(w: Worker, d: Decision, line: seq<Byte>): Worker {
    w.(core := d.core.(failed := d.core.failed || Invalid(w.wire, d.reply, line)),
       feed := Adjust(w.feed, d.feed, d.core.watch.event),
       wire := Spoken(w.wire, d.reply, line))
  }

  /** A step of the loop that returns zero ends the run. */
  function Conclude(w: Worker, d: Decision, line: seq<Byte>): Worker {
    Carry(w, d, line).(exited := w.exited || Invalid(w.wire, d.reply, line))
  }

  /** A callback that returns zero marks the exchange failed. */
  function Called(w: Worker, d: Decision, line: seq<Byte>): Worker {
    var v := Carry(w, d, line);
    if v.core.failed then v.(core := v.core.(exchange := v.core.exchange.(failed := true))) else v
  }

  // ----- writing

  /** The credit after the frames just completed, or a rejection. */
  function Credited(c: Credit.Credit, tags: seq<Tag>): (Credit.Credit, bool) {
    if tags == [] then (c, true)
    else
      var (d, ok) := Credited(c, tags[..|tags| - 1]);
      var tag := tags[|tags| - 1];
      if !ok || tag.number == 0 then (d, ok) else Credit.Write(d, tag.number)
  }

  function Tags(frames: seq<Frame<Tag>>): (tags: seq<Tag>)
    ensures |tags| == |frames|
    ensures forall i :: 0 <= i < |frames| ==> tags[i] == frames[i].tag
  {
    seq(|frames|, i requires 0 <= i < |frames| => frames[i].tag)
  }

  predicate Completing(tags: seq<Tag>) { exists t :: t in tags && t.completes }

  function Write(w: Worker, count: nat): Worker {
    var done := Completed(w.wire.out.frames, w.wire.out.gone + count);
    var tags := Tags(w.wire.out.frames[..done]);
    var (credit, ok) := Credited(w.core.credit, tags);
    var watch := w.core.watch.(initialWritten := w.core.watch.initialWritten || Completing(tags));
    if !ok then w.(core := w.core.(credit := credit, failed := true), exited := true)
    else w.(core := w.core.(credit := credit, watch := watch), wire := w.wire.(out := Flush(w.wire.out, count)))
  }

  // ----- pumps

  predicate Room(q: Queue<Tag>, line: seq<Byte>) {
    |line| <= OUTPUT_MAX - Used(q) && |q.frames| < OUTPUT_FRAMES
  }

  function StreamContent(sha: Hash, command: nat, s: Stream): Content
    requires s.Stream? && s.offset <= |s.body|
  {
    if s.phase == Finishing then Answer(command, true) else Streamed(command, NextPiece(sha, s.body, s.phase, s.offset))
  }

  /** One turn of the `pump_stream` loop; without room the loop stops. */
  function PumpStream(sha: Hash, w: Worker, line: seq<Byte>): Worker {
    var k, s := w.core, w.core.stream;
    if s.NoStream? || s.offset > |s.body| || !Room(w.wire.out, line) then w
    else if line == [] then w.(core := k.(failed := true), exited := true)
    else
      var wire := Put(w.wire, line, Tag(k.request.deadline, 0, false, StreamContent(sha, k.request.command, s)));
      if s.phase == Finishing then
        w.(core := Idle(k.(stream := NoStream)), wire := Settle(wire, k.request.command, Whole(s.body)))
      else
        var (phase, offset) := Following(s.body, s.phase, s.offset);
        w.(core := k.(stream := Stream(s.body, phase, offset)), wire := wire)
  }

  function PumpReport(sha: Hash, w: Worker, now: int, line: seq<Byte>): Worker {
    var k, r := w.core, w.feed.report;
    if r.Empty? || r.offset > |r.payload| || Credit.Available(k.credit) == 0 then w
    else if k.credit.issued == Credit.NUMBER_MAX then w.(core := k.(failed := true), exited := true)
    else if !Room(w.wire.out, line) then w
    else
      var (credit, grant) := Credit.Assign(k.credit);
      if now < 0 || !grant.Granted? || line == [] then w.(core := k.(failed := true), exited := true)
      else
        var tag := Tag(now + 5000, grant.number, r.phase == Finishing, Emitted(sha, w.feed));
        w.(core := k.(credit := credit), wire := Put(w.wire, line, tag), feed := Pump(sha, w.feed))
  }

  // ----- the machine

  const NOBODY: Request := Request(false, "", 0, 0)
  const UNWATCHED: Watch := Watch("", Freshness.UNSEEN, [], 0, 0, 0, false, false, false, false, false, false, false)
  const FIRST: Core := Core(Exchange.IDLE, Credit.Credit(0, 0, 0, 0, false, false), NoStream, UNWATCHED, NOBODY,
                            Body.IDLE, 0, false, false, false)

  /** The run begins by queueing its ready line. */
  function Boot(now: int, line: seq<Byte>): Worker {
    var w := Worker(FIRST, QUIET, Wire(Queue([], 0), [], 0, map[]), false, false);
    if now < 0 || !Fits(w.wire.out, line) then w.(exited := true)
    else w.(wire := Put(w.wire, line, Tag(now + 5000, 0, false, Ready)))
  }

  function RunCommand(sha: Hash, w: Worker, id: string, command: Command, now: int, timeout: nat,
                      line: seq<Byte>): Worker {
    var c := w.wire.commands;
    var v := w.(wire := Settle(w.wire.(commands := c + 1), c, Waiting));
    Conclude(v, Execute(sha, v.core, c, id, command, now, timeout), line)
  }

  function RunResponse(w: Worker, m: Message, now: int, withdrawal: Exchange.Withdrawal, line: seq<Byte>): Worker {
    var x := w.core.exchange;
    if !x.active && !x.observing then w
    else if !m.whole || |m.payload| > Body.BODY_MAX then RunFailure(w, now, withdrawal, line)
    else
      var (y, delivery) := Exchange.Receive(x, !m.observe.Absent?, m.code);
      if delivery.None? then w
      else
        var busy := w.feed.report.Holding?;
        var fits := Fits(w.wire.out, line);
        Called(w, Callback(w.core.(exchange := y), delivery.value, m, busy, now, withdrawal, fits, line), line)
  }

  function RunFailure(w: Worker, now: int, withdrawal: Exchange.Withdrawal, line: seq<Byte>): Worker {
    var x := w.core.exchange;
    if (!x.active && !x.observing) || x.failed then w
    else Carry(w, Failed(w.core.(exchange := Exchange.Fail(x)), now, withdrawal), line)
  }

  function Tick(w: Worker, now: int, line: seq<Byte>): Worker {
    if now < 0 || (w.wire.out.frames != [] && now >= w.wire.out.frames[0].tag.deadline) then w.(exited := true)
    else Conclude(w, Timeout(w.core, now), line)
  }

  function Apply(sha: Hash, w: Worker, e: Event): Worker {
    if w.exited then w
    else if w.io then
      match e
      case LeaveIo => w.(io := false)
      case Responded(m, now, withdrawal, line) => RunResponse(w, m, now, withdrawal, line)
      case Broken(now, withdrawal, line) => RunFailure(w, now, withdrawal, line)
      case _ => w
    else
      match e
      case EnterIo => if w.core.closing || !w.core.open || w.core.exchange.failed then w else w.(io := true)
      case Commanded(id, command, now, timeout, line) => RunCommand(sha, w, id, command, now, timeout, line)
      case Wrote(count) => if count > Used(w.wire.out) then w else Write(w, count)
      case Stopped => w.(exited := true)
      case _ =>
        if w.core.failed then w
        else
          match e
          case Ticked(now, line) => Tick(w, now, line)
          case Maintained(now, sending, withdrawal, line) =>
            Conclude(w, Maintain(w.core, now, sending, withdrawal), line)
          case PumpedStream(line) => PumpStream(sha, w, line)
          case PumpedReport(now, line) => PumpReport(sha, w, now, line)
          case _ => w
  }

  function Run(sha: Hash, w: Worker, events: seq<Event>): Worker {
    if events == [] then w else Apply(sha, Run(sha, w, events[..|events| - 1]), events[|events| - 1])
  }
}
