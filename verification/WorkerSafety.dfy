/** What every step of the worker keeps, and what that means for whole runs (worker.c). */
module WorkerSafety {
  import opened Bytes
  import opened Reports
  import opened OutputQueue
  import opened Worker
  import Body
  import Credit

  // ----- the queue holds the newest tags of the log, with their numbers in step with the credit

  /** The report frames among some tags. */
  function Numbered(tags: seq<Tag>): (r: seq<Tag>)
    ensures |r| <= |tags|
  {
    if tags == [] then []
    else
      var last := tags[|tags| - 1];
      Numbered(tags[..|tags| - 1]) + (if last.number > 0 then [last] else [])
  }

  lemma {:induction false} NumberedSplits(first: seq<Tag>, second: seq<Tag>)
    ensures Numbered(first + second) == Numbered(first) + Numbered(second)
  {
    if second == [] {
      assert first + second == first;
    } else {
      NumberedSplits(first, second[..|second| - 1]);
      assert (first + second)[..|first + second| - 1] == first + second[..|second| - 1];
    }
  }

  lemma NumberedOneMore(tags: seq<Tag>, tag: Tag)
    ensures Numbered(tags + [tag]) == Numbered(tags) + (if tag.number > 0 then [tag] else [])
  {
    assert (tags + [tag])[..|tags|] == tags;
  }

  ghost predicate CountUp(tags: seq<Tag>, first: nat) {
    forall i :: 0 <= i < |tags| ==> tags[i].number == first + i
  }

  ghost predicate QueueInv(wire: Wire) {
    && Wellformed(wire.out)
    && Used(wire.out) <= OUTPUT_MAX && |wire.out.frames| <= OUTPUT_FRAMES
    && |wire.out.frames| <= |wire.log|
    && wire.log[|wire.log| - |wire.out.frames|..] == Tags(wire.out.frames)
  }

  /** Report numbers run 1, 2, … over the log; those still queued run from written + 1 to issued. */
  ghost predicate NumberInv(wire: Wire, c: Credit.Credit) {
    && Credit.Ordered(c)
    && CountUp(Numbered(wire.log), 1) && |Numbered(wire.log)| == c.issued
    && CountUp(Numbered(Tags(wire.out.frames)), c.written + 1)
    && |Numbered(Tags(wire.out.frames))| == c.issued - c.written
  }

  lemma PutKeepsQueue(wire: Wire, line: seq<Byte>, tag: Tag)
    requires QueueInv(wire) && Fits(wire.out, line)
    ensures QueueInv(Put(wire, line, tag))
  {
    hide Flatten;
    AppendKeepsBytes(wire.out, line, tag);
    var v := Put(wire, line, tag);
    assert Tags(v.out.frames) == Tags(wire.out.frames) + [tag];
  }

  lemma TagsOneMore(wire: Wire, line: seq<Byte>, tag: Tag)
    ensures Tags(Put(wire, line, tag).out.frames) == Tags(wire.out.frames) + [tag]
  {
  }

  /** A frame without a number changes no numbering; one with the next number extends it. */
  lemma PutKeepsNumbers(wire: Wire, line: seq<Byte>, tag: Tag, c: Credit.Credit, d: Credit.Credit)
    requires NumberInv(wire, c) && Credit.Ordered(d) && d.written == c.written
    requires d.issued == c.issued + (if tag.number > 0 then 1 else 0)
    requires tag.number > 0 ==> tag.number == d.issued
    ensures NumberInv(Put(wire, line, tag), d)
  {
    hide Numbered, Credit.Ordered, Tags;
    NumberedOneMore(wire.log, tag);
    TagsOneMore(wire, line, tag);
    NumberedOneMore(Tags(wire.out.frames), tag);
  }

  lemma {:induction false} CreditFollowsTheWrites(c: Credit.Credit, tags: seq<Tag>)
    requires Credit.Ordered(c) && !c.failed
    requires CountUp(Numbered(tags), c.written + 1) && |Numbered(tags)| <= c.issued - c.written
    ensures Credited(c, tags) == (c.(written := c.written + |Numbered(tags)|), true)
  {
    if tags != [] {
      var rest, last := tags[..|tags| - 1], tags[|tags| - 1];
      var sent, all := Numbered(rest), Numbered(tags);
      assert all == sent + (if last.number > 0 then [last] else []);
      assert forall i :: 0 <= i < |sent| ==> sent[i] == all[i];
      hide Numbered;
      CreditFollowsTheWrites(c, rest);
      if last.number > 0 { assert all[|sent|] == last; }
    }
  }

  lemma {:induction false} UnnumberedCreditNothing(c: Credit.Credit, tags: seq<Tag>)
    requires Numbered(tags) == []
    ensures Credited(c, tags) == (c, true)
  {
    if tags != [] { UnnumberedCreditNothing(c, tags[..|tags| - 1]); }
  }

  lemma CreditedStepByStep(wire: Wire, c: Credit.Credit, n: nat)
    requires NumberInv(wire, c) && n <= |wire.out.frames| && (c.failed ==> c.issued == 0)
    ensures var sent := Numbered(Tags(wire.out.frames[..n]));
            && Credited(c, Tags(wire.out.frames[..n])) == (c.(written := c.written + |sent|), true)
            && c.written + |sent| <= c.issued
            && CountUp(Numbered(Tags(wire.out.frames[n..])), c.written + |sent| + 1)
            && |Numbered(Tags(wire.out.frames[n..]))| == c.issued - c.written - |sent|
  {
    hide Numbered, Credited, Credit.Ordered;
    var first, second := Tags(wire.out.frames[..n]), Tags(wire.out.frames[n..]);
    assert Tags(wire.out.frames) == first + second;
    NumberedSplits(first, second);
    var all, sent := Numbered(Tags(wire.out.frames)), Numbered(first);
    assert sent == all[..|sent|] && Numbered(second) == all[|sent|..];
    if c.failed { UnnumberedCreditNothing(c, first); } else { CreditFollowsTheWrites(c, first); }
  }

  /** A write of any length is never refused by the credit, and keeps the queue and the numbers in step. */
  lemma WriteIsNeverRefused(w: Worker, count: nat)
    requires QueueInv(w.wire) && NumberInv(w.wire, w.core.credit) && count <= Used(w.wire.out)
    requires w.core.credit.failed ==> w.core.credit.issued == 0
    ensures var v := Write(w, count);
            && !v.exited == !w.exited && v.core.failed == w.core.failed
            && QueueInv(v.wire) && NumberInv(v.wire, v.core.credit) && v.core.credit.failed == w.core.credit.failed
            && v == w.(core := v.core, wire := v.wire) && v.wire == w.wire.(out := v.wire.out)
            && v.core == w.core.(credit := v.core.credit, watch := v.core.watch)
            && v.core.credit == w.core.credit.(written := v.core.credit.written)
            && v.core.watch == w.core.watch.(initialWritten := v.core.watch.initialWritten)
            && (w.core.watch.initialWritten ==> v.core.watch.initialWritten)
  {
    hide Flatten, Numbered, Credited, Completed, Credit.Ordered, Flush, QueueInv, Tags, Completing;
    var q := w.wire.out;
    var n := Completed(q.frames, q.gone + count);
    CreditedStepByStep(w.wire, w.core.credit, n);
    FlushKeepsQueue(w.wire, count);
    var v := Write(w, count);
    WrittenStaysOrdered(w.core.credit, v.core.credit.written);
  }

  lemma FlushKeepsQueue(wire: Wire, count: nat)
    requires QueueInv(wire) && count <= Used(wire.out)
    ensures QueueInv(wire.(out := Flush(wire.out, count)))
    ensures Flush(wire.out, count).frames == wire.out.frames[Completed(wire.out.frames, wire.out.gone + count)..]
  {
    hide Flatten, Completed, Wellformed, Used, Tags;
    var q := wire.out;
    var n := Completed(q.frames, q.gone + count);
    FlushMovesBytes(q, count);
    FlushDropsFrames(q, count);
    TagsDrop(q.frames, n);
    hide Flush;
    TailOfTail(wire.log, |wire.log| - |q.frames|, n);
  }

  lemma FlushDropsFrames(q: Queue<Tag>, count: nat)
    ensures Flush(q, count).frames == q.frames[Completed(q.frames, q.gone + count)..]
  {
    hide Flatten, Completed;
  }

  lemma TagsDrop(frames: seq<Frame<Tag>>, n: nat)
    requires n <= |frames|
    ensures Tags(frames)[n..] == Tags(frames[n..])
  {
  }

  lemma WrittenStaysOrdered(c: Credit.Credit, written: nat)
    requires Credit.Ordered(c) && c.written <= written <= c.issued
    ensures Credit.Ordered(c.(written := written))
  {
  }

  // ----- one final reply for each command

  predicate Concerns(c: Content, command: nat) {
    (c.Answer? && c.command == command) || (c.Streamed? && c.command == command)
  }

  /** What the log says about one command. */
  function About(log: seq<Tag>, command: nat): seq<Content> {
    if log == [] then []
    else
      var last := log[|log| - 1].content;
      About(log[..|log| - 1], command) + (if Concerns(last, command) then [last] else [])
  }

  lemma AboutOneMore(log: seq<Tag>, tag: Tag, command: nat)
    ensures About(log + [tag], command)
         == About(log, command) + (if Concerns(tag.content, command) then [tag.content] else [])
  {
    assert (log + [tag])[..|log|] == log;
  }

  function Relay(command: nat, pieces: seq<Body.Piece>): (contents: seq<Content>)
    ensures |contents| == |pieces|
    ensures forall k :: 0 <= k < |pieces| ==> contents[k] == Streamed(command, pieces[k])
  {
    seq(|pieces|, k requires 0 <= k < |pieces| => Streamed(command, pieces[k]))
  }

  /** A response body sent in pieces, then its result. */
  function StreamFrames(sha: Hash, command: nat, body: seq<Byte>): seq<Content> {
    Relay(command, Body.Transfer(sha, body)) + [Answer(command, true)]
  }

  function StreamRemaining(sha: Hash, command: nat, s: Stream): seq<Content>
    requires s.Stream? && s.offset <= |s.body|
  {
    Relay(command, Outstanding(sha, s.body, s.phase, s.offset)) + [Answer(command, true)]
  }

  predicate StreamStands(s: Stream) { s.Stream? ==> Standing(s.body, s.phase, s.offset) }

  /** What was said about command `c` is what its outcome stands for; `target` is the command being streamed. */
  ghost predicate Told(sha: Hash, said: seq<Content>, c: nat, outcome: Outcome, s: Stream, target: nat)
    requires StreamStands(s)
  {
    match outcome
    case Plain(ok) => said == [Answer(c, ok)]
    case Whole(body) => said == StreamFrames(sha, c, body)
    case Cut => forall x :: x in said ==> !x.Answer?
    case Waiting =>
      if s.Stream? && target == c then said + StreamRemaining(sha, c, s) == StreamFrames(sha, c, s.body)
      else said == []
  }

  ghost predicate ToldInv(sha: Hash, wire: Wire, s: Stream, target: nat) {
    && StreamStands(s)
    && (forall c: nat :: c in wire.outcomes <==> c < wire.commands)
    && (forall c: nat :: c >= wire.commands ==> About(wire.log, c) == [])
    && (forall c :: c in wire.outcomes ==> Told(sha, About(wire.log, c), c, wire.outcomes[c], s, target))
  }

  predicate Open(outcomes: map<nat, Outcome>, c: nat) {
    c in outcomes && outcomes[c].Waiting?
  }

  /** A command without an outcome is the active request or the newest command, unless the run has failed. */
  predicate Tracked(outcome: Outcome, c: nat, request: Request, newest: int, failed: bool) {
    && (outcome.Waiting? ==> failed || c == newest || (request.active && request.command == c))
    && (outcome.Cut? ==> failed)
  }

  ghost predicate TrackInv(outcomes: map<nat, Outcome>, request: Request, s: Stream, newest: int, failed: bool) {
    && (forall c :: c in outcomes ==> Tracked(outcomes[c], c, request, newest, failed))
    && (request.active ==> Open(outcomes, request.command) && request.command != newest)
    && (s.Stream? ==> request.active)
  }

  lemma Retarget(sha: Hash, wire: Wire, before: nat, after: nat)
    requires ToldInv(sha, wire, NoStream, before)
    ensures ToldInv(sha, wire, NoStream, after)
  {
    hide StreamRemaining, StreamFrames, About;
    forall c | c in wire.outcomes ensures Told(sha, About(wire.log, c), c, wire.outcomes[c], NoStream, after) {
      assert Told(sha, About(wire.log, c), c, wire.outcomes[c], NoStream, before);
    }
  }

  /** A new command starts out waiting. */
  lemma NewCommandIsTold(sha: Hash, wire: Wire, s: Stream, target: nat)
    requires ToldInv(sha, wire, s, target) && (s.Stream? ==> target < wire.commands)
    ensures ToldInv(sha, Settle(wire.(commands := wire.commands + 1), wire.commands, Waiting), s, target)
  {
    hide StreamRemaining, StreamFrames, About;
  }

  /** Settling an open command that is not being streamed, with or without its frame. */
  lemma AnswerIsTold(sha: Hash, wire: Wire, s: Stream, target: nat, reply: Reply, line: seq<Byte>)
    requires ToldInv(sha, wire, s, target) && reply.Answering? && Open(wire.outcomes, reply.command)
    requires s.Stream? ==> reply.command != target
    ensures ToldInv(sha, Spoken(wire, reply, line), s, target)
  {
    hide StreamRemaining, StreamFrames, About, Fits;
    var c := reply.command;
    assert Told(sha, About(wire.log, c), c, wire.outcomes[c], s, target);
    if Fits(wire.out, line) {
      LogIsTold(sha, wire, s, target, Tag(reply.deadline, 0, false, Answer(c, reply.ok)), line, Plain(reply.ok));
    }
  }

  /** One more frame about command `c` alone. */
  lemma LogIsTold(sha: Hash, wire: Wire, s: Stream, target: nat, tag: Tag, line: seq<Byte>, outcome: Outcome)
    requires ToldInv(sha, wire, s, target) && (tag.content.Answer? || tag.content.Streamed?)
    requires tag.content.command in wire.outcomes
    requires Told(sha, About(wire.log, tag.content.command) + [tag.content], tag.content.command, outcome, s, target)
    ensures ToldInv(sha, Settle(Put(wire, line, tag), tag.content.command, outcome), s, target)
  {
    hide StreamRemaining, StreamFrames, About, Told;
    var c := tag.content.command;
    var v := Settle(Put(wire, line, tag), c, outcome);
    AboutOneMore(wire.log, tag, c);
    forall d | d != c ensures About(v.log, d) == About(wire.log, d) { AboutOneMore(wire.log, tag, d); }
  }

  /** Frames that concern no command. */
  lemma OtherFramesAreTold(sha: Hash, wire: Wire, s: Stream, target: nat, tag: Tag, line: seq<Byte>)
    requires ToldInv(sha, wire, s, target) && !tag.content.Answer? && !tag.content.Streamed?
    ensures ToldInv(sha, Put(wire, line, tag), s, target)
  {
    hide StreamRemaining, StreamFrames, About, Told;
    var v := Put(wire, line, tag);
    forall d ensures About(v.log, d) == About(wire.log, d) { AboutOneMore(wire.log, tag, d); }
  }

  /** A pump of the response stream moves one piece from what is owed to what was said. */
  lemma StreamIsTold(sha: Hash, w: Worker, line: seq<Byte>)
    requires ToldInv(sha, w.wire, w.core.stream, w.core.request.command) && w.core.stream.Stream?
    requires w.core.request.command in w.wire.outcomes && w.wire.outcomes[w.core.request.command].Waiting?
    ensures var v := PumpStream(sha, w, line);
            && ToldInv(sha, v.wire, v.core.stream, v.core.request.command)
            && (v.core.stream.Stream? ==> v.wire.outcomes == w.wire.outcomes && v.core.request == w.core.request)
  {
    hide StreamFrames, About, Told, ToldInv, Outstanding, NextPiece, Following, Used;
    if Room(w.wire.out, line) && line != [] {
      if w.core.stream.phase == Finishing { StreamResult(sha, w, line); } else { StreamPiece(sha, w, line); }
    }
  }

  lemma StreamResult(sha: Hash, w: Worker, line: seq<Byte>)
    requires ToldInv(sha, w.wire, w.core.stream, w.core.request.command)
    requires w.core.stream.Stream? && w.core.stream.phase == Finishing
    requires w.core.request.command in w.wire.outcomes && w.wire.outcomes[w.core.request.command].Waiting?
    ensures var c := w.core.request.command;
            var tag := Tag(w.core.request.deadline, 0, false, Answer(c, true));
            ToldInv(sha, Settle(Put(w.wire, line, tag), c, Whole(w.core.stream.body)), NoStream, c)
  {
    hide StreamFrames, About;
    var c, s := w.core.request.command, w.core.stream;
    assert Told(sha, About(w.wire.log, c), c, w.wire.outcomes[c], s, c);
    assert StreamRemaining(sha, c, s) == [Answer(c, true)];
    var tag := Tag(w.core.request.deadline, 0, false, Answer(c, true));
    LogIsTold(sha, w.wire, s, c, tag, line, Whole(s.body));
    StreamEnds(sha, Settle(Put(w.wire, line, tag), c, Whole(s.body)), s, c);
  }

  /** With its command settled, a stream owes nothing. */
  lemma StreamEnds(sha: Hash, wire: Wire, s: Stream, target: nat)
    requires ToldInv(sha, wire, s, target) && (target in wire.outcomes ==> !wire.outcomes[target].Waiting?)
    ensures ToldInv(sha, wire, NoStream, target)
  {
    hide StreamFrames, About, StreamRemaining;
    forall c | c in wire.outcomes ensures Told(sha, About(wire.log, c), c, wire.outcomes[c], NoStream, target) {
      assert Told(sha, About(wire.log, c), c, wire.outcomes[c], s, target);
    }
  }

  lemma StreamPiece(sha: Hash, w: Worker, line: seq<Byte>)
    requires ToldInv(sha, w.wire, w.core.stream, w.core.request.command)
    requires w.core.stream.Stream? && w.core.stream.phase != Finishing
    requires w.core.request.command in w.wire.outcomes && w.wire.outcomes[w.core.request.command].Waiting?
    ensures var c, s := w.core.request.command, w.core.stream;
            var tag := Tag(w.core.request.deadline, 0, false, StreamContent(sha, c, s));
            var (phase, offset) := Following(s.body, s.phase, s.offset);
            ToldInv(sha, Put(w.wire, line, tag), Stream(s.body, phase, offset), c)
  {
    hide StreamFrames, About, Outstanding, NextPiece, Following;
    var c, s := w.core.request.command, w.core.stream;
    var tag := Tag(w.core.request.deadline, 0, false, StreamContent(sha, c, s));
    var (phase, offset) := Following(s.body, s.phase, s.offset);
    var t := Stream(s.body, phase, offset);
    PieceByPiece(sha, s.body, s.phase, s.offset);
    OwedPieceByPiece(sha, c, s, t);
    var said := About(w.wire.log, c);
    assert Told(sha, said, c, w.wire.outcomes[c], s, c);
    assert said + StreamRemaining(sha, c, s) == (said + [tag.content]) + StreamRemaining(sha, c, t);
    SayPiece(sha, w.wire, s, t, c, tag, line);
  }

  lemma OwedPieceByPiece(sha: Hash, c: nat, s: Stream, t: Stream)
    requires s.Stream? && t.Stream? && StreamStands(s) && StreamStands(t) && s.phase != Finishing && t.body == s.body
    requires Outstanding(sha, s.body, s.phase, s.offset)
          == [NextPiece(sha, s.body, s.phase, s.offset)] + Outstanding(sha, t.body, t.phase, t.offset)
    ensures StreamRemaining(sha, c, s) == [StreamContent(sha, c, s)] + StreamRemaining(sha, c, t)
  {
    hide Outstanding, NextPiece;
    var rest := Outstanding(sha, t.body, t.phase, t.offset);
    assert Relay(c, [NextPiece(sha, s.body, s.phase, s.offset)] + rest)
        == [StreamContent(sha, c, s)] + Relay(c, rest);
  }

  lemma SayPiece(sha: Hash, wire: Wire, s: Stream, t: Stream, c: nat, tag: Tag, line: seq<Byte>)
    requires ToldInv(sha, wire, s, c) && StreamStands(t) && c in wire.outcomes && tag.content.Streamed?
             && tag.content.command == c
    requires Told(sha, About(wire.log, c) + [tag.content], c, wire.outcomes[c], t, c)
    ensures ToldInv(sha, Put(wire, line, tag), t, c)
  {
    hide StreamFrames, About, StreamRemaining;
    var v := Put(wire, line, tag);
    AboutOneMore(wire.log, tag, c);
    forall d | d != c ensures About(v.log, d) == About(wire.log, d) { AboutOneMore(wire.log, tag, d); }
    forall d | d in wire.outcomes ensures Told(sha, About(v.log, d), d, wire.outcomes[d], t, c) {
      assert Told(sha, About(wire.log, d), d, wire.outcomes[d], s, c);
    }
  }

  // ----- what a decision must respect

  /** The decision settles command `c`, leaves it to the active request, or ends the run. */
  predicate Covers(d: Decision, c: nat) {
    || d.reply.Failing?
    || ((d.reply.Answering? || d.reply.Cutting?) && d.reply.command == c)
    || (d.core.request.active && d.core.request.command == c)
  }

  /** A stream starts on the active request's own large body, and ends only with its command cut. */
  predicate StreamStep(k: Core, d: Decision) {
    || (k.stream == d.core.stream
        && (k.stream.Stream? ==>
            d.core.request == k.request && !(d.reply.Answering? && d.reply.command == k.request.command)))
    || (k.stream.NoStream? && d.reply.Silent? && d.core.request == k.request && k.request.active
        && d.core.stream.Stream? && d.core.stream == Stream(d.core.stream.body, Beginning, 0)
        && |d.core.stream.body| > 32768)
    || (k.stream.Stream? && d.core.stream.NoStream? && d.core.request == k.request.(active := false)
        && d.reply == Cutting(k.request.command))
  }

  /** Replies go to the newest command or to the active request; what was active is covered. */
  predicate ReplyStep(k: Core, d: Decision, newest: int, fits: bool) {
    && (d.reply.Answering? || d.reply.Cutting? ==>
          d.reply.command == newest || (k.request.active && d.reply.command == k.request.command))
    && (newest >= 0 ==> Covers(d, newest))
    && (k.request.active ==> Covers(d, k.request.command))
    && (d.core.request.active ==>
          || d.core.request.command == newest
          || (k.request.active && d.core.request.command == k.request.command))
    && (d.core.request.active && d.reply.Answering? && d.reply.command == d.core.request.command ==>
        !fits && k.stream.NoStream?)
    && (d.reply.Cutting? ==> k.stream.Stream? && d.core.stream.NoStream?)
    && (d.core.stream.Stream? ==>
        d.core.request.active && k.request.active && d.core.request.command == k.request.command)
  }

  ghost predicate Sound(k: Core, d: Decision, newest: int, fits: bool) {
    StreamStep(k, d) && ReplyStep(k, d, newest, fits)
  }

  lemma SoundIsTold(sha: Hash, wire: Wire, k: Core, d: Decision, line: seq<Byte>, newest: int)
    requires ToldInv(sha, wire, k.stream, k.request.command)
    requires TrackInv(wire.outcomes, k.request, k.stream, newest, true)
    requires newest >= 0 ==> newest in wire.outcomes && wire.outcomes[newest].Waiting?
    requires Sound(k, d, newest, Fits(wire.out, line))
    ensures ToldInv(sha, Spoken(wire, d.reply, line), d.core.stream, d.core.request.command)
  {
    hide ToldInv, Fits, Put, Settle, Tracked;
    assert k.request.active ==> Open(wire.outcomes, k.request.command);
    if d.reply.Cutting? {
      CutIsTold(sha, wire, k.stream, k.request.command);
    } else if d.core.stream == k.stream {
      if d.reply.Answering? { AnswerIsTold(sha, wire, k.stream, k.request.command, d.reply, line); }
      if d.reply.Terminating? {
        OtherFramesAreTold(sha, wire, k.stream, k.request.command, Tag(d.reply.deadline, 0, false, Ended), line);
      }
      if k.stream.NoStream? {
        Retarget(sha, Spoken(wire, d.reply, line), k.request.command, d.core.request.command);
      }
    } else {
      StreamBegins(sha, wire, d.core.stream, k.request.command);
    }
  }

  lemma CutIsTold(sha: Hash, wire: Wire, s: Stream, c: nat)
    requires ToldInv(sha, wire, s, c) && s.Stream? && c in wire.outcomes && wire.outcomes[c].Waiting?
    ensures ToldInv(sha, Settle(wire, c, Cut), NoStream, c)
  {
    hide About, StreamRemaining, StreamFrames;
    var said := About(wire.log, c);
    assert Told(sha, said, c, wire.outcomes[c], s, c);
    PrefixHasNoAnswer(sha, said, c, s);
    var v := Settle(wire, c, Cut);
    forall d | d in v.outcomes ensures Told(sha, About(v.log, d), d, v.outcomes[d], NoStream, c) {
      assert Told(sha, About(wire.log, d), d, wire.outcomes[d], s, c);
    }
  }

  lemma PrefixHasNoAnswer(sha: Hash, said: seq<Content>, c: nat, s: Stream)
    requires s.Stream? && StreamStands(s) && said + StreamRemaining(sha, c, s) == StreamFrames(sha, c, s.body)
    ensures forall x :: x in said ==> !x.Answer?
  {
    hide Outstanding;
    var all := StreamFrames(sha, c, s.body);
    assert |said| < |all|;
    forall i | 0 <= i < |said| ensures !said[i].Answer? { assert said[i] == all[i]; }
  }

  lemma StreamBegins(sha: Hash, wire: Wire, s: Stream, c: nat)
    requires ToldInv(sha, wire, NoStream, c) && c in wire.outcomes && wire.outcomes[c].Waiting?
    requires s.Stream? && s == Stream(s.body, Beginning, 0) && |s.body| > 32768
    ensures ToldInv(sha, wire, s, c)
  {
    hide About;
    forall d | d in wire.outcomes ensures Told(sha, About(wire.log, d), d, wire.outcomes[d], s, c) {
      hide StreamFrames, StreamRemaining;
      assert Told(sha, About(wire.log, d), d, wire.outcomes[d], NoStream, c);
      if d == c { WholeRemains(sha, c, s); assert [] + StreamFrames(sha, c, s.body) == StreamFrames(sha, c, s.body); }
    }
  }

  lemma WholeRemains(sha: Hash, c: nat, s: Stream)
    requires s.Stream? && s.phase == Beginning && s.offset == 0
    ensures StreamRemaining(sha, c, s) == StreamFrames(sha, c, s.body)
  {
  }

  lemma SoundIsTracked(wire: Wire, k: Core, d: Decision, line: seq<Byte>, newest: int, failed: bool)
    requires TrackInv(wire.outcomes, k.request, k.stream, newest, failed)
    requires newest >= 0 ==> newest in wire.outcomes && wire.outcomes[newest].Waiting?
    requires Sound(k, d, newest, Fits(wire.out, line))
    ensures TrackInv(Spoken(wire, d.reply, line).outcomes, d.core.request, d.core.stream, -1,
                     failed || Invalid(wire, d.reply, line))
  {
    hide Fits;
  }
}
