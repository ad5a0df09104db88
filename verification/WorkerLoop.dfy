/** The worker's loops in place: the stream and report pumps and the flush (worker.c). */
module WorkerLoop {
  import opened Bytes
  import opened Reports
  import opened OutputQueue
  import opened Worker
  import opened OutputBuffer
  import Credit

  /** How a frame reads as text; formatting is not part of this model. */
  type Text = Content -> seq<Byte>

  /** Frames a stream still owes, its result included. */
  function Owed(sha: Hash, s: Stream): nat
    requires s.Stream? ==> Standing(s.body, s.phase, s.offset)
  {
    if s.NoStream? then 0 else 1 + |Outstanding(sha, s.body, s.phase, s.offset)|
  }

  function NextStream(s: Stream): Stream
    requires s.Stream? && s.offset <= |s.body|
  {
    if s.phase == Finishing then NoStream
    else var (p, o) := Following(s.body, s.phase, s.offset); Stream(s.body, p, o)
  }

  class Loop {
    const sha: Hash
    const output: Output
    const credit: Credit.Account
    var stream: Stream
    var request: Request
    var report: Slot
    var next: Slot
    var initialWritten: bool
    var failed: bool
    ghost var state: Worker

    ghost predicate Standings()
      reads this
    {
      && (stream.Stream? ==> Standing(stream.body, stream.phase, stream.offset))
      && (report.Holding? ==> Standing(report.payload, report.phase, report.offset))
      && (next.Holding? ==> Standing(next.payload, next.phase, next.offset))
    }

    ghost function Kept(): Fields
      reads this, output, credit
    {
      Fields(credit.View(), stream, request, report, next, initialWritten, failed, output.queue, false, state.exited)
    }

    ghost predicate Mirrors()
      reads this, output, credit
    {
      FieldsOf(state) == Kept()
    }

    ghost predicate Valid()
      reads this, output, output.bytes, output.frames, credit
    {
      output.Valid() && Mirrors() && Standings() && !state.exited
    }

    /** A worker before its ready line. */
    constructor (hash: Hash)
      ensures Valid() && fresh(output) && fresh(output.bytes) && fresh(output.frames) && fresh(credit)
      ensures state == Worker(FIRST, QUIET, Wire(Queue([], 0), [], 0, map[]), false, false)
    {
      sha := hash;
      output := new Output();
      credit := new Credit.Account.Zeroed();
      stream, request, report, next := NoStream, NOBODY, Empty, Empty;
      initialWritten, failed := false, false;
      state := Worker(FIRST, QUIET, Wire(Queue([], 0), [], 0, map[]), false, false);
    }

    method HasRoom(line: seq<Byte>) returns (room: bool)
      requires output.Valid()
      ensures room == Room(output.queue, line)
    {
      output.UsedIsShown();
      room := |line| <= OUTPUT_MAX - output.used && output.count != OUTPUT_FRAMES;
    }

    /** The switch at the end of a turn of `pump_stream`. */
    method AdvanceStream()
      requires stream.Stream? && Standings()
      modifies this`stream, this`request
      ensures Standings() && Owed(sha, stream) < Owed(sha, old(stream))
      ensures stream == NextStream(old(stream))
      ensures request == if old(stream).phase == Finishing then old(request).(active := false) else old(request)
    {
      if stream.phase == Finishing {
        stream := NoStream;
        request := request.(active := false);
      } else {
        PieceByPiece(sha, stream.body, stream.phase, stream.offset);
        hide Outstanding;
        match stream.phase
        case Beginning => stream := stream.(phase := Slicing);
        case Slicing =>
          var length := if |stream.body| - stream.offset > 32768 then 32768 else |stream.body| - stream.offset;
          stream := stream.(offset := stream.offset + length);
          if stream.offset == |stream.body| { stream := stream.(phase := Ending); }
        case Ending => stream := stream.(phase := Finishing);
      }
    }

    /** `pump_stream`: as many frames as fit. Each turn is one step of the machine. */
    method DrainStream(text: Text) returns (ok: bool, ghost events: seq<Event>)
      requires Valid() && !failed
      modifies this, output, output.bytes, output.frames
      ensures output.Valid() && Mirrors()
      ensures forall e :: e in events ==> e.PumpedStream?
      ensures state == Run(sha, old(state), events)
      ensures ok == !state.exited
      ensures ok ==> Valid()
      ensures ok && stream.Stream? ==> !Room(output.queue, text(StreamContent(sha, request.command, stream)))
    {
      events := [];
      hide FieldsOf, Apply, PumpStream, Owed, Room, Shape, StreamContent;
      while stream.Stream?
        invariant Valid()
        invariant forall e :: e in events ==> e.PumpedStream?
        invariant state == Run(sha, old(state), events) && !failed
        decreases Owed(sha, stream)
      {
        var content := StreamContent(sha, request.command, stream);
        var line := text(content);
        var room := HasRoom(line);
        if !room { return true, events; }
        RunOneMore(sha, old(state), events, PumpedStream(line));
        Unpack(state);
        PumpIsAStep(sha, state, line);
        events := events + [PumpedStream(line)];
        ok := StreamTurn(line);
        if !ok { return false, events; }
      }
      ok := true;
    }

    method StreamTurn(line: seq<Byte>) returns (ok: bool)
      requires Valid() && !failed && stream.Stream? && Room(output.queue, line)
      modifies this, output, output.bytes, output.frames
      ensures output.Valid() && Mirrors() && state == PumpStream(sha, old(state), line)
      ensures ok == !state.exited
      ensures ok ==> Valid() && failed == old(failed) && Owed(sha, stream) < Owed(sha, old(stream))
    {
      hide PumpStream, Outstanding, Used, Following, NextPiece, NextStream, Owed, Shape, Flatten;
      StreamInParts(sha, state, line);
      var content := StreamContent(sha, request.command, stream);
      hide FieldsOf, Owed, Output.Valid, NextPiece, Following, StreamContent, Standing, NextStream, OutputQueue.Append;
      state := PumpStream(sha, state, line);
      ok := output.Append(line, Tag(request.deadline, 0, false, content));
      if !ok {
        failed := true;
        return;
      }
      AdvanceStream();
    }

    /** The switch at the end of `pump_report`: the next phase, or the slot behind it. */
    method AdvanceReport(ghost f: Feed)
      requires report.Holding? && Standings() && f.report == report && f.next == next
      modifies this`report, this`next
      ensures Standings()
      ensures report == Pump(sha, f).report && next == Pump(sha, f).next
    {
      if report.phase == Finishing {
        report := Empty;
        if next.Holding? { report, next := next, Empty; }
      } else {
        PieceByPiece(sha, report.payload, report.phase, report.offset);
        hide Outstanding;
        report := report.(started := true);
        match report.phase
        case Beginning => report := report.(phase := Slicing);
        case Slicing =>
          var length := if |report.payload| - report.offset > 32768 then 32768 else |report.payload| - report.offset;
          report := report.(offset := report.offset + length);
          if report.offset == |report.payload| { report := report.(phase := Ending); }
        case Ending => report := report.(phase := Finishing);
      }
    }

    /** `pump_report`: at most one frame, under a number the window still allows. */
    method SendReport(now: int, text: Text) returns (ok: bool)
      requires Valid() && !failed
      modifies this, output, output.bytes, output.frames, credit
      ensures output.Valid() && Mirrors() && ok == !state.exited && (ok ==> Valid())
      ensures var line := if old(report).Holding? then text(Emitted(sha, old(state).feed)) else [];
              state == Apply(sha, old(state), PumpedReport(now, line))
    {
      ghost var line0 := if report.Holding? then text(Emitted(sha, state.feed)) else [];
      ReportIsAStep(sha, state, now, line0);
      hide Apply, Output.Valid, Outstanding, NextPiece, Used, Credit.Available, Credit.Assign;
      if report.Empty? { return true; }
      var window := credit.Window();
      if window == 0 { return true; }
      if credit.issued == Credit.NUMBER_MAX {
        state, failed := PumpReport(sha, state, now, line0), true;
        return false;
      }
      var content := ReportContent(sha, report);
      var line := text(content);
      var room := HasRoom(line);
      if !room { return true; }
      ok := NumberedFrame(now, line, content);
    }

    method NumberedFrame(now: int, line: seq<Byte>, content: Content) returns (ok: bool)
      requires Valid() && !failed && report.Holding? && content == ReportContent(sha, report)
      requires Credit.Available(credit.View()) > 0 && credit.issued != Credit.NUMBER_MAX && Room(output.queue, line)
      modifies this, output, output.bytes, output.frames, credit
      ensures output.Valid() && Mirrors() && ok == !state.exited && (ok ==> Valid())
      ensures state == PumpReport(sha, old(state), now, line)
    {
      hide PumpReport, Used, Outstanding, Pump;
      ReportInParts(sha, state, now, line);
      if now < 0 || |line| == 0 {
        state := PumpReport(sha, state, now, line);
        failed := true;
        return false;
      }
      EmitReport(now, line, content);
      ok := true;
    }

    method EmitReport(now: int, line: seq<Byte>, content: Content)
      requires Valid() && report.Holding? && content == ReportContent(sha, report) && line != [] && now >= 0
      requires Credit.Available(credit.View()) > 0 && credit.issued != Credit.NUMBER_MAX && Room(output.queue, line)
      modifies this`state, this`report, this`next, output, output.bytes, output.frames, credit
      ensures Valid() && state == PumpReport(sha, old(state), now, line)
    {
      hide PumpReport, Used, Outstanding, Pump, Following, NextPiece, Shape, Flatten;
      ReportInParts(sha, state, now, line);
      assert OutputQueue.Fits(output.queue, line);
      ghost var feed := state.feed;
      hide FieldsOf, OutputQueue.Fits, Output.Valid, Credit.Available, Credit.Assign, Standing, ReportContent;
      hide OutputQueue.Append;
      state := PumpReport(sha, state, now, line);
      var grant := credit.Next();
      var done := report.phase == Finishing;
      var ok := output.Append(line, Tag(now + 5000, grant.number, done, content));
      assert ok;
      AdvanceReport(feed);
    }

    /** The second part of `flush_output`: each completed report frame is acknowledged as written, in turn. */
    method SettleWritten(consumed: nat) returns (ok: bool, completes: bool)
      requires output.Valid() && consumed <= output.count == |output.queue.frames|
      modifies credit
      ensures (credit.View(), ok) == Credited(old(credit.View()), Tags(output.queue.frames[..consumed]))
      ensures ok ==> completes == Completing(Tags(output.queue.frames[..consumed]))
    {
      hide Shape, Completing, Credit.Write, Output.Valid, Credited;
      ok, completes := true, false;
      ghost var before, tags := credit.View(), Tags(output.queue.frames[..consumed]);
      var i := 0;
      assert tags[..0] == [];
      NothingCompletes(before);
      while i < consumed
        invariant 0 <= i <= consumed && output.Valid()
        invariant (credit.View(), true) == Credited(before, tags[..i])
        invariant completes == Completing(tags[..i])
      {
        output.EntryTag(i);
        var tag := output.frames[i].tag;
        CreditedOneMore(before, tags, i);
        ok := SettleOne(tag, before, tags, i);
        if !ok {
          RefusalStays(before, tags, i + 1);
          return;
        }
        completes := completes || tag.completes;
        i := i + 1;
      }
      assert tags[..consumed] == tags;
    }

    /** A report frame is acknowledged under its number; any other is passed over. */
    method SettleOne(tag: Tag, ghost before: Credit.Credit, ghost tags: seq<Tag>, ghost i: nat) returns (ok: bool)
      requires i < |tags| && tag == tags[i] && (credit.View(), true) == Credited(before, tags[..i])
      modifies credit
      ensures (credit.View(), ok) == Credited(before, tags[..i + 1])
    {
      hide Credited, Credit.Write;
      CreditedOneMore(before, tags, i);
      ok := true;
      if tag.number != 0 { ok := credit.Wrote(tag.number); }
    }

    /** `flush_output`, whatever the write returns: nothing to write and an interruption change nothing. */
    method FlushOutput(written: Written) returns (ok: bool, ghost events: seq<Event>)
      requires Valid() && (written.Moved? ==> written.count <= output.used)
      modifies this, output, output.bytes, output.frames, credit
      ensures output.Valid() && Mirrors() && state == Run(sha, old(state), events)
      ensures events == if old(output.used) == 0 || written.Interrupted? then []
                        else if written.Moved? && written.count > 0 then [Wrote(written.count)] else [Stopped]
      ensures ok == !state.exited
      ensures ok ==> Valid()
    {
      if output.used == 0 || written.Interrupted? { return true, []; }
      output.UsedIsShown();
      FlushIsAStep(sha, state, if written.Moved? then written.count else 0);
      hide Apply;
      if written.Moved? && written.count > 0 {
        events := [Wrote(written.count)];
        ok := AfterWrite(written.count);
      } else {
        events := [Stopped];
        state := state.(exited := true);
        ok := false;
      }
    }

    /** The part after a write that moved bytes. */
    method AfterWrite(written: nat) returns (ok: bool)
      requires Valid() && 0 < written <= output.used
      modifies this, output, output.bytes, output.frames, credit
      ensures output.Valid() && Mirrors() && state == Write(old(state), written)
      ensures ok == !state.exited
      ensures ok ==> Valid()
    {
      hide FieldsOf, Output.Valid, Completing, Completed, Credited, OutputQueue.Flush, Standing, Write, Used, Flatten;
      ghost var before := state;
      Unpack(before);
      output.UsedIsShown();
      var consumed := output.CountCompleted(written);
      var completes: bool;
      ok, completes := SettleWritten(consumed);
      WriteInParts(before, written, consumed, credit.View(), ok, completes);
      state := Write(before, written);
      Unpack(state);
      if !ok {
        failed := true;
        return;
      }
      initialWritten := initialWritten || completes;
      output.Drop(consumed, written);
    }
  }

  /** What a write of the descriptor returns; none moves more than it was given. */
  datatype Written = Moved(count: nat) | Interrupted | Refused

  lemma FlushIsAStep(sha: Hash, w: Worker, count: nat)
    requires !w.exited && !w.io && count <= Used(w.wire.out)
    ensures Run(sha, w, [Wrote(count)]) == Write(w, count)
    ensures Run(sha, w, [Stopped]) == w.(exited := true)
    ensures Run(sha, w, []) == w
  {
    hide Write, Used;
    assert [Wrote(count)][..0] == [] && [Stopped][..0] == [];
  }

  /** The parts of the state the loops keep in fields. */
  datatype Fields = Fields(
    credit: Credit.Credit, stream: Stream, request: Request, report: Slot, next: Slot,
    initialWritten: bool, failed: bool, out: Queue<Tag>, io: bool, exited: bool)

  ghost function FieldsOf(w: Worker): Fields {
    Fields(w.core.credit, w.core.stream, w.core.request, w.feed.report, w.feed.next,
           w.core.watch.initialWritten, w.core.failed, w.wire.out, w.io, w.exited)
  }

  lemma Unpack(w: Worker)
    ensures var f := FieldsOf(w);
            && w.io == f.io && w.core.failed == f.failed && w.exited == f.exited
            && w.core.credit == f.credit && w.wire.out == f.out
  {
  }

  lemma WriteInParts(w: Worker, written: nat, n: nat, credit: Credit.Credit, ok: bool, completes: bool)
    requires n == Completed(w.wire.out.frames, w.wire.out.gone + written) && !w.exited
    requires (credit, ok) == Credited(w.core.credit, Tags(w.wire.out.frames[..n]))
    requires ok ==> completes == Completing(Tags(w.wire.out.frames[..n]))
    ensures var v, f := FieldsOf(Write(w, written)), FieldsOf(w);
            v == if ok then f.(credit := credit, initialWritten := f.initialWritten || completes,
                               out := Flush(w.wire.out, written))
                 else f.(credit := credit, failed := true, exited := true)
  {
    hide Completing, Credited, Completed, Flush;
  }

  lemma StreamInParts(sha: Hash, w: Worker, line: seq<Byte>)
    requires w.core.stream.Stream? && w.core.stream.offset <= |w.core.stream.body| && Room(w.wire.out, line)
             && !w.exited
    ensures var v, f := FieldsOf(PumpStream(sha, w, line)), FieldsOf(w);
            var s := f.stream;
            var tag := Tag(f.request.deadline, 0, false, StreamContent(sha, f.request.command, s));
            var request := if s.phase == Finishing then f.request.(active := false) else f.request;
            v == if line == [] then f.(failed := true, exited := true)
                 else f.(stream := NextStream(s), request := request, out := Append(f.out, line, tag))
  {
    hide Following, StreamContent, Append, Used;
  }

  lemma ReportInParts(sha: Hash, w: Worker, now: int, line: seq<Byte>)
    requires w.feed.report.Holding? && w.feed.report.offset <= |w.feed.report.payload| && Room(w.wire.out, line)
             && !w.exited
    requires Credit.Available(w.core.credit) > 0 && w.core.credit.issued != Credit.NUMBER_MAX
    ensures now < 0 || line == [] ==>
              FieldsOf(PumpReport(sha, w, now, line)) == FieldsOf(w).(failed := true, exited := true)
    ensures now >= 0 && line != [] ==>
              && Credit.Assign(w.core.credit).1 == Credit.Granted(w.core.credit.issued + 1)
              && FieldsOf(PumpReport(sha, w, now, line)) == FieldsOf(w).(
                   credit := Credit.Assign(w.core.credit).0,
                   report := Pump(sha, w.feed).report, next := Pump(sha, w.feed).next,
                   out := Append(w.wire.out, line, ReportTag(sha, w.feed.report, w.core.credit.issued + 1, now)))
  {
    hide Credit.Available, Pump, Append, Used;
    AvailableMeansAlive(w.core.credit);
  }

  function ReportTag(sha: Hash, r: Slot, number: nat, now: int): Tag
    requires r.Holding? && r.offset <= |r.payload|
  {
    Tag(now + 5000, number, r.phase == Finishing, ReportContent(sha, r))
  }

  lemma AvailableMeansAlive(c: Credit.Credit)
    ensures Credit.Available(c) > 0 ==> !c.failed && c.started
  {
  }

  lemma PumpIsAStep(sha: Hash, w: Worker, line: seq<Byte>)
    requires !w.exited && !w.io && !w.core.failed
    ensures Apply(sha, w, PumpedStream(line)) == PumpStream(sha, w, line)
  {
    hide PumpStream;
  }

  function ReportContent(sha: Hash, r: Slot): Content
    requires r.Holding? && r.offset <= |r.payload|
  {
    if r.phase == Finishing then Reported(r.index) else Shown(r.index, NextPiece(sha, r.payload, r.phase, r.offset))
  }

  lemma ReportIsAStep(sha: Hash, w: Worker, now: int, line: seq<Byte>)
    requires !w.exited && !w.io && !w.core.failed
    ensures Apply(sha, w, PumpedReport(now, line)) == PumpReport(sha, w, now, line)
  {
    hide PumpReport;
  }

  lemma CreditedOneMore(c: Credit.Credit, tags: seq<Tag>, i: nat)
    requires i < |tags|
    ensures var (d, ok) := Credited(c, tags[..i]);
            Credited(c, tags[..i + 1]) ==
              if !ok || tags[i].number == 0 then (d, ok) else Credit.Write(d, tags[i].number)
    ensures Completing(tags[..i + 1]) <==> Completing(tags[..i]) || tags[i].completes
  {
    assert tags[..i + 1][..i] == tags[..i];
    assert tags[..i + 1] == tags[..i] + [tags[i]];
  }

  lemma NothingCompletes(c: Credit.Credit)
    ensures !Completing([]) && Credited(c, []) == (c, true)
  {
  }

  lemma {:induction false} RefusalStays(c: Credit.Credit, tags: seq<Tag>, i: nat)
    requires i <= |tags| && !Credited(c, tags[..i]).1
    ensures Credited(c, tags) == Credited(c, tags[..i])
  {
    if i < |tags| {
      var rest := tags[..|tags| - 1];
      assert rest[..i] == tags[..i];
      RefusalStays(c, rest, i);
    } else {
      assert tags[..i] == tags;
    }
  }

  lemma RunOneMore(sha: Hash, w: Worker, events: seq<Event>, e: Event)
    ensures Run(sha, w, events + [e]) == Apply(sha, Run(sha, w, events), e)
  {
    hide Apply;
    assert (events + [e])[..|events|] == events;
  }
}
