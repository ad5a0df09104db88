/**
 The two report slots of an observation: the report being sent and, for properties, the newest one
 behind it (worker.c). A report body over 32768 bytes is sent in pieces before its result frame.
 */
module Reports {
  import opened Bytes
  import opened Registry
  import Body

  /** What one frame of a body or of a report says. */
  datatype Content =
    | Ready
    | Answer(command: nat, ok: bool)
    | Streamed(command: nat, piece: Body.Piece)
    | Shown(report: nat, piece: Body.Piece)
    | Reported(report: nat)
    | Ended

  datatype Phase = Beginning | Slicing | Ending | Finishing

  datatype Slot = Empty | Holding(index: nat, payload: seq<Byte>, phase: Phase, offset: nat, started: bool)

  datatype Delivered = Delivered(index: nat, payload: seq<Byte>)

  /**
   The slots, and beside them the history: every payload admitted, the reports whose result frame
   was emitted, and the frames emitted for the report under way. `cut` is the report a terminal
   error or a cancellation interrupted.
   */
  datatype Feed = Feed(
    report: Slot, next: Slot,
    event: bool, admitted: seq<seq<Byte>>, delivered: seq<Delivered>, partial: seq<Content>, closed: bool, cut: Slot)

  const QUIET: Feed := Feed(Empty, Empty, false, [], [], [], false, Empty)

  /** `prepare_report`: small payloads travel inside the result frame. */
  function Prepare(index: nat, payload: seq<Byte>): Slot {
    Holding(index, payload, if |payload| > 32768 then Beginning else Finishing, 0, false)
  }

  /** `move_report` into the slot the state calls for; an event observation never reaches here while busy. */
  function Store(f: Feed, payload: seq<Byte>): Feed {
    var g := f.(admitted := f.admitted + [payload]);
    if f.report.Holding? && f.report.started
    then g.(next := Prepare(|f.admitted|, payload))
    else g.(report := Prepare(|f.admitted|, payload))
  }

  function Discard(f: Feed): Feed {
    f.(report := Empty, next := Empty, closed := true, cut := if f.closed then f.cut else f.report)
  }

  /** An event report admitted while another is under way ends the observation. */
  function Overlap(f: Feed, payload: seq<Byte>): Feed {
    Discard(f.(admitted := f.admitted + [payload]))
  }

  function Show(index: nat, pieces: seq<Body.Piece>): (contents: seq<Content>)
    ensures |contents| == |pieces|
    ensures forall k :: 0 <= k < |pieces| ==> contents[k] == Shown(index, pieces[k])
  {
    seq(|pieces|, k requires 0 <= k < |pieces| => Shown(index, pieces[k]))
  }

  /** All the frames of one report. */
  function Frames(sha: Hash, index: nat, payload: seq<Byte>): seq<Content> {
    (if |payload| > 32768 then Show(index, Body.Transfer(sha, payload)) else []) + [Reported(index)]
  }

  /** The piece `report_stream_line` sends next. */
  function NextPiece(sha: Hash, payload: seq<Byte>, phase: Phase, offset: nat): Body.Piece
    requires offset <= |payload|
  {
    match phase
    case Beginning => Body.Opening(|payload|, sha(payload))
    case Slicing => Body.Slice(offset, payload[offset..offset + Body.Min(32768, |payload| - offset)])
    case _ => Body.Closing
  }

  /** Where a body stands after that piece. */
  function Following(payload: seq<Byte>, phase: Phase, offset: nat): (Phase, nat)
    requires offset <= |payload|
  {
    match phase
    case Beginning => (Slicing, offset)
    case Slicing =>
      var size := Body.Min(32768, |payload| - offset);
      (if offset + size == |payload| then Ending else Slicing, offset + size)
    case _ => (Finishing, offset)
  }

  /** The pieces still to come. */
  function Outstanding(sha: Hash, payload: seq<Byte>, phase: Phase, offset: nat): seq<Body.Piece>
    requires offset <= |payload|
  {
    match phase
    case Beginning => Body.Transfer(sha, payload)
    case Slicing => Body.Slices(payload, offset) + [Body.Closing]
    case Ending => [Body.Closing]
    case Finishing => []
  }

  predicate Standing(payload: seq<Byte>, phase: Phase, offset: nat) {
    && offset <= |payload|
    && (phase == Beginning ==> offset == 0)
    && (phase != Finishing ==> |payload| > 32768)
    && (phase == Slicing ==> offset < |payload|)
  }

  /** Each piece sent is the first of those outstanding, and leaves the rest. */
  lemma PieceByPiece(sha: Hash, payload: seq<Byte>, phase: Phase, offset: nat)
    requires Standing(payload, phase, offset) && phase != Finishing
    ensures var (p, o) := Following(payload, phase, offset);
            && Standing(payload, p, o)
            && Outstanding(sha, payload, phase, offset)
            == [NextPiece(sha, payload, phase, offset)] + Outstanding(sha, payload, p, o)
  {
    var (p, o) := Following(payload, phase, offset);
    if phase == Beginning {
      assert Body.Transfer(sha, payload) == [Body.Opening(|payload|, sha(payload))]
        + (Body.Slices(payload, 0) + [Body.Closing]);
    } else if phase == Slicing && o == |payload| {
      assert Body.Slices(payload, o) == [];
    }
  }

  /** One `pump_report`: the content emitted and the slots after it. */
  function Emitted(sha: Hash, f: Feed): Content
    requires f.report.Holding? && f.report.offset <= |f.report.payload|
  {
    var r := f.report;
    if r.phase == Finishing then Reported(r.index) else Shown(r.index, NextPiece(sha, r.payload, r.phase, r.offset))
  }

  function Pump(sha: Hash, f: Feed): Feed
    requires f.report.Holding? && f.report.offset <= |f.report.payload|
  {
    var r := f.report;
    if r.phase == Finishing then
      f.(report := f.next, next := Empty, delivered := f.delivered + [Delivered(r.index, r.payload)], partial := [])
    else
      var (phase, offset) := Following(r.payload, r.phase, r.offset);
      f.(report := r.(phase := phase, offset := offset, started := true), partial := f.partial + [Emitted(sha, f)])
  }

  function Remaining(sha: Hash, r: Slot): seq<Content>
    requires r.Holding? ==> r.offset <= |r.payload|
  {
    if r.Empty? then [] else Show(r.index, Outstanding(sha, r.payload, r.phase, r.offset)) + [Reported(r.index)]
  }

  function Flat(sha: Hash, delivered: seq<Delivered>): seq<Content> {
    if delivered == [] then []
    else
      var last := delivered[|delivered| - 1];
      Flat(sha, delivered[..|delivered| - 1]) + Frames(sha, last.index, last.payload)
  }

  // ----- what every operation keeps

  predicate Kept(f: Feed, s: Slot) {
    s.Holding? ==> s.index < |f.admitted| && f.admitted[s.index] == s.payload && Standing(s.payload, s.phase, s.offset)
  }

  function Current(f: Feed): Slot { if f.closed then f.cut else f.report }

  ghost predicate SlotsInv(sha: Hash, f: Feed) {
    && Kept(f, f.report) && Kept(f, f.next) && Kept(f, f.cut)
    && (f.next.Holding? ==> f.report.Holding? && f.report.started && f.report.index < f.next.index
                            && f.next == Prepare(f.next.index, f.next.payload))
    && (f.report.Holding? && !f.report.started ==> f.report == Prepare(f.report.index, f.report.payload))
    && (f.closed ==> f.report.Empty? && f.next.Empty?)
  }

  /** The frames emitted for the report under way, with those it still owes, are that report's frames. */
  ghost predicate WholeInv(sha: Hash, f: Feed)
    requires SlotsInv(sha, f)
  {
    var s := Current(f);
    if s.Empty? then f.partial == [] else
      && f.partial + Remaining(sha, s) == Frames(sha, s.index, s.payload)
      && (!s.started ==> f.partial == [])
  }

  /** Delivered reports are admitted ones in admission order, all before the one under way. */
  ghost predicate OrderInv(f: Feed) {
    && (forall i :: 0 <= i < |f.delivered| ==>
          f.delivered[i].index < |f.admitted| && f.admitted[f.delivered[i].index] == f.delivered[i].payload)
    && (forall i, j :: 0 <= i < j < |f.delivered| ==> f.delivered[i].index < f.delivered[j].index)
    && (Current(f).Holding? ==> forall i :: 0 <= i < |f.delivered| ==> f.delivered[i].index < Current(f).index)
  }

  /** While the observation lives, the newest admitted report is held or was the last one delivered. */
  ghost predicate NewestInv(f: Feed) {
    !f.closed && f.admitted != [] ==>
      if f.next.Holding? then f.next.index == |f.admitted| - 1
      else if f.report.Holding? then f.report.index == |f.admitted| - 1
      else f.delivered != [] && f.delivered[|f.delivered| - 1].index == |f.admitted| - 1
  }

  /** Event observations: no report is skipped. */
  ghost predicate GaplessInv(f: Feed) {
    f.event ==>
      && (forall i :: 0 <= i < |f.delivered| ==> f.delivered[i].index == i)
      && (Current(f).Holding? ==> Current(f).index == |f.delivered|)
      && f.next.Empty?
      && (!f.closed ==> |f.admitted| == |f.delivered| + (if f.report.Holding? then 1 else 0))
  }

  ghost predicate FeedInv(sha: Hash, f: Feed) {
    && SlotsInv(sha, f) && WholeInv(sha, f) && OrderInv(f) && NewestInv(f) && GaplessInv(f)
  }

  lemma StoreKeepsInv(sha: Hash, f: Feed, payload: seq<Byte>)
    requires FeedInv(sha, f) && !f.closed && (f.event ==> f.report.Empty?)
    ensures FeedInv(sha, Store(f, payload))
  {
    StoreKeepsSlots(sha, f, payload);
    StoreKeepsWhole(sha, f, payload);
    StoreKeepsOrder(sha, f, payload);
    hide SlotsInv, WholeInv, OrderInv, NewestInv, GaplessInv, Store;
  }

  lemma StoreKeepsSlots(sha: Hash, f: Feed, payload: seq<Byte>)
    requires SlotsInv(sha, f) && !f.closed
    ensures SlotsInv(sha, Store(f, payload))
  {
    var g := Store(f, payload);
    assert forall i :: 0 <= i < |f.admitted| ==> g.admitted[i] == f.admitted[i];
  }

  lemma StoreKeepsWhole(sha: Hash, f: Feed, payload: seq<Byte>)
    requires SlotsInv(sha, f) && WholeInv(sha, f) && !f.closed && SlotsInv(sha, Store(f, payload))
    ensures WholeInv(sha, Store(f, payload))
  {
    hide Frames, Remaining, SlotsInv;
    if !(f.report.Holding? && f.report.started) {
      PreparedOwesAll(sha, |f.admitted|, payload);
      var owed := Remaining(sha, Prepare(|f.admitted|, payload));
      assert f.partial == [] && [] + owed == owed;
    }
  }

  /** A report not begun still owes all its frames. */
  lemma PreparedOwesAll(sha: Hash, index: nat, payload: seq<Byte>)
    ensures Remaining(sha, Prepare(index, payload)) == Frames(sha, index, payload)
  {
    hide Body.Transfer, Body.Slices;
  }

  lemma StoreKeepsOrder(sha: Hash, f: Feed, payload: seq<Byte>)
    requires SlotsInv(sha, f) && OrderInv(f) && NewestInv(f) && GaplessInv(f)
    requires !f.closed && (f.event ==> f.report.Empty?)
    ensures var g := Store(f, payload); OrderInv(g) && NewestInv(g) && GaplessInv(g)
  {
    hide Standing;
    var g := Store(f, payload);
    assert forall i :: 0 <= i < |f.admitted| ==> g.admitted[i] == f.admitted[i];
  }

  lemma DiscardKeepsInv(sha: Hash, f: Feed)
    requires FeedInv(sha, f)
    ensures FeedInv(sha, Discard(f))
  {
    hide Body.Transfer, Body.Slices, Frames, Remaining;
  }

  lemma OverlapKeepsInv(sha: Hash, f: Feed, payload: seq<Byte>)
    requires FeedInv(sha, f)
    ensures FeedInv(sha, Overlap(f, payload))
  {
    hide Frames, Remaining, Standing;
    var g := f.(admitted := f.admitted + [payload]);
    assert forall i :: 0 <= i < |f.admitted| ==> g.admitted[i] == f.admitted[i];
  }

  lemma FlatOneMore(sha: Hash, delivered: seq<Delivered>, d: Delivered)
    ensures Flat(sha, delivered + [d]) == Flat(sha, delivered) + Frames(sha, d.index, d.payload)
  {
    assert (delivered + [d])[..|delivered|] == delivered;
  }

  /** A pump emits the next frame owed: the frames of delivered reports followed by those under way grow by it. */
  lemma PumpEmitsInOrder(sha: Hash, f: Feed)
    requires SlotsInv(sha, f) && WholeInv(sha, f) && f.report.Holding?
    ensures var g := Pump(sha, f);
            && SlotsInv(sha, g) && WholeInv(sha, g)
            && Flat(sha, g.delivered) + g.partial == Flat(sha, f.delivered) + f.partial + [Emitted(sha, f)]
  {
    if f.report.phase == Finishing { LastFrame(sha, f); } else { OneFrame(sha, f); }
  }

  lemma LastFrame(sha: Hash, f: Feed)
    requires SlotsInv(sha, f) && WholeInv(sha, f) && f.report.Holding? && f.report.phase == Finishing
    ensures var g := Pump(sha, f);
            && SlotsInv(sha, g) && WholeInv(sha, g)
            && Flat(sha, g.delivered) + g.partial == Flat(sha, f.delivered) + f.partial + [Emitted(sha, f)]
  {
    hide Body.Transfer, Body.Slices, NextPiece, Flat, Following;
    var r, g := f.report, Pump(sha, f);
    FlatOneMore(sha, f.delivered, Delivered(r.index, r.payload));
    assert Remaining(sha, r) == [Reported(r.index)];
    if g.report.Holding? {
      assert g.partial + Remaining(sha, g.report) == Frames(sha, g.report.index, g.report.payload);
    }
  }

  lemma OneFrame(sha: Hash, f: Feed)
    requires SlotsInv(sha, f) && WholeInv(sha, f) && f.report.Holding? && f.report.phase != Finishing
    ensures var g := Pump(sha, f);
            && SlotsInv(sha, g) && WholeInv(sha, g)
            && Flat(sha, g.delivered) + g.partial == Flat(sha, f.delivered) + f.partial + [Emitted(sha, f)]
  {
    hide Body.Transfer, Body.Slices, NextPiece, Flat, Frames, Outstanding, Following;
    var r, g := f.report, Pump(sha, f);
    PieceByPiece(sha, r.payload, r.phase, r.offset);
    var (p, o) := Following(r.payload, r.phase, r.offset);
    ShowSplits(r.index, [NextPiece(sha, r.payload, r.phase, r.offset)], Outstanding(sha, r.payload, p, o));
    assert Remaining(sha, r) == [Emitted(sha, f)] + Remaining(sha, g.report);
    assert f.partial + Remaining(sha, r) == g.partial + Remaining(sha, g.report);
  }

  lemma ShowSplits(index: nat, first: seq<Body.Piece>, second: seq<Body.Piece>)
    ensures Show(index, first + second) == Show(index, first) + Show(index, second)
  {
  }

  lemma PumpKeepsInv(sha: Hash, f: Feed)
    requires FeedInv(sha, f) && f.report.Holding?
    ensures FeedInv(sha, Pump(sha, f))
  {
    hide SlotsInv, WholeInv, Flat, Frames, Remaining, NextPiece, Following, Emitted;
    PumpEmitsInOrder(sha, f);
    PumpKeepsOrder(sha, f);
  }

  lemma PumpKeepsOrder(sha: Hash, f: Feed)
    requires FeedInv(sha, f) && f.report.Holding?
    ensures var g := Pump(sha, f); OrderInv(g) && NewestInv(g) && GaplessInv(g)
  {
    hide WholeInv, Flat, Frames, Remaining, NextPiece, Following, Emitted;
  }

  /** For a body over 32768 bytes the frames are a begin, the chunks and an end that the upload acceptor takes. */
  lemma LargeReportsAreAcceptedUploads(sha: Hash, index: nat, payload: seq<Byte>, id: string)
    requires 32768 < |payload| <= Body.BODY_MAX && Body.Identifier(id)
    ensures var pieces := Body.Transfer(sha, payload);
            && Frames(sha, index, payload) == Show(index, pieces) + [Reported(index)]
            && |pieces| == 2 + (|payload| + 32767) / 32768
            && Body.Exposed(Body.AcceptAll(sha, Body.IDLE, Body.AsEvents(id, pieces))) == Some(payload)
  {
    hide Body.AcceptAll, Body.AsEvents;
    Body.TransferIsAccepted(sha, id, payload);
  }
}
