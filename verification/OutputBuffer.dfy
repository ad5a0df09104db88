/** The worker's output in place: one byte array and one array of frame ends (worker.c). */
module OutputBuffer {
  import opened Bytes
  import opened OutputQueue
  import opened Worker
  import Reports

  datatype Entry = Entry(end: int, tag: Tag)

  function End(q: Queue<Tag>, i: nat): int
    requires i < |q.frames|
  {
    |Flatten(q.frames[..i + 1])| - q.gone
  }

  /** Frame ends are strictly increasing, positive and at most `used`. */
  lemma EndsIncrease(q: Queue<Tag>, i: nat)
    requires Wellformed(q) && i < |q.frames|
    ensures 0 < End(q, i) <= Used(q)
    ensures i + 1 < |q.frames| ==> End(q, i) < End(q, i + 1)
    ensures i + 1 == |q.frames| ==> End(q, i) == Used(q)
  {
    hide Flatten;
    FlattenHead(q.frames[..i + 1]);
    FlattenParts(q.frames, i + 1);
    if i + 1 < |q.frames| {
      assert q.frames[..i + 2] == q.frames[..i + 1] + [q.frames[i + 1]];
      FlattenOneMore(q.frames[..i + 1], q.frames[i + 1]);
    } else {
      assert q.frames[..i + 1] == q.frames;
    }
  }

  /** Bytes and entries, as they lie in the arrays, hold exactly the queue. */
  ghost predicate Shape(buffered: seq<Byte>, entries: seq<Entry>, q: Queue<Tag>) {
    && Wellformed(q) && q.gone <= |Flatten(q.frames)|
    && buffered == Buffered(q) && |buffered| <= OUTPUT_MAX
    && |entries| == |q.frames| <= OUTPUT_FRAMES
    && (forall i :: 0 <= i < |entries| ==> entries[i] == Entry(End(q, i), q.frames[i].tag))
  }

  lemma AppendShape(buffered: seq<Byte>, entries: seq<Entry>, q: Queue<Tag>, line: seq<Byte>, tag: Tag)
    requires Shape(buffered, entries, q) && Fits(q, line)
    ensures Shape(buffered + line, entries + [Entry(|buffered| + |line|, tag)], OutputQueue.Append(q, line, tag))
  {
    hide Flatten, Wellformed, End;
    AppendKeepsBytes(q, line, tag);
    AppendKeepsEnds(q, line, tag);
  }

  function Lowered(entries: seq<Entry>, n: nat, written: nat): (r: seq<Entry>)
    requires n <= |entries|
    ensures |r| == |entries| - n
  {
    seq(|entries| - n, i requires 0 <= i < |entries| - n =>
      entries[i + n].(end := entries[i + n].end - written))
  }

  lemma FlushShape(buffered: seq<Byte>, entries: seq<Entry>, q: Queue<Tag>, written: nat)
    requires Shape(buffered, entries, q) && written <= |buffered|
    ensures var n := Completed(q.frames, q.gone + written);
            Shape(buffered[written..], Lowered(entries, n, written), OutputQueue.Flush(q, written))
  {
    hide Flatten, Wellformed, End, Completed;
    FlushMovesBytes(q, written);
    FlushKeepsEnds(q, written);
  }

  class Output {
    const bytes: array<Byte>
    const frames: array<Entry>
    var used: nat
    var count: nat
    ghost var queue: Queue<Tag>

    ghost predicate Valid()
      reads this, bytes, frames
    {
      && bytes.Length == OUTPUT_MAX && frames.Length == OUTPUT_FRAMES
      && used <= OUTPUT_MAX && count <= OUTPUT_FRAMES
      && Shape(bytes[..used], frames[..count], queue)
    }

    constructor ()
      ensures Valid() && fresh(bytes) && fresh(frames) && queue == Queue([], 0)
    {
      bytes := new Byte[OUTPUT_MAX](_ => 0);
      frames := new Entry[OUTPUT_FRAMES](_ => Entry(0, Tag(0, 0, false, Reports.Ready)));
      used, count := 0, 0;
      queue := Queue([], 0);
    }

    method CopyIn(line: seq<Byte>)
      requires used + |line| <= bytes.Length
      modifies bytes
      ensures bytes[..used + |line|] == old(bytes[..used]) + line
    {
      var i := 0;
      while i < |line|
        invariant 0 <= i <= |line|
        invariant bytes[..used + i] == old(bytes[..used]) + line[..i]
      {
        bytes[used + i] := line[i];
        i := i + 1;
      }
      assert line[..|line|] == line;
    }

    /** A frame goes in whole or not at all. */
    method Append(line: seq<Byte>, tag: Tag) returns (ok: bool)
      requires Valid()
      modifies this, bytes, frames
      ensures Valid()
      ensures ok == Fits(old(queue), line)
      ensures queue == if ok then OutputQueue.Append(old(queue), line, tag) else old(queue)
    {
      UsedIsShown();
      hide Shape, Used;
      if |line| == 0 || |line| > OUTPUT_MAX - used || count == OUTPUT_FRAMES { return false; }
      Push(line, tag);
      return true;
    }

    method Push(line: seq<Byte>, tag: Tag)
      requires Valid() && Fits(queue, line) && used + |line| <= OUTPUT_MAX && count < OUTPUT_FRAMES
      modifies this, bytes, frames
      ensures Valid() && queue == OutputQueue.Append(old(queue), line, tag)
    {
      hide Shape, Fits, OutputQueue.Append;
      ghost var entries := frames[..count];
      AppendShape(bytes[..used], entries, queue, line, tag);
      CopyIn(line);
      used := used + |line|;
      frames[count] := Entry(used, tag);
      count := count + 1;
      queue := OutputQueue.Append(queue, line, tag);
      assert frames[..count] == entries + [Entry(used, tag)];
    }

    lemma UsedIsShown()
      requires Valid()
      ensures used == Used(queue) && count == |queue.frames|
    {
      hide Flatten, End;
    }

    lemma EntryTag(i: nat)
      requires Valid() && i < count
      ensures i < |queue.frames| && i < frames.Length && frames[i].tag == queue.frames[i].tag
    {
      hide Flatten, End;
      assert frames[i] == frames[..count][i];
    }

    /** The first loop of `flush_output`: how many frames `written` bytes complete. */
    method CountCompleted(written: nat) returns (consumed: nat)
      requires Valid()
      ensures consumed == Completed(queue.frames, queue.gone + written) <= count
    {
      consumed := 0;
      UsedIsShown();
      hide Valid, Completed;
      while consumed < count && frames[consumed].end <= written
        invariant 0 <= consumed <= count
        invariant consumed <= Completed(queue.frames, queue.gone + written)
      {
        EndDecides(consumed, written);
        consumed := consumed + 1;
      }
      if consumed < count { EndDecides(consumed, written); }
    }

    /** A frame is completed exactly when its recorded end is within the write. */
    lemma EndDecides(i: nat, written: nat)
      requires Valid() && i < count <= frames.Length
      ensures frames[i].end <= written <==> i < Completed(queue.frames, queue.gone + written)
    {
      hide Flatten, Used, Completed;
      assert frames[i] == frames[..count][i];
      CompletedIsExact(queue.frames, queue.gone + written, i + 1);
    }

    /** The second loop: the remaining entries move down and their ends with them. */
    method DropFrames(consumed: nat, written: nat)
      requires consumed <= count <= frames.Length
      modifies frames, this`count
      ensures count == old(count) - consumed && frames[..count] == Lowered(old(frames[..count]), consumed, written)
    {
      var i := consumed;
      while i < count
        invariant consumed <= i <= count == old(count)
        invariant forall j :: i <= j < count ==> frames[j] == old(frames[j])
        invariant forall j :: 0 <= j < i - consumed ==> frames[j] == Lowered(old(frames[..count]), consumed, written)[j]
      {
        frames[i - consumed] := frames[i].(end := frames[i].end - written);
        i := i + 1;
      }
      count := count - consumed;
    }

    /** `memmove`: the unwritten bytes come to the front. */
    method DropBytes(written: nat)
      requires written <= used <= bytes.Length
      modifies bytes, this`used
      ensures used == old(used) - written && bytes[..used] == old(bytes[..used])[written..]
    {
      used := used - written;
      var i := 0;
      while i < used
        invariant 0 <= i <= used == old(used) - written
        invariant forall j :: i + written <= j < bytes.Length ==> bytes[j] == old(bytes[j])
        invariant forall j :: 0 <= j < i ==> bytes[j] == old(bytes[..used])[written..][j]
      {
        bytes[i] := bytes[i + written];
        i := i + 1;
      }
    }

    method DropBoth(consumed: nat, written: nat)
      requires consumed <= count <= frames.Length && written <= used <= bytes.Length
      modifies bytes, frames, this`count, this`used
      ensures count == old(count) - consumed && used == old(used) - written
      ensures frames[..count] == Lowered(old(frames[..count]), consumed, written)
      ensures bytes[..used] == old(bytes[..used])[written..]
    {
      hide Lowered;
      DropFrames(consumed, written);
      DropBytes(written);
    }

    /** The rest of `flush_output`: completed frames and written bytes leave the arrays. */
    method Drop(consumed: nat, written: nat)
      requires Valid() && written <= used
      requires consumed == Completed(queue.frames, queue.gone + written) <= count
      modifies this, bytes, frames
      ensures Valid() && queue == OutputQueue.Flush(old(queue), written)
    {
      hide Shape, Completed, Lowered, OutputQueue.Flush;
      ghost var after, shown, entries := OutputQueue.Flush(queue, written), bytes[..used], frames[..count];
      FlushShape(shown, entries, queue, written);
      DropBoth(consumed, written);
      assert bytes[..used] == shown[written..] && frames[..count] == Lowered(entries, consumed, written);
      queue := after;
    }
  }

  lemma AppendKeepsEnds(q: Queue<Tag>, line: seq<Byte>, tag: Tag)
    requires Wellformed(q) && Fits(q, line)
    ensures var r := OutputQueue.Append(q, line, tag);
            && |r.frames| == |q.frames| + 1
            && (forall i :: 0 <= i < |q.frames| ==> End(r, i) == End(q, i) && r.frames[i] == q.frames[i])
            && End(r, |q.frames|) == Used(r)
  {
    hide Flatten;
    var r := OutputQueue.Append(q, line, tag);
    forall i | 0 <= i < |q.frames| ensures End(r, i) == End(q, i) { assert r.frames[..i + 1] == q.frames[..i + 1]; }
    assert r.frames[..|r.frames|] == r.frames;
  }

  lemma FlushKeepsEnds(q: Queue<Tag>, written: nat)
    requires Wellformed(q) && written <= Used(q)
    ensures var n := Completed(q.frames, q.gone + written);
            var r := OutputQueue.Flush(q, written);
            && r.frames == q.frames[n..]
            && (forall i :: n <= i < |q.frames| ==> End(q, i) > written)
            && (forall i :: 0 <= i < |r.frames| ==> End(r, i) == End(q, i + n) - written)
  {
    hide Flatten, Completed, Wellformed;
    var n := Completed(q.frames, q.gone + written);
    var r := OutputQueue.Flush(q, written);
    FlushStaysWellformed(q, written);
    forall i | n <= i < |q.frames| ensures End(q, i) > written {
      NotCompleted(q, written, i);
    }
    forall i | 0 <= i < |r.frames| ensures End(r, i) == End(q, i + n) - written {
      assert q.frames[..i + n + 1] == q.frames[..n] + r.frames[..i + 1];
      FlattenSplits(q.frames[..n], r.frames[..i + 1]);
    }
  }

  lemma NotCompleted(q: Queue<Tag>, written: nat, i: nat)
    requires Wellformed(q) && Completed(q.frames, q.gone + written) <= i < |q.frames|
    ensures End(q, i) > written
  {
    hide Flatten, Completed;
    CompletedIsExact(q.frames, q.gone + written, i + 1);
  }
}
