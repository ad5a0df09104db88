/** The worker's output buffer: frames appended whole, bytes written in any amounts (worker.c). */
module OutputQueue {
  import opened Bytes

  const OUTPUT_MAX: nat := 524288
  const OUTPUT_FRAMES: nat := 128

  datatype Frame<+T> = Frame(bytes: seq<Byte>, tag: T)

  /** Frames not yet completely written; `gone` bytes of the first have left already. */
  datatype Queue<+T> = Queue(frames: seq<Frame<T>>, gone: nat)

  function Flatten<T>(frames: seq<Frame<T>>): seq<Byte> {
    if frames == [] then [] else Flatten(frames[..|frames| - 1]) + frames[|frames| - 1].bytes
  }

  lemma {:induction false} FlattenSplits<T>(first: seq<Frame<T>>, second: seq<Frame<T>>)
    ensures Flatten(first + second) == Flatten(first) + Flatten(second)
  {
    if second == [] {
      assert first + second == first;
    } else {
      var rest, last := second[..|second| - 1], second[|second| - 1];
      FlattenSplits(first, rest);
      var all := first + second;
      assert all[..|all| - 1] == first + rest && all[|all| - 1] == last;
      assert Flatten(all) == Flatten(first + rest) + last.bytes && Flatten(second) == Flatten(rest) + last.bytes;
      hide Flatten;
      Regroup(Flatten(first), Flatten(rest), last.bytes);
    }
  }

  lemma FlattenHead<T>(frames: seq<Frame<T>>)
    requires frames != []
    ensures Flatten(frames) == frames[0].bytes + Flatten(frames[1..])
  {
    var head := [frames[0]];
    assert Flatten(head) == frames[0].bytes by { assert head[..0] == []; }
    assert frames == head + frames[1..];
    FlattenSplits(head, frames[1..]);
  }

  ghost predicate Wellformed<T>(q: Queue<T>) {
    && (forall f :: f in q.frames ==> f.bytes != [])
    && (if q.frames == [] then q.gone == 0 else q.gone < |q.frames[0].bytes|)
  }

  lemma GoneIsInside<T>(q: Queue<T>)
    requires Wellformed(q)
    ensures q.gone <= |Flatten(q.frames)|
  {
    if q.frames != [] { FlattenHead(q.frames); }
  }

  function Used<T>(q: Queue<T>): int { |Flatten(q.frames)| - q.gone }

  /** The bytes still in the buffer. */
  function Buffered<T>(q: Queue<T>): seq<Byte>
    requires q.gone <= |Flatten(q.frames)|
  {
    Flatten(q.frames)[q.gone..]
  }

  predicate Fits<T>(q: Queue<T>, line: seq<Byte>) {
    0 < |line| <= OUTPUT_MAX - Used(q) && |q.frames| < OUTPUT_FRAMES
  }

  /** `append`. */
  function Append<T>(q: Queue<T>, line: seq<Byte>, tag: T): Queue<T> {
    q.(frames := q.frames + [Frame(line, tag)])
  }

  /** How many frames a write of `count` more bytes completes. */
  function Completed<T>(frames: seq<Frame<T>>, count: nat): (n: nat)
    ensures n <= |frames|
  {
    if frames == [] || |frames[0].bytes| > count then 0
    else 1 + Completed(frames[1..], count - |frames[0].bytes|)
  }

  /** `flush_output` after a write of `count` bytes. */
  function Flush<T>(q: Queue<T>, count: nat): Queue<T> {
    var n := Completed(q.frames, q.gone + count);
    Queue(q.frames[n..], q.gone + count - Min(|Flatten(q.frames[..n])|, q.gone + count))
  }

  function Min(a: nat, b: nat): nat { if a < b then a else b }

  /** A frame is completed exactly when its last byte is within the bytes written. */
  lemma {:induction false} CompletedIsExact<T>(frames: seq<Frame<T>>, count: nat, k: nat)
    requires k <= |frames|
    requires forall f :: f in frames ==> f.bytes != []
    ensures k <= Completed(frames, count) <==> |Flatten(frames[..k])| <= count
  {
    if k > 0 {
      FlattenHead(frames[..k]);
      assert frames[..k][1..] == frames[1..][..k - 1];
      if |frames[0].bytes| <= count {
        CompletedIsExact(frames[1..], count - |frames[0].bytes|, k - 1);
      }
    }
  }

  /**
   A write moves exactly the bytes it wrote from the buffer to the wire: bytes written followed
   by bytes buffered never change, and the queue stays well formed.
   */
  lemma FlushMovesBytes<T>(q: Queue<T>, count: nat)
    requires Wellformed(q) && count <= Used(q)
    ensures var r := Flush(q, count);
            && Wellformed(r) && r.gone <= |Flatten(r.frames)|
            && q.gone <= |Flatten(q.frames)|
            && Buffered(q) == Buffered(q)[..count] + Buffered(r)
            && Used(r) == Used(q) - count
  {
    hide Flatten, Completed;
    GoneIsInside(q);
    var n := Completed(q.frames, q.gone + count);
    FlushStaysWellformed(q, count);
    FlattenParts(q.frames, n);
    var r := Flush(q, count);
    GoneIsInside(r);
    DropPrefix(Flatten(q.frames[..n]), Flatten(r.frames), r.gone);
    DropTwice(Flatten(q.frames), q.gone, count);
  }

  lemma FlushStaysWellformed<T>(q: Queue<T>, count: nat)
    requires Wellformed(q) && count <= Used(q)
    ensures Wellformed(Flush(q, count))
    ensures var n := Completed(q.frames, q.gone + count);
            Flush(q, count).gone == q.gone + count - |Flatten(q.frames[..n])|
  {
    hide Flatten, Completed;
    var n := Completed(q.frames, q.gone + count);
    CompletedIsExact(q.frames, q.gone + count, n);
    if n < |q.frames| {
      CompletedIsExact(q.frames, q.gone + count, n + 1);
      assert q.frames[..n + 1] == q.frames[..n] + [q.frames[n]];
      FlattenOneMore(q.frames[..n], q.frames[n]);
    } else {
      assert q.frames[..n] == q.frames;
    }
  }

  lemma FlattenParts<T>(frames: seq<Frame<T>>, n: nat)
    requires n <= |frames|
    ensures Flatten(frames) == Flatten(frames[..n]) + Flatten(frames[n..])
  {
    assert frames == frames[..n] + frames[n..];
    FlattenSplits(frames[..n], frames[n..]);
  }

  lemma FlattenOneMore<T>(frames: seq<Frame<T>>, frame: Frame<T>)
    ensures Flatten(frames + [frame]) == Flatten(frames) + frame.bytes
  {
    assert (frames + [frame])[..|frames|] == frames;
  }

  lemma DropPrefix<T>(first: seq<T>, second: seq<T>, n: nat)
    requires n <= |second|
    ensures (first + second)[|first| + n..] == second[n..]
  {
  }

  lemma DropTwice<T>(s: seq<T>, n: nat, more: nat)
    requires n + more <= |s|
    ensures s[n..] == s[n..][..more] + s[n + more..]
  {
  }

  lemma AppendKeepsBytes<T>(q: Queue<T>, line: seq<Byte>, tag: T)
    requires Wellformed(q) && Fits(q, line)
    ensures var r := Append(q, line, tag);
            && Wellformed(r) && r.gone <= |Flatten(r.frames)|
            && q.gone <= |Flatten(q.frames)|
            && Buffered(r) == Buffered(q) + line
            && Used(r) == Used(q) + |line| <= OUTPUT_MAX
  {
    GoneIsInside(q);
    assert Append(q, line, tag).frames[..|q.frames|] == q.frames;
  }

  // ----- any interleaving of appends and writes

  datatype Action<+T> = Appending(line: seq<Byte>, tag: T) | Writing(count: nat)

  /** Queue, everything appended and everything on the wire. */
  datatype Pipe<+T> = Pipe(queue: Queue<T>, appended: seq<Frame<T>>, wire: seq<Byte>)

  function Act<T>(p: Pipe<T>, a: Action<T>): Pipe<T> {
    match a
    case Appending(line, tag) =>
      if Fits(p.queue, line)
      then Pipe(Append(p.queue, line, tag), p.appended + [Frame(line, tag)], p.wire)
      else p
    case Writing(count) =>
      if p.queue.gone <= |Flatten(p.queue.frames)| && count <= Used(p.queue)
      then p.(queue := Flush(p.queue, count), wire := p.wire + Buffered(p.queue)[..count])
      else p
  }

  function ActAll<T>(actions: seq<Action<T>>): Pipe<T> {
    if actions == [] then Pipe(Queue([], 0), [], [])
    else Act(ActAll(actions[..|actions| - 1]), actions[|actions| - 1])
  }

  /** Completed frames are those no longer queued; a write completes a frame with its last byte. */
  ghost predicate PipeInv<T>(p: Pipe<T>) {
    && Wellformed(p.queue)
    && p.queue.gone <= |Flatten(p.queue.frames)|
    && Used(p.queue) <= OUTPUT_MAX
    && |p.queue.frames| <= OUTPUT_FRAMES
    && |p.queue.frames| <= |p.appended|
    && p.appended[|p.appended| - |p.queue.frames|..] == p.queue.frames
    && p.wire + Buffered(p.queue) == Flatten(p.appended)
    && |p.wire| == |Flatten(p.appended[..|p.appended| - |p.queue.frames|])| + p.queue.gone
  }

  lemma AppendingKeepsInv<T>(p: Pipe<T>, line: seq<Byte>, tag: T)
    requires PipeInv(p)
    ensures PipeInv(Act(p, Appending(line, tag)))
  {
    hide Flatten;
    var q := Act(p, Appending(line, tag));
    if Fits(p.queue, line) {
      var frame := Frame(line, tag);
      AppendKeepsBytes(p.queue, line, tag);
      FlattenOneMore(p.appended, frame);
      var sent := |p.appended| - |p.queue.frames|;
      assert q.appended[..sent] == p.appended[..sent];
      assert q.appended[sent..] == p.appended[sent..] + [frame];
    }
  }

  lemma TailOfTail<T>(s: seq<T>, n: nat, more: nat)
    requires n + more <= |s|
    ensures s[n + more..] == s[n..][more..]
    ensures s[..n + more] == s[..n] + s[n..][..more]
  {
  }

  lemma WritingKeepsInv<T>(p: Pipe<T>, count: nat)
    requires PipeInv(p)
    ensures PipeInv(Act(p, Writing(count)))
  {
    hide Flatten, Completed, Wellformed, Used;
    if count <= Used(p.queue) {
      FlushMovesBytes(p.queue, count);
      FlushedFrames(p.queue, count);
      hide Flush;
      var q, r := p.queue, Flush(p.queue, count);
      var n, sent := |q.frames| - |r.frames|, |p.appended| - |q.frames|;
      TailOfTail(p.appended, sent, n);
      FlattenSplits(p.appended[..sent], q.frames[..n]);
      Regroup(p.wire, Buffered(q)[..count], Buffered(r));
    }
  }

  lemma Regroup<T>(a: seq<T>, b: seq<T>, c: seq<T>)
    ensures a + b + c == a + (b + c)
  {
  }

  lemma FlushedFrames<T>(q: Queue<T>, count: nat)
    requires Wellformed(q) && count <= Used(q)
    ensures var r := Flush(q, count);
            var n := |q.frames| - |r.frames|;
            && |r.frames| <= |q.frames| && r.frames == q.frames[n..]
            && r.gone == q.gone + count - |Flatten(q.frames[..n])|
    ensures q.gone <= |Flatten(q.frames)| && count <= |Buffered(q)|
  {
    hide Flatten, Completed;
    GoneIsInside(q);
    FlushStaysWellformed(q, count);
  }

  lemma {:induction false} ActAllKeepsInv<T>(actions: seq<Action<T>>)
    ensures PipeInv(ActAll(actions))
  {
    hide PipeInv, Act;
    if actions == [] {
      NothingPiped<T>();
    } else {
      var rest := actions[..|actions| - 1];
      ActAllKeepsInv(rest);
      match actions[|actions| - 1]
      case Appending(line, tag) => AppendingKeepsInv(ActAll(rest), line, tag);
      case Writing(count) => WritingKeepsInv(ActAll(rest), count);
    }
  }

  lemma NothingPiped<T>()
    ensures PipeInv<T>(Pipe(Queue([], 0), [], []))
  {
  }

  /** The frames counted as sent are exactly those all of whose bytes are on the wire. */
  lemma SentIsExact<T>(p: Pipe<T>, k: nat)
    requires PipeInv(p) && k <= |p.appended|
    ensures k <= |p.appended| - |p.queue.frames| <==> |Flatten(p.appended[..k])| <= |p.wire|
  {
    hide Flatten;
    var sent := |p.appended| - |p.queue.frames|;
    if k <= sent {
      FlattenParts(p.appended[..sent], k);
      assert p.appended[..sent][..k] == p.appended[..k];
    } else {
      TailOfTail(p.appended, sent, k - sent);
      FlattenSplits(p.appended[..sent], p.queue.frames[..k - sent]);
      FlattenHead(p.queue.frames[..k - sent]);
    }
  }

  /**
   For any interleaving of appends and partial writes, the wire and the buffer together hold the
   appended frames in order, whole; and the frames counted as sent are exactly those all of whose
   bytes are on the wire.
   */
  lemma WireThenBufferIsEverythingAppended<T>(actions: seq<Action<T>>, k: nat)
    requires k <= |ActAll(actions).appended|
    ensures var p := ActAll(actions);
            && PipeInv(p)
            && p.wire + Buffered(p.queue) == Flatten(p.appended)
            && (k <= |p.appended| - |p.queue.frames| <==> |Flatten(p.appended[..k])| <= |p.wire|)
  {
    hide Flatten, ActAll;
    ActAllKeepsInv(actions);
    SentIsExact(ActAll(actions), k);
  }
}
