/** Lines out of arbitrary byte blocks (frame.c). The consumer of a line is any function over its own state. */
module Framing {
  import opened Bytes

  const FRAME_MAX: nat := 131072
  const NEWLINE: Byte := 10

  type Consumer<!C> = (C, seq<Byte>) -> (C, bool)

  /** The partial line, its high-water mark, whether input is closed, and the consumer with all it was given. */
  datatype Framer<C> = Framer(line: seq<Byte>, peak: nat, failed: bool, consumer: C, lines: seq<seq<Byte>>)

  function Fail<C>(f: Framer<C>): Framer<C> { f.(line := [], failed := true) }

  function Higher(a: nat, b: nat): nat { if a > b then a else b }

  /** A complete line goes to the consumer, whose refusal closes input. */
  function Deliver<C>(f: Framer<C>, consume: Consumer<C>): Framer<C> {
    var (c, accepted) := consume(f.consumer, f.line);
    var g := f.(consumer := c, lines := f.lines + [f.line], line := []);
    if accepted then g else Fail(g)
  }

  /** The reference: one byte at a time. */
  function Push<C>(f: Framer<C>, consume: Consumer<C>, byte: Byte): Framer<C> {
    if f.failed then f
    else if |f.line| >= FRAME_MAX then Fail(f.(peak := FRAME_MAX))
    else
      var g := f.(line := f.line + [byte], peak := Higher(f.peak, |f.line| + 1));
      if byte == NEWLINE then Deliver(g, consume) else g
  }

  function PushAll<C>(f: Framer<C>, consume: Consumer<C>, bytes: seq<Byte>): Framer<C>
    decreases |bytes|
  {
    if bytes == [] then f else PushAll(Push(f, consume, bytes[0]), consume, bytes[1..])
  }

  /** `memchr`: where the first newline is, or the length. */
  function FirstNewline(bytes: seq<Byte>): (n: nat)
    ensures n <= |bytes|
    ensures forall i :: 0 <= i < n ==> bytes[i] != NEWLINE
    ensures n < |bytes| ==> bytes[n] == NEWLINE
  {
    if bytes == [] || bytes[0] == NEWLINE then 0 else 1 + FirstNewline(bytes[1..])
  }

  /** How many bytes one turn of the loop copies: up to and including a newline, or all. */
  function Stretch(bytes: seq<Byte>): (count: nat)
    ensures count <= |bytes| && (bytes != [] ==> count > 0)
  {
    if FirstNewline(bytes) < |bytes| then FirstNewline(bytes) + 1 else |bytes|
  }

  function FeedOnce<C>(f: Framer<C>, consume: Consumer<C>, bytes: seq<Byte>): Framer<C> {
    var count := Stretch(bytes);
    if |f.line| + count > FRAME_MAX then Fail(f.(peak := FRAME_MAX))
    else
      var g := f.(line := f.line + bytes[..count], peak := Higher(f.peak, |f.line| + count));
      if FirstNewline(bytes) < |bytes| then Deliver(g, consume) else g
  }

  /** `wco_frame_feed`: whole stretches up to a newline are copied at once. */
  function Feed<C>(f: Framer<C>, consume: Consumer<C>, bytes: seq<Byte>): Framer<C>
    decreases |bytes|
  {
    if f.failed || bytes == [] then f
    else Feed(FeedOnce(f, consume, bytes), consume, bytes[Stretch(bytes)..])
  }

  /** Even a clean end closes input for good. */
  function Eof<C>(f: Framer<C>): (Framer<C>, bool) {
    if f.failed then (f, false) else (Fail(f), f.line == [])
  }

  ghost predicate Bounded<C(!new)>(f: Framer<C>) { |f.line| <= f.peak <= FRAME_MAX }

  lemma {:induction false} FailedPushesNothing<C>(f: Framer<C>, consume: Consumer<C>, bytes: seq<Byte>)
    requires f.failed
    ensures PushAll(f, consume, bytes) == f
  {
    if bytes != [] { FailedPushesNothing(f, consume, bytes[1..]); }
  }

  /** A stretch without a newline that fits is simply appended. */
  lemma {:induction false} PushStretch<C(!new)>(f: Framer<C>, consume: Consumer<C>, stretch: seq<Byte>, rest: seq<Byte>)
    requires !f.failed && Bounded(f) && |f.line| + |stretch| <= FRAME_MAX
    requires forall i :: 0 <= i < |stretch| ==> stretch[i] != NEWLINE
    ensures PushAll(f, consume, stretch + rest)
         == PushAll(f.(line := f.line + stretch, peak := Higher(f.peak, |f.line| + |stretch|)), consume, rest)
    decreases |stretch|
  {
    if stretch == [] {
      assert stretch + rest == rest && f.line + stretch == f.line;
    } else {
      var g := Push(f, consume, stretch[0]);
      assert (stretch + rest)[1..] == stretch[1..] + rest;
      PushStretch(g, consume, stretch[1..], rest);
      assert f.line + [stretch[0]] + stretch[1..] == f.line + stretch;
    }
  }

  /** One byte past the bound closes input, whatever it is. */
  lemma PushOverflow<C(!new)>(f: Framer<C>, consume: Consumer<C>, stretch: seq<Byte>)
    requires !f.failed && Bounded(f) && |f.line| + |stretch| > FRAME_MAX
    requires forall i :: 0 <= i < |stretch| - 1 ==> stretch[i] != NEWLINE
    ensures PushAll(f, consume, stretch) == Fail(f.(peak := FRAME_MAX))
  {
    var room := FRAME_MAX - |f.line|;
    assert stretch == stretch[..room] + stretch[room..];
    PushStretch(f, consume, stretch[..room], stretch[room..]);
    var full := f.(line := f.line + stretch[..room], peak := Higher(f.peak, FRAME_MAX));
    assert Push(full, consume, stretch[room]) == Fail(f.(peak := FRAME_MAX));
    FailedPushesNothing(Fail(f.(peak := FRAME_MAX)), consume, stretch[room..][1..]);
  }

  lemma {:induction false} PushSplits<C>(f: Framer<C>, consume: Consumer<C>, a: seq<Byte>, b: seq<Byte>)
    ensures PushAll(f, consume, a + b) == PushAll(PushAll(f, consume, a), consume, b)
    decreases |a|
  {
    if a == [] {
      assert a + b == b;
    } else {
      assert (a + b)[1..] == a[1..] + b;
      PushSplits(Push(f, consume, a[0]), consume, a[1..], b);
    }
  }

  /** Copying whole stretches is the same as taking one byte at a time. */
  lemma {:induction false} FeedIsByteByByte<C(!new)>(f: Framer<C>, consume: Consumer<C>, bytes: seq<Byte>)
    requires Bounded(f)
    ensures Feed(f, consume, bytes) == PushAll(f, consume, bytes)
    decreases |bytes|
  {
    if f.failed {
      FailedPushesNothing(f, consume, bytes);
    } else if bytes != [] {
      hide FeedOnce, Stretch, Push;
      var count := Stretch(bytes);
      assert bytes == bytes[..count] + bytes[count..];
      PushSplits(f, consume, bytes[..count], bytes[count..]);
      OneStretch(f, consume, bytes);
      FeedIsByteByByte(FeedOnce(f, consume, bytes), consume, bytes[count..]);
    }
  }

  lemma OneStretch<C(!new)>(f: Framer<C>, consume: Consumer<C>, bytes: seq<Byte>)
    requires !f.failed && Bounded(f) && bytes != []
    ensures FeedOnce(f, consume, bytes) == PushAll(f, consume, bytes[..Stretch(bytes)])
    ensures Bounded(FeedOnce(f, consume, bytes))
  {
    var n, count := FirstNewline(bytes), Stretch(bytes);
    if |f.line| + count > FRAME_MAX {
      PushOverflow(f, consume, bytes[..count]);
    } else if n < |bytes| {
      hide FirstNewline;
      assert bytes[..count] == bytes[..n] + [NEWLINE];
      WholeLine(f, consume, bytes[..n]);
    } else {
      hide FirstNewline;
      assert bytes[..count] == bytes && bytes + [] == bytes;
      PushStretch(f, consume, bytes, []);
    }
  }

  lemma WholeLine<C(!new)>(f: Framer<C>, consume: Consumer<C>, text: seq<Byte>)
    requires !f.failed && Bounded(f) && |f.line| + |text| + 1 <= FRAME_MAX
    requires forall i :: 0 <= i < |text| ==> text[i] != NEWLINE
    ensures var g := f.(line := f.line + (text + [NEWLINE]), peak := Higher(f.peak, |f.line| + |text| + 1));
            PushAll(f, consume, text + [NEWLINE]) == Deliver(g, consume)
  {
    PushStretch(f, consume, text, [NEWLINE]);
    assert [NEWLINE][1..] == [];
    assert f.line + text + [NEWLINE] == f.line + (text + [NEWLINE]);
    hide Deliver;
  }

  function FeedAll<C>(f: Framer<C>, consume: Consumer<C>, blocks: seq<seq<Byte>>): Framer<C>
    decreases |blocks|
  {
    if blocks == [] then f else FeedAll(Feed(f, consume, blocks[0]), consume, blocks[1..])
  }

  function Join(blocks: seq<seq<Byte>>): seq<Byte> {
    if blocks == [] then [] else blocks[0] + Join(blocks[1..])
  }

  lemma {:induction false} PushKeepsBound<C(!new)>(f: Framer<C>, consume: Consumer<C>, bytes: seq<Byte>)
    requires Bounded(f)
    ensures Bounded(PushAll(f, consume, bytes))
    decreases |bytes|
  {
    if bytes != [] { PushKeepsBound(Push(f, consume, bytes[0]), consume, bytes[1..]); }
  }

  /**
   However the input is split into blocks, the lines delivered, the consumer's state, the partial line, the
   high-water mark and the outcome are those of feeding it at once.
   */
  lemma {:induction false} SplitsDoNotMatter<C(!new)>(f: Framer<C>, consume: Consumer<C>, blocks: seq<seq<Byte>>)
    requires Bounded(f)
    ensures FeedAll(f, consume, blocks) == Feed(f, consume, Join(blocks))
    decreases |blocks|
  {
    if blocks != [] {
      FeedIsByteByByte(f, consume, blocks[0]);
      PushKeepsBound(f, consume, blocks[0]);
      SplitsDoNotMatter(Feed(f, consume, blocks[0]), consume, blocks[1..]);
      FeedIsByteByByte(Feed(f, consume, blocks[0]), consume, Join(blocks[1..]));
      FeedIsByteByByte(f, consume, Join(blocks));
      PushSplits(f, consume, blocks[0], Join(blocks[1..]));
    }
  }

  /** Until input closes nothing is lost: the lines delivered and the partial line are all the bytes fed. */
  lemma {:induction false} NothingIsLost<C(!new)>(f: Framer<C>, consume: Consumer<C>, bytes: seq<Byte>)
    requires Bounded(f) && !Feed(f, consume, bytes).failed
    ensures var g := Feed(f, consume, bytes);
            Join(g.lines) + g.line == Join(f.lines) + f.line + bytes
  {
    FeedIsByteByByte(f, consume, bytes);
    PushLosesNothing(f, consume, bytes);
  }

  lemma {:induction false} PushLosesNothing<C(!new)>(f: Framer<C>, consume: Consumer<C>, bytes: seq<Byte>)
    requires !PushAll(f, consume, bytes).failed
    ensures var g := PushAll(f, consume, bytes);
            Join(g.lines) + g.line == Join(f.lines) + f.line + bytes
    decreases |bytes|
  {
    if bytes != [] {
      var h := Push(f, consume, bytes[0]);
      if h.failed { FailedPushesNothing(h, consume, bytes[1..]); } else {
        PushLosesNothing(h, consume, bytes[1..]);
        PushOnce(f, consume, bytes[0]);
        assert Join(f.lines) + f.line + [bytes[0]] + bytes[1..] == Join(f.lines) + f.line + bytes;
      }
    }
  }

  lemma PushOnce<C(!new)>(f: Framer<C>, consume: Consumer<C>, byte: Byte)
    requires !f.failed && !Push(f, consume, byte).failed
    ensures var h := Push(f, consume, byte); Join(h.lines) + h.line == Join(f.lines) + f.line + [byte]
  {
    if byte == NEWLINE { JoinOneMore(f.lines, f.line + [byte]); }
  }

  lemma {:induction false} JoinOneMore(lines: seq<seq<Byte>>, line: seq<Byte>)
    ensures Join(lines + [line]) == Join(lines) + line
  {
    if lines == [] {
      assert lines + [line] == [line] && [line][1..] == [];
    } else {
      assert (lines + [line])[1..] == lines[1..] + [line];
      JoinOneMore(lines[1..], line);
    }
  }
}
