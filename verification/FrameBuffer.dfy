/** The line framer in place (frame.c). */
module FrameBuffer {
  import opened Bytes
  import opened Framing

  class Buffer<C> {
    const bytes: array<Byte>
    var used: nat
    var peak: nat
    var failed: bool
    var consumer: C
    ghost var lines: seq<seq<Byte>>

    ghost predicate Valid()
      reads this
    {
      bytes.Length == FRAME_MAX && used <= peak <= FRAME_MAX
    }

    ghost function View(): Framer<C>
      requires Valid()
      reads this, bytes
    {
      Framer(bytes[..used], peak, failed, consumer, lines)
    }

    constructor (first: C)
      ensures Valid() && fresh(bytes) && View() == Framer([], 0, false, first, [])
    {
      bytes := new Byte[FRAME_MAX](i => 0);
      used, peak, failed, consumer, lines := 0, 0, false, first, [];
    }

    /** `memchr` from `start` on: the first newline, or the length. */
    method Search(input: seq<Byte>, start: nat) returns (found: nat)
      requires start <= |input|
      ensures start <= found <= |input| && found - start == FirstNewline(input[start..])
    {
      found := start;
      while found < |input| && input[found] != NEWLINE
        invariant start <= found <= |input|
        invariant forall i :: start <= i < found ==> input[i] != NEWLINE
      {
        found := found + 1;
      }
      FirstIsUnique(input[start..], found - start);
    }

    method Copy(input: seq<Byte>, start: nat, count: nat)
      requires Valid() && start + count <= |input| && used + count <= FRAME_MAX
      modifies bytes
      ensures bytes[..used + count] == old(bytes[..used]) + input[start..start + count]
    {
      var i := 0;
      while i < count
        invariant 0 <= i <= count
        invariant bytes[..used + i] == old(bytes[..used]) + input[start..start + i]
      {
        bytes[used + i] := input[start + i];
        i := i + 1;
      }
    }

    method Refuse()
      requires Valid()
      modifies this`used, this`failed
      ensures Valid() && View() == Fail(old(View()))
    {
      used, failed := 0, true;
    }

    /** A complete line goes to the consumer. */
    method HandOver(consume: Consumer<C>)
      requires Valid()
      modifies this
      ensures Valid() && View() == Deliver(old(View()), consume)
    {
      var line := bytes[..used];
      var (next, accepted) := consume(consumer, line);
      consumer := next;
      lines := lines + [line];
      used := 0;
      if !accepted { Refuse(); }
    }

    /** One turn of the loop, from position `at`. */
    method FeedOnce(consume: Consumer<C>, input: seq<Byte>, at: nat) returns (next: nat)
      requires Valid() && !failed && at < |input|
      modifies this, bytes
      ensures Valid() && View() == Framing.FeedOnce(old(View()), consume, input[at..])
      ensures next == at + Stretch(input[at..])
    {
      var newline := Search(input, at);
      hide FirstNewline;
      var count := if newline < |input| then newline - at + 1 else |input| - at;
      next := at + count;
      var capacity := FRAME_MAX - used;
      if count > capacity {
        Copy(input, at, capacity);
        peak := FRAME_MAX;
        Refuse();
        return;
      }
      Copy(input, at, count);
      used := used + count;
      if used > peak { peak := used; }
      assert input[at..][..count] == input[at..at + count];
      if newline < |input| { HandOver(consume); }
    }

    method Feed(consume: Consumer<C>, input: seq<Byte>) returns (ok: bool)
      requires Valid()
      modifies this, bytes
      ensures Valid() && View() == Framing.Feed(old(View()), consume, input)
      ensures ok == !failed
    {
      hide Framing.FeedOnce, Stretch;
      var at := 0;
      assert input[0..] == input;
      while at < |input| && !failed
        invariant 0 <= at <= |input| && Valid()
        invariant Framing.Feed(View(), consume, input[at..]) == Framing.Feed(old(View()), consume, input)
        decreases |input| - at
      {
        ghost var count := Stretch(input[at..]);
        assert input[at..][count..] == input[at + count..];
        at := FeedOnce(consume, input, at);
      }
      return !failed;
    }

    method End() returns (clean: bool)
      requires Valid()
      modifies this`used, this`failed
      ensures Valid() && (View(), clean) == Eof(old(View()))
    {
      if failed { return false; }
      if used != 0 {
        Refuse();
        return false;
      }
      failed := true;
      return true;
    }
  }

  lemma {:induction false} FirstIsUnique(bytes: seq<Byte>, n: nat)
    requires n <= |bytes| && (forall i :: 0 <= i < n ==> bytes[i] != NEWLINE) && (n < |bytes| ==> bytes[n] == NEWLINE)
    ensures FirstNewline(bytes) == n
  {
    if n > 0 { FirstIsUnique(bytes[1..], n - 1); }
  }
}
