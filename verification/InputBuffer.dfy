/** The input machine's byte loop in place (bridge_input.cpp). */
module InputBuffer {
  import opened BridgeInput

  class ResultInput {
    const buffer: array<char>
    var used: nat
    var lastProbe: nat
    var lastObservation: nat
    var notified: bool
    var state: State
    var asked: nat
    var calls: seq<Call>

    ghost predicate Valid()
      reads this
    {
      buffer.Length == 1024 && used <= LINE_MAX
    }

    ghost function View(): Input
      requires Valid()
      reads this, buffer
    {
      Input(buffer[..used], lastProbe, lastObservation, notified, state, asked, calls)
    }

    constructor ()
      ensures Valid() && fresh(buffer) && View() == FIRST
    {
      buffer := new char[1024](i => '\0');
      used, lastProbe, lastObservation, notified, state, asked, calls := 0, 0, 0, false, Open, 0, [];
    }

    /** The fields a handled line leaves; the buffer keeps its bytes or is emptied. */
    method Settle(next: Input)
      requires Valid() && (next.buffer == "" || next.buffer == buffer[..used])
      modifies this
      ensures Valid() && View() == next
    {
      if next.buffer == "" { used := 0; }
      lastProbe, lastObservation, notified := next.lastProbe, next.lastObservation, next.notified;
      state, asked, calls := next.state, next.asked, next.calls;
    }

    /** One byte: stored, or the end of a line, or one too many. */
    method Take(w: World, byte: char)
      requires Valid() && state == Open
      modifies this, buffer
      ensures Valid() && View() == Push(old(View()), w, byte)
    {
      hide TakeLine, BridgeInput.Close;
      var now := Input(buffer[..used], lastProbe, lastObservation, notified, state, asked, calls);
      if byte == '\n' {
        LineLeavesBuffer(now, w);
        Settle(TakeLine(now, w));
      } else if used == buffer.Length - 1 {
        CloseLeavesBuffer(now, Oversized);
        Settle(BridgeInput.Close(now, Oversized));
      } else {
        buffer[used] := byte;
        used := used + 1;
      }
    }

    method Feed(w: World, bytes: string) returns (result: State)
      requires Valid()
      modifies this, buffer
      ensures Valid() && View() == BridgeInput.Feed(old(View()), w, bytes) && result == state
    {
      hide Push;
      ghost var before := View();
      var i := 0;
      while i < |bytes| && state == Open
        invariant 0 <= i <= |bytes| && Valid()
        invariant View() == BridgeInput.Feed(before, w, bytes[..i])
      {
        assert bytes[..i + 1][..i] == bytes[..i];
        Take(w, bytes[i]);
        i := i + 1;
      }
      if i < |bytes| {
        assert bytes == bytes[..i] + bytes[i..];
        FeedSplits(before, w, bytes[..i], bytes[i..]);
        ClosedStaysClosed(View(), w, bytes[i..]);
      } else {
        assert bytes[..i] == bytes;
      }
      return state;
    }

    /** The end of input, clean only between lines. */
    method End() returns (result: State)
      requires Valid()
      modifies this
      ensures Valid() && View() == BridgeInput.End(old(View())) && result == state
    {
      hide BridgeInput.Close;
      if state == Open {
        var now := Input(buffer[..used], lastProbe, lastObservation, notified, state, asked, calls);
        var last := if used == 0 then Ended else Partial;
        CloseLeavesBuffer(now, last);
        Settle(BridgeInput.Close(now, last));
      }
      return state;
    }
  }

  lemma CloseLeavesBuffer(i: Input, state: State)
    ensures Close(i, state).buffer == i.buffer
  {
  }

  lemma LineLeavesBuffer(i: Input, w: World)
    ensures TakeLine(i, w).buffer == "" || TakeLine(i, w).buffer == i.buffer
  {
  }
}
