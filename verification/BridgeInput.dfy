/**
 The bridge's input machine (bridge_input.cpp): bytes become lines, lines become frames, and each frame is
 checked, sampled against the clock and handed on. What custody, the clock and the sink answer is arbitrary.
 */
module BridgeInput {
  import H = Handoff

  const LINE_MAX: nat := 1023

  datatype State =
    | Open | Requested | Ended | Partial | Malformed | Oversized | NoMemory | Clock | Sink | Read | Cancelled

  /** What a line decodes to. */
  datatype Frame =
    | Result(id: nat, outcome: H.Outcome)
    | Probe(id: nat)
    | Observation(id: nat)
    | CloseFrame
    | Refused(state: State)

  /** Calls made to the sink and to custody, in order. */
  datatype Call =
    | Closing(requested: bool)
    | CustodyClosed
    | Closed
    | Ready(id: nat)
    | Observed(id: nat)
    | Clocked(id: nat, now: nat)

  /** The n-th answers of the outside world. */
  datatype World = World(
    decode: string -> Frame, sample: nat -> (H.ClockSample, nat), resolve: nat -> H.Reply, sink: nat -> bool)

  /** `asked` counts the questions put to the world so far. */
  datatype Input = Input(
    buffer: string, lastProbe: nat, lastObservation: nat, notified: bool, state: State, asked: nat, calls: seq<Call>)

  const FIRST: Input := Input("", 0, 0, false, Open, 0, [])

  function Say(i: Input, call: Call): Input { i.(calls := i.calls + [call]) }

  function NotifyClosing(i: Input, requested: bool): Input {
    if i.notified then i else Say(i.(notified := true), Closing(requested))
  }

  function Close(i: Input, state: State): Input {
    if i.state != Open then i
    else Say(Say(NotifyClosing(i, state == Requested), CustodyClosed).(state := state), Closed)
  }

  /** The next clock sample of custody. */
  function Sample(i: Input, w: World): (Input, H.ClockSample, nat) {
    var (sampled, now) := w.sample(i.asked);
    (i.(asked := i.asked + 1), sampled, now)
  }

  /** A sample other than a good one closes input. */
  function Rejected(i: Input, sampled: H.ClockSample): Input {
    Close(i, if sampled == H.InvalidGeneration then Malformed else if sampled == H.SampleClock then Clock else Ended)
  }

  /** What the sink is told, and closing if it refuses. */
  function Tell(i: Input, w: World, call: Call): Input {
    var told := Say(i, call).(asked := i.asked + 1);
    if w.sink(i.asked) then told else Close(told, Sink)
  }

  function TakeObservation(i: Input, w: World, id: nat): Input {
    if id <= i.lastObservation then Close(i, Malformed)
    else
      var (a, sampled, now) := Sample(i, w);
      if sampled != H.Sampled then Rejected(a, sampled)
      else Tell(a.(lastObservation := id), w, Observed(id))
  }

  function TakeProbe(i: Input, w: World, id: nat): Input {
    if id <= i.lastProbe then Close(i, Malformed)
    else
      var (a, sampled, now) := Sample(i.(lastProbe := id), w);
      if sampled != H.Sampled then Rejected(a, sampled) else Tell(a, w, Clocked(id, now))
  }

  function TakeClose(i: Input, w: World): Input {
    var (a, sampled, now) := Sample(NotifyClosing(i, true), w);
    Close(a, if sampled == H.InvalidGeneration then Malformed
             else if sampled == H.SampleClock then Clock else Requested)
  }

  function TakeResult(i: Input, w: World, id: nat): Input {
    var a := i.(asked := i.asked + 1);
    match w.resolve(i.asked)
    case Stored => Tell(a, w, Ready(id))
    case Late => Tell(a, w, Ready(id))
    case Duplicate => a
    case UnknownTicket => a
    case AlreadyClosed => Close(a, Ended)
    case WrongClock => Close(a, Clock)
    case InvalidOutcome => Close(a, Malformed)
  }

  function TakeLine(i: Input, w: World): Input {
    var frame := w.decode(i.buffer);
    var a := i.(buffer := "");
    match frame
    case Refused(state) => Close(i, if state == NoMemory || state == Oversized then state else Malformed)
    case Observation(id) => TakeObservation(a, w, id)
    case CloseFrame => TakeClose(a, w)
    case Probe(id) => TakeProbe(a, w, id)
    case Result(id, outcome) => TakeResult(a, w, id)
  }

  function Push(i: Input, w: World, byte: char): Input {
    if i.state != Open then i
    else if byte == '\n' then TakeLine(i, w)
    else if |i.buffer| == LINE_MAX then Close(i, Oversized)
    else i.(buffer := i.buffer + [byte])
  }

  function Feed(i: Input, w: World, bytes: string): Input {
    if bytes == "" then i else Push(Feed(i, w, bytes[..|bytes| - 1]), w, bytes[|bytes| - 1])
  }

  function End(i: Input): Input {
    if i.state == Open then Close(i, if i.buffer == "" then Ended else Partial) else i
  }

  function FeedAll(i: Input, w: World, blocks: seq<string>): Input {
    if blocks == [] then i else Feed(FeedAll(i, w, blocks[..|blocks| - 1]), w, blocks[|blocks| - 1])
  }

  function Join(blocks: seq<string>): string {
    if blocks == [] then "" else Join(blocks[..|blocks| - 1]) + blocks[|blocks| - 1]
  }

  lemma {:induction false} FeedSplits(i: Input, w: World, a: string, b: string)
    ensures Feed(i, w, a + b) == Feed(Feed(i, w, a), w, b)
    decreases |b|
  {
    hide Push;
    if b == "" {
      assert a + b == a;
    } else {
      assert (a + b)[..|a + b| - 1] == a + b[..|b| - 1];
      FeedSplits(i, w, a, b[..|b| - 1]);
    }
  }

  /** However the input is split, every call, every id and the final state are those of feeding it at once. */
  lemma {:induction false} SplitsDoNotMatter(i: Input, w: World, blocks: seq<string>)
    ensures FeedAll(i, w, blocks) == Feed(i, w, Join(blocks))
  {
    if blocks != [] {
      SplitsDoNotMatter(i, w, blocks[..|blocks| - 1]);
      FeedSplits(i, w, Join(blocks[..|blocks| - 1]), blocks[|blocks| - 1]);
    }
  }

  // ----- what every byte keeps

  ghost predicate RisingTo(calls: seq<Call>, observation: nat, probe: nat) {
    && (forall k :: 0 <= k < |calls| ==>
          (calls[k].Observed? ==> calls[k].id <= observation) && (calls[k].Clocked? ==> calls[k].id <= probe))
    && (forall k, l :: 0 <= k < l < |calls| ==>
          && (calls[k].Observed? && calls[l].Observed? ==> calls[k].id < calls[l].id)
          && (calls[k].Clocked? && calls[l].Clocked? ==> calls[k].id < calls[l].id))
  }

  /** Closing is announced at most once; custody closes and the sink is told only after that, last of all. */
  ghost predicate ClosesOnce(i: Input) {
    && (forall k, l :: 0 <= k < l < |i.calls| && i.calls[k].Closing? ==> !i.calls[l].Closing?)
    && ((exists k :: 0 <= k < |i.calls| && i.calls[k].Closing?) <==> i.notified)
    && (i.state != Open ==>
          && i.notified && |i.calls| >= 3
          && i.calls[|i.calls| - 1] == Closed && i.calls[|i.calls| - 2] == CustodyClosed)
    && (forall k :: 0 <= k < |i.calls| && i.calls[k].Closed? ==> i.state != Open && k == |i.calls| - 1)
    && (forall k :: 0 <= k < |i.calls| && i.calls[k].CustodyClosed? ==> i.state != Open && k == |i.calls| - 2)
  }

  ghost predicate Inv(i: Input) {
    && RisingTo(i.calls, i.lastObservation, i.lastProbe) && ClosesOnce(i) && |i.buffer| <= LINE_MAX
    && (i.notified ==> i.state != Open)
  }

  /** Between `NotifyClosing` and `Close` the announcement is already made. */
  ghost predicate Announced(i: Input) {
    RisingTo(i.calls, i.lastObservation, i.lastProbe) && ClosesOnce(i) && |i.buffer| <= LINE_MAX && i.state == Open
  }

  lemma NotifyKeeps(i: Input, requested: bool)
    requires Announced(i)
    ensures Announced(NotifyClosing(i, requested)) && NotifyClosing(i, requested).notified
  {
    var j := NotifyClosing(i, requested);
    if !i.notified { assert j.calls[|i.calls|] == Closing(requested); }
  }

  lemma CloseKeeps(i: Input, state: State)
    requires Announced(i) && state != Open
    ensures Inv(Close(i, state)) && Close(i, state).state == state
  {
    NotifyKeeps(i, state == Requested);
    CloseAnnounced(NotifyClosing(i, state == Requested), state);
    hide NotifyClosing;
  }

  lemma CloseAnnounced(j: Input, state: State)
    requires Announced(j) && j.notified && state != Open
    ensures Inv(Say(Say(j, CustodyClosed).(state := state), Closed))
  {
    var e := Say(Say(j, CustodyClosed).(state := state), Closed);
    var k :| 0 <= k < |j.calls| && j.calls[k].Closing?;
    assert e.calls[k].Closing?;
  }

  lemma SayKeeps(i: Input, call: Call, observation: nat, probe: nat)
    requires Announced(i) && !i.notified && observation >= i.lastObservation && probe >= i.lastProbe
    requires (call.Observed? && call.id == observation > i.lastObservation)
             || (call.Clocked? && call.id == probe > i.lastProbe) || call.Ready?
    ensures Announced(Say(i, call).(lastObservation := observation, lastProbe := probe))
    ensures !Say(i, call).notified
  {
  }

  lemma TellKeeps(i: Input, w: World, call: Call, observation: nat, probe: nat)
    requires Announced(i) && !i.notified && observation >= i.lastObservation && probe >= i.lastProbe
    requires (call.Observed? && call.id == observation > i.lastObservation)
             || (call.Clocked? && call.id == probe > i.lastProbe) || call.Ready?
    ensures Inv(Tell(i.(lastObservation := observation, lastProbe := probe), w, call))
  {
    hide Close, Announced, Inv;
    SayKeeps(i, call, observation, probe);
    var said := Say(i, call).(lastObservation := observation, lastProbe := probe);
    var told := said.(asked := i.asked + 1);
    assert told == Say(i.(lastObservation := observation, lastProbe := probe), call).(asked := i.asked + 1);
    AskedIsNothing(said, told);
    CloseKeeps(told, Sink);
    OpenIsInv(told);
  }

  lemma OpenIsInv(i: Input)
    requires Announced(i) && !i.notified
    ensures Inv(i)
  {
  }

  lemma AskedIsNothing(i: Input, j: Input)
    requires Announced(i) && j == i.(asked := j.asked)
    ensures Announced(j)
  {
  }

  lemma LineKeeps(i: Input, w: World)
    requires Inv(i) && i.state == Open
    ensures Inv(TakeLine(i, w))
  {
    hide Close, Tell;
    var a := i.(buffer := "");
    assert Announced(i) && Announced(a) && !a.notified;
    forall state: State | state != Open ensures Inv(Close(i, state)) { CloseKeeps(i, state); }
    match w.decode(i.buffer)
    case Refused(state) =>
    case Observation(id) => ObservationKeeps(a, w, id);
    case CloseFrame => CloseFrameKeeps(a, w);
    case Probe(id) => ProbeKeeps(a, w, id);
    case Result(id, outcome) => ResultKeeps(a, w, id);
  }

  lemma RejectedKeeps(i: Input, sampled: H.ClockSample)
    requires Announced(i)
    ensures Inv(Rejected(i, sampled))
  {
    hide Close;
    CloseKeeps(i, Malformed);
    CloseKeeps(i, Clock);
    CloseKeeps(i, Ended);
  }

  lemma ObservationKeeps(i: Input, w: World, id: nat)
    requires Announced(i) && !i.notified
    ensures Inv(TakeObservation(i, w, id))
  {
    hide Close, Tell, Rejected;
    CloseKeeps(i, Malformed);
    var a := i.(asked := i.asked + 1);
    AskedIsNothing(i, a);
    RejectedKeeps(a, w.sample(i.asked).0);
    if id > i.lastObservation { TellKeeps(a, w, Observed(id), id, i.lastProbe); }
  }

  lemma ProbeKeeps(i: Input, w: World, id: nat)
    requires Announced(i) && !i.notified
    ensures Inv(TakeProbe(i, w, id))
  {
    hide Close, Tell, Rejected;
    CloseKeeps(i, Malformed);
    if id > i.lastProbe {
      var a := i.(asked := i.asked + 1);
      AskedIsNothing(i, a);
      assert Announced(a.(lastProbe := id));
      RejectedKeeps(a.(lastProbe := id), w.sample(i.asked).0);
      TellKeeps(a, w, Clocked(id, w.sample(i.asked).1), i.lastObservation, id);
    }
  }

  lemma CloseFrameKeeps(i: Input, w: World)
    requires Announced(i)
    ensures Inv(TakeClose(i, w))
  {
    hide Close, NotifyClosing;
    NotifyKeeps(i, true);
    var n := NotifyClosing(i, true);
    var a := n.(asked := n.asked + 1);
    AskedIsNothing(n, a);
    CloseKeeps(a, Malformed);
    CloseKeeps(a, Clock);
    CloseKeeps(a, Requested);
  }

  lemma ResultKeeps(i: Input, w: World, id: nat)
    requires Announced(i) && !i.notified
    ensures Inv(TakeResult(i, w, id))
  {
    hide Close, Tell;
    var a := i.(asked := i.asked + 1);
    AskedIsNothing(i, a);
    CloseKeeps(a, Ended);
    CloseKeeps(a, Clock);
    CloseKeeps(a, Malformed);
    TellKeeps(a, w, Ready(id), a.lastObservation, a.lastProbe);
  }

  lemma PushKeeps(i: Input, w: World, byte: char)
    requires Inv(i)
    ensures Inv(Push(i, w, byte))
  {
    if i.state == Open {
      LineKeeps(i, w);
      CloseKeeps(i, Oversized);
      hide TakeLine, Close;
    }
  }

  lemma FirstInv()
    ensures Inv(FIRST)
  {
  }

  lemma {:induction false} FeedKeeps(i: Input, w: World, bytes: string)
    requires Inv(i)
    ensures Inv(Feed(i, w, bytes))
  {
    hide Inv, Push;
    if bytes != "" {
      FeedKeeps(i, w, bytes[..|bytes| - 1]);
      PushKeeps(Feed(i, w, bytes[..|bytes| - 1]), w, bytes[|bytes| - 1]);
    }
  }

  lemma EndKeeps(i: Input)
    requires Inv(i)
    ensures Inv(End(i)) && End(i).state != Open
  {
    hide Close;
    if i.state == Open {
      CloseKeeps(i, Ended);
      CloseKeeps(i, Partial);
    }
  }

  /**
   Whatever bytes arrive and whatever the world answers, probe ids and observation ids are handed on strictly
   increasing, closing is announced at most once and before custody closes, and the last call is that it closed.
   The end of input closes what is still open in the same way.
   */
  lemma IdsRiseAndClosingComesFirst(w: World, bytes: string)
    ensures var i := Feed(FIRST, w, bytes);
            && RisingTo(i.calls, i.lastObservation, i.lastProbe) && ClosesOnce(i)
            && (i.state == Open <==> !i.notified)
    ensures var e := End(Feed(FIRST, w, bytes));
            && RisingTo(e.calls, e.lastObservation, e.lastProbe) && ClosesOnce(e)
            && e.state != Open && e.notified
  {
    hide Feed, End;
    FirstInv();
    FeedKeeps(FIRST, w, bytes);
    EndKeeps(Feed(FIRST, w, bytes));
  }

  /** After closing, nothing is read and nobody is called. */
  lemma {:induction false} ClosedStaysClosed(i: Input, w: World, bytes: string)
    requires i.state != Open
    ensures Feed(i, w, bytes) == i && End(i) == i
  {
    if bytes != "" { ClosedStaysClosed(i, w, bytes[..|bytes| - 1]); }
  }
}
