/** One protocol exchange at a time, and the observation beside it (exchange.c). */
module Exchange {
  import opened Bytes

  datatype Pending = Nothing | Requesting | Observing | Renewing | Cancelling

  datatype Exchange = Exchange(active: bool, observing: bool, pending: Pending, failed: bool)

  /** What building and sending a message came to. */
  datatype Sending = Sent | Malformed | Unbuilt | Refused(byStore: bool)

  /** The library's own cancellation either goes out, fails on the store, or leaves the explicit one to be sent. */
  datatype Withdrawal = Direct | DirectRefused | Explicit(sending: Sending)

  datatype Error = ConnectionClosed | StoreError | Busy | ObservationActive | InvalidRequest | Unavailable

  datatype Delivery = Unary | Initial | Renewed | Intervening | Cancelled | Report

  const IDLE: Exchange := Exchange(false, false, Nothing, false)

  /** A message refused by the store or the session poisons the exchange. */
  function Send(x: Exchange, kind: Pending, s: Sending): (Exchange, Option<Error>) {
    match s
    case Sent => (x.(active := true, pending := kind), None)
    case Malformed => (x, Some(InvalidRequest))
    case Unbuilt => (x, Some(Unavailable))
    case Refused(byStore) => (x.(failed := true), Some(if byStore then StoreError else ConnectionClosed))
  }

  function Request(x: Exchange, s: Sending): (Exchange, Option<Error>) {
    if x.failed then (x, Some(ConnectionClosed))
    else if x.active then (x, Some(Busy))
    else if x.observing then (x, Some(ObservationActive))
    else Send(x, Requesting, s)
  }

  function Observe(x: Exchange, renewing: bool, s: Sending): (Exchange, Option<Error>) {
    if x.failed then (x, Some(ConnectionClosed))
    else if x.active then (x, Some(Busy))
    else if renewing && !x.observing then (x, Some(InvalidRequest))
    else if !renewing && x.observing then (x, Some(ObservationActive))
    else Send(x, if renewing then Renewing else Observing, s)
  }

  function Cancel(x: Exchange, w: Withdrawal): (Exchange, Option<Error>) {
    if x.failed then (x, Some(ConnectionClosed))
    else if x.active && x.pending != Renewing then (x, Some(Busy))
    else if !x.observing then (x, Some(InvalidRequest))
    else
      var y := if x.pending == Renewing then x.(active := false, pending := Nothing) else x;
      match w
      case Direct => (y.(active := true, pending := Cancelling), None)
      case DirectRefused => (y.(failed := true), Some(StoreError))
      case Explicit(Refused(false)) => (y, Some(Unavailable))
      case Explicit(s) => Send(y, Cancelling, s)
  }

  /** On the way out: a registration already sent may have created an observer, so it is cancelled too. */
  function Abandon(x: Exchange, w: Withdrawal): (Exchange, Option<Error>) {
    if x.failed then (x, Some(ConnectionClosed))
    else if x.pending == Cancelling then (x, None)
    else if x.pending == Observing then Cancel(x.(observing := true, active := false, pending := Nothing), w)
    else Cancel(x, w)
  }

  /** `fail`. */
  function Fail(x: Exchange): Exchange {
    if x.failed then x else Exchange(false, false, Nothing, true)
  }

  /** A response with a matching token: the state it leaves and how it is handed on. */
  function Receive(x: Exchange, hasObserve: bool, code: nat): (Exchange, Option<Delivery>) {
    var idle := x.(active := false, pending := Nothing);
    var follows := hasObserve && 64 <= code <= 94;
    match x.pending
    case Requesting => (idle, Some(Unary))
    case Observing => (idle.(observing := follows), Some(Initial))
    case Renewing => (idle.(observing := follows), Some(Renewed))
    case Cancelling =>
      if hasObserve then (x, Some(Intervening)) else (idle.(observing := false), Some(Cancelled))
    case Nothing => (x, if x.observing then Some(Report) else None)
  }

  /** An exchange is active exactly while an operation is pending; the pending kind fixes whether it observes. */
  predicate Coherent(x: Exchange) {
    && (x.active <==> x.pending != Nothing)
    && (x.pending == Requesting || x.pending == Observing ==> !x.observing)
    && (x.pending == Renewing || x.pending == Cancelling ==> x.observing)
  }

  datatype Step =
    | Requests(s: Sending) | Observes(renewing: bool, s: Sending) | Cancels(w: Withdrawal) | Abandons(w: Withdrawal)
    | Receives(hasObserve: bool, code: nat, accepted: bool) | Fails

  function Apply(x: Exchange, step: Step): Exchange {
    match step
    case Requests(s) => Request(x, s).0
    case Observes(renewing, s) => Observe(x, renewing, s).0
    case Cancels(w) => Cancel(x, w).0
    case Abandons(w) => Abandon(x, w).0
    case Receives(hasObserve, code, accepted) =>
      if !x.active && !x.observing then x
      else var y := Receive(x, hasObserve, code).0; if accepted then y else y.(failed := true)
    case Fails => if x.active || x.observing then Fail(x) else x
  }

  function Run(steps: seq<Step>): Exchange {
    if steps == [] then IDLE else Apply(Run(steps[..|steps| - 1]), steps[|steps| - 1])
  }

  /** In every run the exchange is active if and only if an operation is pending. */
  lemma {:induction false} ActiveExactlyWhilePending(steps: seq<Step>)
    ensures Coherent(Run(steps))
  {
    if steps != [] {
      ActiveExactlyWhilePending(steps[..|steps| - 1]);
      ApplyKeepsCoherent(Run(steps[..|steps| - 1]), steps[|steps| - 1]);
    }
  }

  lemma ApplyKeepsCoherent(x: Exchange, step: Step)
    requires Coherent(x)
    ensures Coherent(Apply(x, step))
  {
  }

  /** Once failed an exchange never sends again: no later step starts an operation. */
  lemma {:induction false} FailedExchangeStartsNothing(steps: seq<Step>, n: nat)
    requires n <= |steps| && Run(steps[..n]).failed
    ensures Run(steps).failed
    ensures Run(steps).active ==> Run(steps[..n]).active && Run(steps).pending == Run(steps[..n]).pending
  {
    if n < |steps| {
      var before := steps[..|steps| - 1];
      assert before[..n] == steps[..n];
      FailedExchangeStartsNothing(before, n);
    } else {
      assert steps[..n] == steps;
    }
  }

  class Session {
    var active: bool
    var observing: bool
    var pending: Pending
    var failed: bool

    ghost function View(): Exchange
      reads this
    {
      Exchange(active, observing, pending, failed)
    }

    constructor ()
      ensures View() == IDLE
    {
      active, observing, pending, failed := false, false, Nothing, false;
    }

    method Dispatch(kind: Pending, s: Sending) returns (error: Option<Error>)
      modifies this
      ensures (View(), error) == Send(old(View()), kind, s)
    {
      match s
      case Malformed => return Some(InvalidRequest);
      case Unbuilt => return Some(Unavailable);
      case Refused(byStore) =>
        failed := true;
        return Some(if byStore then StoreError else ConnectionClosed);
      case Sent =>
        active, pending := true, kind;
        return None;
    }

    method SendRequest(s: Sending) returns (error: Option<Error>)
      modifies this
      ensures (View(), error) == Request(old(View()), s)
    {
      if failed { return Some(ConnectionClosed); }
      if active { return Some(Busy); }
      if observing { return Some(ObservationActive); }
      error := Dispatch(Requesting, s);
    }

    method SendObserve(renewing: bool, s: Sending) returns (error: Option<Error>)
      modifies this
      ensures (View(), error) == Observe(old(View()), renewing, s)
    {
      if failed { return Some(ConnectionClosed); }
      if active { return Some(Busy); }
      if renewing != observing { return Some(if renewing then InvalidRequest else ObservationActive); }
      error := Dispatch(if renewing then Renewing else Observing, s);
    }

    method Withdraw(w: Withdrawal) returns (error: Option<Error>)
      modifies this
      ensures (View(), error) == Cancel(old(View()), w)
    {
      if failed { return Some(ConnectionClosed); }
      if active && pending != Renewing { return Some(Busy); }
      if !observing { return Some(InvalidRequest); }
      if pending == Renewing { active, pending := false, Nothing; }
      match w
      case Direct =>
        active, pending := true, Cancelling;
        return None;
      case DirectRefused =>
        failed := true;
        return Some(StoreError);
      case Explicit(s) =>
        if s == Refused(false) { return Some(Unavailable); }
        error := Dispatch(Cancelling, s);
    }

    method Leave(w: Withdrawal) returns (error: Option<Error>)
      modifies this
      ensures (View(), error) == Abandon(old(View()), w)
    {
      if failed { return Some(ConnectionClosed); }
      if pending == Cancelling { return None; }
      if pending == Observing { observing, active, pending := true, false, Nothing; }
      error := Withdraw(w);
    }

    method Abort()
      modifies this
      ensures View() == Fail(old(View()))
    {
      if failed { return; }
      failed, active, observing, pending := true, false, false, Nothing;
    }

    method Classify(hasObserve: bool, code: nat) returns (delivery: Option<Delivery>)
      modifies this
      ensures (View(), delivery) == Receive(old(View()), hasObserve, code)
    {
      if pending == Requesting {
        active, pending := false, Nothing;
        return Some(Unary);
      }
      if pending == Observing || pending == Renewing {
        delivery := Some(if pending == Observing then Initial else Renewed);
        active, pending := false, Nothing;
        observing := hasObserve && 64 <= code <= 94;
        return;
      }
      if pending == Cancelling {
        if hasObserve { return Some(Intervening); }
        active, observing, pending := false, false, Nothing;
        return Some(Cancelled);
      }
      return if observing then Some(Report) else None;
    }
  }
}
