/** Which notifications of an observation are newer than the last one admitted (observation.c). */
module Freshness {
  import opened Bytes

  datatype Freshness = Freshness(known: bool, observe: nat, at: int, format: Option<nat>)

  datatype Admission = Newer | Stale | Changed | Unusable

  const UNSEEN: Freshness := Freshness(false, 0, 0, None)

  /** `(observe - last) & 0xffffff` on unsigned 32-bit integers. */
  function MaskedDifference(observe: int, last: int): nat {
    ((observe - last) % 0x1_0000_0000) % 0x100_0000
  }

  predicate TooOld(f: Freshness, observe: nat, at: int) {
    var elapsed := if at >= f.at then at - f.at else 0;
    elapsed <= 128000 && (observe == f.observe || MaskedDifference(observe, f.observe) >= 0x80_0000)
  }

  function NextAdmission(f: Freshness, observe: nat, at: int, format: Option<nat>, renewal: bool)
    : (Freshness, Admission)
  {
    if observe > 0xff_ffff || at < 0 then (f, Unusable)
    else if !f.known then (Freshness(true, observe, at, format), Newer)
    else if !renewal && TooOld(f, observe, at) then (f, Stale)
    else if format != f.format then (f, Changed)
    else (f.(observe := observe, at := at), Newer)
  }

  /** Section 3.4 of RFC 7641: notification 2 is newer than notification 1. */
  predicate NewerThan(v1: int, t1: int, v2: int, t2: int) {
    || (v1 < v2 && v2 - v1 < 0x80_0000)
    || (v1 > v2 && v1 - v2 > 0x80_0000)
    || t2 > t1 + 128000
  }

  lemma MaskIsModulo(observe: nat, last: nat)
    requires observe < 0x100_0000 && last < 0x100_0000
    ensures MaskedDifference(observe, last) == if observe >= last then observe - last else observe - last + 0x100_0000
  {
  }

  /** The masked test is the standard's two-case comparison, for every pair of 24-bit numbers. */
  lemma FreshnessMatchesTheStandard(f: Freshness, observe: nat, at: int)
    requires f.observe < 0x100_0000 && observe < 0x100_0000
    ensures !TooOld(f, observe, at) <==> NewerThan(f.observe, f.at, observe, at)
  {
    MaskIsModulo(observe, f.observe);
  }

  // ----- runs of notifications

  datatype Notice = Notice(observe: nat, at: int, format: Option<nat>)

  /** The record after a run without renewals, with the numbers admitted so far. */
  function Run(notices: seq<Notice>): (Freshness, seq<nat>) {
    if notices == [] then (UNSEEN, [])
    else
      var (f, admitted) := Run(notices[..|notices| - 1]);
      var n := notices[|notices| - 1];
      var (g, outcome) := NextAdmission(f, n.observe, n.at, n.format, false);
      (g, if outcome == Newer then admitted + [n.observe] else admitted)
  }

  /** Every notification arrives within 128 s of the last one admitted before it, if there is one. */
  predicate Prompt(notices: seq<Notice>) {
    notices == [] ||
    (var f := Run(notices[..|notices| - 1]).0;
     Prompt(notices[..|notices| - 1]) && (f.known ==> notices[|notices| - 1].at <= f.at + 128000))
  }

  /** Nothing is asked of the clock before the first admission. */
  lemma FirstNoticeIsPrompt(n: Notice)
    ensures Prompt([n])
  {
    assert [n][..0] == [];
  }

  /** From number `a` forward to number `b`, modulo 2^24. */
  function Forward(a: int, b: int): nat { (b - a) % 0x100_0000 }

  /** How far the numbers move forward, modulo 2^24, from index `first` to index `last`. */
  function Advance(numbers: seq<nat>, first: nat, last: nat): nat
    requires first <= last < |numbers|
    decreases last
  {
    if first == last then 0
    else Advance(numbers, first, last - 1) + Forward(numbers[last - 1], numbers[last])
  }

  ghost predicate Consecutive(numbers: seq<nat>) {
    && (forall i :: 0 <= i < |numbers| ==> numbers[i] < 0x100_0000)
    && (forall i :: 0 < i < |numbers| ==> 0 < Forward(numbers[i - 1], numbers[i]) < 0x80_0000)
  }

  lemma NewerMeansForward(f: Freshness, n: Notice)
    requires f.observe < 0x100_0000 && n.observe < 0x100_0000 && n.at <= f.at + 128000
    ensures !TooOld(f, n.observe, n.at) ==> 0 < Forward(f.observe, n.observe) < 0x80_0000
  {
    MaskIsModulo(n.observe, f.observe);
  }

  ghost predicate LastAdmitted(f: Freshness, admitted: seq<nat>) {
    && Consecutive(admitted)
    && f.known == (admitted != [])
    && (f.known ==> f.observe == admitted[|admitted| - 1])
  }

  lemma AdmissionStep(f: Freshness, admitted: seq<nat>, n: Notice)
    requires LastAdmitted(f, admitted) && (f.known ==> n.at <= f.at + 128000)
    ensures var (g, outcome) := NextAdmission(f, n.observe, n.at, n.format, false);
            LastAdmitted(g, if outcome == Newer then admitted + [n.observe] else admitted)
  {
    hide TooOld, Forward;
    if f.known && n.observe <= 0xff_ffff { NewerMeansForward(f, n); }
  }

  lemma {:induction false} RunSteps(notices: seq<Notice>)
    requires Prompt(notices)
    ensures LastAdmitted(Run(notices).0, Run(notices).1)
  {
    hide NextAdmission, Consecutive;
    if notices == [] {
      NothingAdmitted();
    } else {
      RunSteps(notices[..|notices| - 1]);
      var (f, admitted) := Run(notices[..|notices| - 1]);
      AdmissionStep(f, admitted, notices[|notices| - 1]);
    }
  }

  lemma NothingAdmitted()
    ensures LastAdmitted(UNSEEN, [])
  {
  }

  lemma AddModulo(a: int, d: int, e: int)
    ensures ((a + d) % 0x100_0000 + e) % 0x100_0000 == (a + d + e) % 0x100_0000
  {
  }

  lemma {:induction false} AdvanceReaches(numbers: seq<nat>, first: nat, last: nat)
    requires first <= last < |numbers| && Consecutive(numbers)
    ensures numbers[last] == (numbers[first] + Advance(numbers, first, last)) % 0x100_0000
    ensures first < last ==> 0 < Advance(numbers, first, last)
    decreases last
  {
    if first < last {
      AdvanceReaches(numbers, first, last - 1);
      var d := Advance(numbers, first, last - 1);
      var e := Forward(numbers[last - 1], numbers[last]);
      assert Advance(numbers, first, last) == d + e && 0 < e;
      assert numbers[last] < 0x100_0000;
      ForwardReaches(numbers[last - 1], numbers[last]);
      hide Advance, Consecutive, Forward;
      AddModulo(numbers[first], d, e);
    }
  }

  lemma ForwardReaches(a: nat, b: nat)
    requires b < 0x100_0000
    ensures (a + Forward(a, b)) % 0x100_0000 == b
  {
    var e := Forward(a, b);
    assert e == (b - a) % 0x100_0000;
  }

  /** A number admitted earlier in a prompt run passes again exactly when the advance since then is past 2^23. */
  lemma EarlierNumberPassesExactlyPastHalf(notices: seq<Notice>, j: nat, at: int)
    requires Prompt(notices) && j < |Run(notices).1| && at <= Run(notices).0.at + 128000
    ensures var (f, admitted) := Run(notices);
            !TooOld(f, admitted[j], at) <==> Advance(admitted, j, |admitted| - 1) % 0x100_0000 > 0x80_0000
  {
    hide Run, Prompt, Advance, MaskedDifference, TooOld;
    RunSteps(notices);
    var (f, admitted) := Run(notices);
    AdvanceReaches(admitted, j, |admitted| - 1);
    PassesPastHalf(f, admitted[j], at, Advance(admitted, j, |admitted| - 1));
  }

  lemma PassesPastHalf(f: Freshness, number: nat, at: int, advance: nat)
    requires number < 0x100_0000 && f.observe < 0x100_0000 && at <= f.at + 128000
    requires f.observe == (number + advance) % 0x100_0000
    ensures !TooOld(f, number, at) <==> advance % 0x100_0000 > 0x80_0000
  {
    MaskIsModulo(number, f.observe);
    var d := advance % 0x100_0000;
    ReduceAdvance(number, advance);
    assert f.observe == if number + d < 0x100_0000 then number + d else number + d - 0x100_0000;
  }

  lemma ReduceAdvance(number: nat, advance: nat)
    ensures (number + advance) % 0x100_0000 == (number + advance % 0x100_0000) % 0x100_0000
  {
  }

  /** In a prompt run a repeated number means the numbers went all the way round in between. */
  lemma NoNumberIsAdmittedTwiceWithinARound(notices: seq<Notice>, i: nat, j: nat)
    requires Prompt(notices) && i < j < |Run(notices).1|
    requires Advance(Run(notices).1, i, j) < 0x100_0000
    ensures Run(notices).1[i] != Run(notices).1[j]
  {
    hide Run, Prompt, Advance, Forward;
    RunSteps(notices);
    var admitted := Run(notices).1;
    AdvanceReaches(admitted, i, j);
    assert admitted[i] < 0x100_0000;
    WithinARound(admitted[i], Advance(admitted, i, j));
  }

  lemma WithinARound(number: nat, advance: nat)
    requires number < 0x100_0000 && 0 < advance < 0x100_0000
    ensures (number + advance) % 0x100_0000 != number
  {
  }

  /** The record as the source keeps it, updated in place. */
  class Record {
    var known: bool
    var observe: nat
    var receivedAt: int
    var format: nat
    var formatPresent: bool

    ghost function View(): Freshness
      reads this
    {
      Freshness(known, observe, receivedAt, if formatPresent then Some(format) else None)
    }

    method Admit(number: nat, at: int, present: bool, contentFormat: nat, renewal: bool) returns (outcome: Admission)
      modifies this
      ensures (View(), outcome)
           == NextAdmission(old(View()), number, at, if present then Some(contentFormat) else None, renewal)
    {
      if number > 0xff_ffff || at < 0 { return Unusable; }
      if !known {
        known, observe, receivedAt, format, formatPresent := true, number, at, contentFormat, present;
        return Newer;
      }
      if !renewal {
        var elapsed := if at >= receivedAt then at - receivedAt else 0;
        var difference := MaskedDifference(number, observe);
        if elapsed <= 128000 && (number == observe || difference >= 0x80_0000) { return Stale; }
      }
      if present != formatPresent || (present && contentFormat != format) { return Changed; }
      observe, receivedAt := number, at;
      return Newer;
    }
  }
}
