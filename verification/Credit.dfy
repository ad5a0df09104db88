/** The report window the owner opens by acknowledging reports (credit.c). */
module Credit {
  const NUMBER_MAX: nat := 0xffff_ffff_ffff_ffff

  datatype Credit = Credit(generation: nat, issued: nat, written: nat, acknowledged: nat, started: bool, failed: bool)

  function Initial(generation: nat): Credit {
    Credit(generation, 0, 0, 0, false, generation == 0)
  }

  function Gap(a: int, b: int): int { a - b }

  /** The source's unsigned arithmetic: a difference of 64-bit numbers, cut to 32 bits. */
  function Available(c: Credit): nat {
    if c.failed || !c.started then 0
    else (8 - Gap(c.issued, c.acknowledged) % 0x1_0000_0000_0000_0000 % 0x1_0000_0000) % 0x1_0000_0000
  }

  function Reject(c: Credit): Credit { c.(failed := true) }

  function Acknowledge(c: Credit, generation: nat, number: nat): (Credit, bool) {
    if c.failed || generation != c.generation then (Reject(c), false)
    else if !c.started then
      if number != 0 then (Reject(c), false) else (c.(started := true), true)
    else if number > c.written then (Reject(c), false)
    else (if number > c.acknowledged then c.(acknowledged := number) else c, true)
  }

  datatype Grant = Granted(number: nat) | Wait | Exhausted | Invalid

  function Assign(c: Credit): (Credit, Grant) {
    if c.failed then (Reject(c), Invalid)
    else if c.issued == NUMBER_MAX then (Reject(c), Exhausted)
    else if Available(c) == 0 then (c, Wait)
    else (c.(issued := c.issued + 1), Granted(c.issued + 1))
  }

  function Write(c: Credit, number: nat): (Credit, bool) {
    if c.failed || c.written == NUMBER_MAX || number != c.written + 1 || number > c.issued then (Reject(c), false)
    else (c.(written := number), true)
  }

  /** What every call keeps: acknowledgements trail writes, writes trail assignments, by at most the window. */
  predicate Ordered(c: Credit) {
    && c.acknowledged <= c.written <= c.issued <= c.acknowledged + 8
    && c.issued <= NUMBER_MAX
    && (!c.started ==> c.issued == 0)
  }

  /** The window never underflows: it is what is left of eight, and it is zero exactly when it is shut. */
  lemma WindowNeverUnderflows(c: Credit)
    requires Ordered(c) && c.started && !c.failed
    ensures Available(c) == 8 - (c.issued - c.acknowledged) <= 8
  {
  }

  lemma AcknowledgeKeepsOrder(c: Credit, generation: nat, number: nat)
    requires Ordered(c)
    ensures var (d, ok) := Acknowledge(c, generation, number);
            && Ordered(d) && d.issued == c.issued && d.written == c.written
            && ok == (!d.failed) && (c.failed ==> !ok)
            && (ok && c.started ==> number <= c.written && d.acknowledged >= number)
            && (ok && !c.started ==> number == 0)
  {
  }

  lemma AssignKeepsOrder(c: Credit)
    requires Ordered(c)
    ensures var (d, grant) := Assign(c);
            && Ordered(d) && d.written == c.written && d.acknowledged == c.acknowledged
            && (grant.Granted? ==> c.started && d.issued == c.issued + 1 == grant.number <= c.acknowledged + 8)
            && (!grant.Granted? ==> d.issued == c.issued)
            && (grant.Wait? <==> !c.failed && c.issued < NUMBER_MAX && (!c.started || c.issued == c.acknowledged + 8))
  {
    if c.started && !c.failed { WindowNeverUnderflows(c); }
  }

  /** A write is accepted exactly for the next number after the last written one, if it was issued. */
  lemma WriteIsExact(c: Credit, number: nat)
    requires Ordered(c)
    ensures var (d, ok) := Write(c, number);
            && Ordered(d)
            && (ok <==> !c.failed && number == c.written + 1 <= c.issued)
            && (ok ==> d == c.(written := c.written + 1))
  {
  }

  class Account {
    var generation: nat
    var issued: nat
    var written: nat
    var acknowledged: nat
    var started: bool
    var failed: bool

    ghost function View(): Credit
      reads this
    {
      Credit(generation, issued, written, acknowledged, started, failed)
    }

    constructor (number: nat)
      ensures View() == Initial(number)
    {
      generation, issued, written, acknowledged := number, 0, 0, 0;
      started, failed := false, number == 0;
    }

    /** Before any generation is opened. */
    constructor Zeroed()
      ensures View() == Credit(0, 0, 0, 0, false, false)
    {
      generation, issued, written, acknowledged := 0, 0, 0, 0;
      started, failed := false, false;
    }

    method Window() returns (count: nat)
      ensures count == Available(View())
    {
      if failed || !started { return 0; }
      var outstanding := Gap(issued, acknowledged) % 0x1_0000_0000_0000_0000;
      count := (8 - outstanding % 0x1_0000_0000) % 0x1_0000_0000;
    }

    method Ack(number: nat, sequence: nat) returns (ok: bool)
      modifies this
      ensures (View(), ok) == Acknowledge(old(View()), number, sequence)
    {
      if failed || number != generation {
        failed := true;
        return false;
      }
      if !started {
        if sequence != 0 {
          failed := true;
          return false;
        }
        started := true;
        return true;
      }
      if sequence > written {
        failed := true;
        return false;
      }
      if sequence > acknowledged { acknowledged := sequence; }
      return true;
    }

    method Next() returns (grant: Grant)
      modifies this
      ensures (View(), grant) == Assign(old(View()))
    {
      if failed { return Invalid; }
      if issued == NUMBER_MAX {
        failed := true;
        return Exhausted;
      }
      var count := Window();
      if count == 0 { return Wait; }
      issued := issued + 1;
      return Granted(issued);
    }

    method Wrote(sequence: nat) returns (ok: bool)
      modifies this
      ensures (View(), ok) == Write(old(View()), sequence)
    {
      if failed || written == NUMBER_MAX || sequence != written + 1 || sequence > issued {
        failed := true;
        return false;
      }
      written := sequence;
      return true;
    }
  }
}
