/**
 The context store as store.c implements it: one byte buffer edited in place and a staged commit
 of system calls. Every method is shown to be a run of the store machine, so the histories of
 StoreSafety are histories of this code.
 */
module ContextStore {
  import opened Bytes
  import opened Identity
  import opened Registry
  import opened Disk
  import opened StoreMachine

  lemma RunAppends(c: Crypto, s: System, events: seq<Event>, e: Event)
    ensures Run(c, s, events + [e]) == Apply(c, Run(c, s, events), e)
  {
    assert (events + [e])[..|events|] == events;
  }

  lemma {:induction false} RunConcatenates(c: Crypto, s: System, first: seq<Event>, second: seq<Event>)
    ensures Run(c, s, first + second) == Run(c, Run(c, s, first), second)
  {
    hide Apply;
    if second == [] {
      assert first + second == first;
    } else {
      var rest, e := second[..|second| - 1], second[|second| - 1];
      RunConcatenates(c, s, first, rest);
      assert first + second == (first + rest) + [e];
      RunAppends(c, s, first + rest, e);
    }
  }

  /** The owner an owner becomes when a persist step succeeds. */
  function Onward(o: Owner, step: Step): Owner
    requires o.stage.Persisting?
  {
    o.(stage := o.stage.(step := step))
  }

  lemma PersistEvent(c: Crypto, s: System, o: Owner, e: Event)
    requires Inv(c, s) && s.owner == Some(o) && o.stage.Persisting?
    requires e.PendingRemoved? || e.PendingOpened? || e.PendingWritten? || e.PendingSynced? ||
             e.PendingRenamed? || e.DirectorySynced? || e.StepFailed?
    ensures ValidMaterial(o.material) && Apply(c, s, e) == PersistStep(c, s, o, e)
  {
    hide DiskInv, HistoryInv, Writable, Serving, Unused, FileBytes, PersistStep;
  }

  lemma WriteEvent(c: Crypto, s: System, o: Owner, amount: nat)
    requires Inv(c, s) && s.owner == Some(o) && o.stage.Persisting? && o.stage.step == Writing
    requires s.disk.pending.Some?
    requires |s.disk.pending.value.bytes| + amount <= |FileBytes(c.sha, o.records)|
    ensures var end := |s.disk.pending.value.bytes| + amount;
            Apply(c, s, PendingWritten(amount))
            == s.(disk := WritePending(s.disk, FileBytes(c.sha, o.records)[..end]))
  {
    hide Inv, Apply, FileBytes;
    PersistEvent(c, s, o, PendingWritten(amount));
  }

  /** Any event of a live owner other than a crash reaches its own step. */
  lemma OwnerEvent(c: Crypto, s: System, o: Owner, e: Event)
    requires Inv(c, s) && s.owner == Some(o)
    requires e.RegistryRead? || e.Admission? || e.Reserve? || e.Exit?
    ensures ValidMaterial(o.material) && Apply(c, s, e) == OwnerStep(c, s, o, e)
  {
    hide DiskInv, HistoryInv, Writable, Serving, Unused, FileBytes, OwnerStep;
  }

  lemma LoadedFits(c: Crypto, s: System, o: Owner)
    requires Inv(c, s) && s.owner == Some(o) && o.stage.Loaded?
    ensures |o.records| <= MAX_CONTEXTS && forall r :: r in o.records ==> Fits(r)
  {
    hide DiskInv, HistoryInv;
  }

  lemma ReadyRecords(c: Crypto, s: System, o: Owner)
    requires Inv(c, s) && s.owner == Some(o) && o.stage.Ready? && o.failed.None?
    ensures o.records != []
  {
    hide DiskInv, HistoryInv, Serving, IdentityOf;
  }

  lemma RunOfNothing(c: Crypto, s: System)
    ensures Run(c, s, []) == s
  {
  }

  lemma LockEvent(c: Crypto, s: System)
    requires !s.disk.lock && s.disk.registry.None? && s.disk.pending.None?
    ensures Apply(c, s, LockCreated) == s.(disk := CreateLock(s.disk), creator := true)
  {
  }

  lemma LeaseEvent(c: Crypto, s: System, m: Material, initial: nat, newLock: bool)
    requires s.owner.None? && s.disk.lock && (newLock ==> s.creator)
    requires ValidMaterial(m) && 0 < initial <= SEQUENCE_LIMIT
    ensures Apply(c, s, Lease(m, initial, newLock))
         == s.(creator := s.creator && !newLock,
               owner := Some(Owner(m, Leased(newLock), [], 0, initial, None, 0)))
  {
  }

  // ----- the buffer

  lemma PayloadOfOneMore(records: seq<Record>, r: Record)
    ensures Payload(records + [r]) == MAGIC + ToBytes(|records| + 1, 4) + RecordsBytes(records) + RecordBytes(r)
  {
    hide ToBytes, RecordBytes;
    var more := records + [r];
    assert more[..|more| - 1] == records && more[|more| - 1] == r;
    assert RecordsBytes(more) == RecordsBytes(records) + RecordBytes(r);
    hide RecordsBytes;
    Regroup(MAGIC + ToBytes(|more|, 4), RecordsBytes(records), RecordBytes(r));
  }

  /** Raising the last record's boundary changes the last eight payload bytes only. */
  lemma PayloadRaised(records: seq<Record>, boundary: nat)
    requires records != []
    ensures var p := Payload(records);
            Payload(LastRaised(records, boundary)) == p[..|p| - 8] + ToBytes(boundary, 8)
  {
    hide RecordsBytes, ToBytes, RecordBytes, Payload;
    var n := |records| - 1;
    var r := records[n];
    var q := r.(reserved := boundary);
    PayloadOfOneMore(records[..n], r);
    PayloadOfOneMore(records[..n], q);
    assert records == records[..n] + [r] && LastRaised(records, boundary) == records[..n] + [q];
    RecordTail(r, boundary);
    TailReplaced(MAGIC + ToBytes(n + 1, 4) + RecordsBytes(records[..n]),
                 RecordBytes(r), RecordBytes(q), ToBytes(boundary, 8));
  }

  lemma RecordTail(r: Record, boundary: nat)
    ensures |RecordBytes(r)| == 104
            && RecordBytes(r.(reserved := boundary)) == RecordBytes(r)[..96] + ToBytes(boundary, 8)
  {
    var names := r.identity.context + r.identity.senderSpace + r.identity.recipientSpace;
    assert RecordBytes(r)[..96] == names;
  }

  lemma TailReplaced<T>(head: seq<T>, before: seq<T>, after: seq<T>, tail: seq<T>)
    requires |before| == 104 && after == before[..96] + tail
    ensures var p := head + before; head + after == p[..|p| - 8] + tail
  {
  }

  /** Where record `i` lies in the payload. */
  lemma RecordInPayload(records: seq<Record>, i: nat)
    requires i < |records|
    ensures var start := 12 + i * 104;
            && start + 104 <= |Payload(records)|
            && Payload(records)[start..start + 104] == RecordBytes(records[i])
  {
    RecordsBytesSlice(records, i);
    var start := 12 + i * 104;
    assert Payload(records)[start..start + 104]
        == RecordsBytes(records)[104 * i..104 * (i + 1)];
  }

  lemma PayloadParts(records: seq<Record>, buffer: seq<Byte>)
    requires 12 + 104 * |records| <= |buffer| && buffer[..12 + 104 * |records|] == Payload(records)
    ensures buffer[..8] == MAGIC && buffer[12..12 + 104 * |records|] == RecordsBytes(records)
  {
    hide RecordsBytes, ToBytes;
    var payload := Payload(records);
    assert payload[..8] == MAGIC && payload[12..] == RecordsBytes(records);
    SameSlices(buffer, payload, 0, 8);
    SameSlices(buffer, payload, 12, |payload|);
  }

  lemma SameSlices<T>(buffer: seq<T>, bytes: seq<T>, i: nat, j: nat)
    requires |bytes| <= |buffer| && buffer[..|bytes|] == bytes && i <= j <= |bytes|
    ensures buffer[i..j] == bytes[i..j]
  {
    forall k | i <= k < j ensures buffer[k] == bytes[k] { assert buffer[..|bytes|][k] == buffer[k]; }
  }

  lemma Extended<T>(before: seq<T>, after: seq<T>, bytes: seq<T>, offset: nat, amount: nat)
    requires offset + amount <= |bytes| <= |before| && before[..offset] == bytes[..offset]
    requires after == before[..offset] + bytes[offset..offset + amount] + before[offset + amount..]
    ensures after[..offset + amount] == bytes[..offset + amount]
  {
    assert bytes[..offset + amount] == bytes[..offset] + bytes[offset..offset + amount];
  }

  /** A record copied behind the others, and then the count written over the old one. */
  lemma RecordWritten(before: seq<Byte>, between: seq<Byte>, after: seq<Byte>, start: nat, bytes: seq<Byte>,
                      field: seq<Byte>)
    requires 12 <= start && start + |bytes| <= |before| && |field| == 4
    requires between == before[..start] + bytes + before[start + |bytes|..]
    requires after == between[..8] + field + between[12..]
    ensures after[..start + |bytes|] == before[..8] + field + before[12..start] + bytes
  {
    var end := start + |bytes|;
    assert between[..8] == before[..8];
    assert between[12..][..end - 12] == between[12..end] == before[12..start] + bytes;
    PrefixOfThree(between[..8], field, between[12..], end - 12);
    Regroup(before[..8] + field, before[12..start], bytes);
  }

  lemma PrefixOfThree<T>(a: seq<T>, b: seq<T>, c: seq<T>, n: nat)
    requires n <= |c|
    ensures (a + b + c)[..|a| + |b| + n] == a + b + c[..n]
  {
  }

  lemma Regroup<T>(a: seq<T>, b: seq<T>, c: seq<T>)
    ensures a + (b + c) == a + b + c
  {
  }

  lemma SliceOfSlice<T>(s: seq<T>, start: nat, size: nat, i: nat, j: nat)
    requires start + size <= |s| && i <= j <= size
    ensures s[start..start + size][i..j] == s[start + i..start + j]
  {
    var left, right := s[start..start + size][i..j], s[start + i..start + j];
    assert |left| == |right|;
    assert forall k :: 0 <= k < |left| ==> left[k] == right[k];
  }

  lemma EmptyPayload()
    ensures Payload([]) == MAGIC + ToBytes(0, 4)
  {
  }

  /** memcpy into the buffer. */
  method Copy(buffer: array<Byte>, start: nat, bytes: seq<Byte>)
    requires start + |bytes| <= buffer.Length
    modifies buffer
    ensures buffer[..] == old(buffer[..start]) + bytes + old(buffer[start + |bytes|..])
  {
    for i := 0 to |bytes|
      invariant buffer[..start] == old(buffer[..start])
      invariant buffer[start..start + i] == bytes[..i]
      invariant buffer[start + i..] == old(buffer[start + i..])
    {
      buffer[start + i] := bytes[i];
    }
    assert buffer[..] == buffer[..start] + buffer[start..start + |bytes|] + buffer[start + |bytes|..];
  }

  class Store {
    const c: Crypto
    const registry: array<Byte>
    var length: nat
    var count: nat
    var boundary: nat
    var failed: Status
    /** The directory as this process sees it. */
    var disk: Disk
    /** The whole history this process is part of. */
    ghost var sys: System

    ghost predicate Valid()
      reads this
    {
      registry.Length == REGISTRY_MAX && sys.disk == disk && Inv(c, sys)
    }

    /** The buffer spells the owner's records, up to the digest. */
    ghost predicate Buffered(records: seq<Record>)
      reads this`length, this`count, registry
    {
      && registry.Length == REGISTRY_MAX
      && count == |records| <= MAX_CONTEXTS
      && length == 12 + 104 * count + 32
      && registry[..length - 32] == Payload(records)
    }

    /** This process holds the lease and its fields agree with the machine's owner. */
    ghost predicate Holding()
      reads this, registry
    {
      && Valid()
      && sys.owner.Some?
      && Buffered(sys.owner.value.records)
      && boundary == sys.owner.value.boundary
      && sys.owner.value.failed == (if failed == Ok then None else Some(failed))
    }

    constructor (c: Crypto, disk: Disk, ghost sys: System)
      requires Inv(c, sys) && sys.disk == disk
      ensures Valid() && this.c == c && this.disk == disk && this.sys == sys
      ensures fresh(registry)
    {
      this.c := c;
      this.disk := disk;
      this.sys := sys;
      registry := new Byte[REGISTRY_MAX];
      length, count, boundary, failed := 0, 0, 0, Ok;
    }

    /** The machine's owner while `persist` runs. */
    ghost predicate At(o: Owner, step: Step)
      requires o.stage.Persisting?
      reads this, registry
    {
      && Valid()
      && Buffered(o.records)
      && sys.owner == Some(Onward(o, step))
    }

    /** Records one system call in the history; the directory it left is `disk`. */
    ghost method Log(events: seq<Event>, e: Event, start: System) returns (more: seq<Event>)
      requires Inv(c, sys) && sys == Run(c, start, events)
      requires disk == Apply(c, sys, e).disk
      modifies this`sys
      ensures more == events + [e]
      ensures sys == Apply(c, old(sys), e) == Run(c, start, more)
      ensures sys.disk == disk && Inv(c, sys)
    {
      hide Apply, Inv;
      ApplyKeepsInv(c, sys, e);
      RunAppends(c, start, events, e);
      sys := Apply(c, sys, e);
      more := events + [e];
    }

    /** The write loop: any sequence of short writes, until done or an error. */
    method WriteAll(ghost o: Owner, ghost start: System, ghost before: seq<Event>)
      returns (done: bool, ghost events: seq<Event>)
      requires o.stage.Persisting? && At(o, Writing)
      requires disk.pending == Some(File([], false))
      requires registry[..length] == FileBytes(c.sha, o.records)
      requires sys == Run(c, start, before)
      modifies this`disk, this`sys
      ensures At(o, Writing) && sys == Run(c, start, events)
      ensures sys == old(sys).(disk := disk)
      ensures done ==> disk.pending == Some(File(FileBytes(c.sha, o.records), false))
    {
      hide Inv, FileBytes, Payload, Apply, Run;
      events := before;
      var offset: nat := 0;
      done := true;
      while offset < length && done
        invariant offset <= length
        invariant At(o, Writing) && sys == Run(c, start, events)
        invariant sys == old(sys).(disk := disk)
        invariant registry[..length] == FileBytes(c.sha, o.records)
        invariant disk.pending == Some(File(registry[..offset], false))
        decreases length - offset, done
      {
        var written: bool := *;
        if written {
          var amount: nat :| 0 < amount <= length - offset;
          offset := offset + amount;
          disk := WritePending(disk, registry[..offset]);
          assert registry[..length][..offset] == registry[..offset];
          WriteEvent(c, sys, sys.owner.value, amount);
          events := Log(events, PendingWritten(amount), start);
        } else {
          done := false;
        }
      }
    }

    /** A step of `persist` failed: the pending file is removed if it can be. */
    method FailPersist(corrupt: bool, ghost o: Owner, ghost step: Step, ghost start: System, ghost before: seq<Event>)
      returns (status: Status, ghost events: seq<Event>)
      requires o.stage.Persisting? && At(o, step) && sys == Run(c, start, before)
      modifies this`disk, this`sys
      ensures Valid() && sys == Run(c, start, events)
      ensures status == if corrupt then Corrupt else Unavailable
      ensures sys == old(sys).(disk := disk, owner := sys.owner)
      ensures sys.owner == if o.stage.opening then None else Some(o.(stage := Ready, failed := Some(status)))
    {
      hide Inv, Apply, Run, FileBytes, Payload;
      var removed: bool := *;
      var e := StepFailed(corrupt, removed);
      PersistEvent(c, sys, sys.owner.value, e);
      if removed { disk := RemovePending(disk); }
      status := if corrupt then Corrupt else Unavailable;
      events := Log(before, e, start);
    }

    /** What a failed `persist` leaves: a closed owner, or one that is poisoned for good. */
    ghost predicate Failed(o: Owner, start: System, status: Status)
      requires o.stage.Persisting?
      reads this
    {
      && (status == Corrupt || status == Unavailable)
      && sys == start.(disk := disk, owner := sys.owner)
      && sys.owner == if o.stage.opening then None else Some(o.(stage := Ready, failed := Some(status)))
    }

    /** One system call of `persist` that succeeded. */
    method Call(e: Event, ghost o: Owner, ghost step: Step, ghost next: Step, after: Disk,
                ghost start: System, ghost before: seq<Event>)
      returns (ghost events: seq<Event>)
      requires o.stage.Persisting? && At(o, step) && sys == Run(c, start, before)
      requires e.PendingRemoved? || e.PendingOpened? || e.PendingSynced? || e.PendingRenamed?
      requires ValidMaterial(o.material)
      requires PersistStep(c, sys, Onward(o, step), e) == WithDisk(sys, after, Onward(o, step), next)
      modifies this`disk, this`sys
      ensures At(o, next) && sys == Run(c, start, events) && disk == after
      ensures sys == old(sys).(disk := disk, owner := sys.owner)
    {
      hide Inv, Apply, Run, FileBytes, Payload, PersistStep;
      PersistEvent(c, sys, sys.owner.value, e);
      disk := after;
      events := Log(before, e, start);
    }

    /** Up to an empty pending file; the digest goes into the buffer on the way. */
    method OpenPending(ghost o: Owner, ghost start: System)
      returns (ok: bool, corrupt: bool, ghost step: Step, ghost events: seq<Event>)
      requires o.stage.Persisting? && At(o, Start) && sys == start
      requires ValidMaterial(o.material)
      modifies registry, this`disk, this`sys
      ensures At(o, step) && sys == Run(c, start, events)
      ensures sys == old(sys).(disk := disk, owner := sys.owner)
      ensures ok ==> step == Writing && registry[..length] == FileBytes(c.sha, o.records)
      ensures ok ==> disk == old(disk).(pending := Some(File([], false)))
    {
      hide Inv, Apply, Payload;
      step, events := Start, [];
      ok := *; // the registry is still ours and no pending file is in the way
      corrupt := !ok;
      if ok {
        events := Call(PendingRemoved, o, Start, Cleared, RemovePending(disk), start, events);
        step := Cleared;
        Copy(registry, length - 32, c.sha(registry[..length - 32]));
        assert registry[..length - 32] == old(registry[..length - 32]);
        assert registry[..length] == FileBytes(c.sha, o.records);
        ok := *;
        if ok {
          events := Call(PendingOpened, o, Cleared, Writing, CreatePending(disk), start, events);
          step := Writing;
        }
      }
    }

    /** From an empty pending file to the renamed registry. */
    method FillAndRename(ghost o: Owner, ghost start: System, ghost before: seq<Event>)
      returns (ok: bool, ghost step: Step, ghost events: seq<Event>)
      requires o.stage.Persisting? && At(o, Writing) && sys == Run(c, start, before)
      requires ValidMaterial(o.material)
      requires registry[..length] == FileBytes(c.sha, o.records)
      requires disk.pending == Some(File([], false))
      modifies this`disk, this`sys
      ensures At(o, step) && sys == Run(c, start, events)
      ensures sys == old(sys).(disk := disk, owner := sys.owner)
      ensures ok ==> step == Renamed && disk.registry == Some(File(FileBytes(c.sha, o.records), true))
    {
      hide Inv, Apply, Run, Payload, FileBytes;
      step := Writing;
      ok, events := WriteAll(o, start, before);
      if ok {
        ok := *;
        if ok {
          events := Call(PendingSynced, o, Writing, FileSynced, SyncPending(disk), start, events);
          step := FileSynced;
          ok := *;
          if ok {
            events := Call(PendingRenamed, o, FileSynced, Renamed, RenamePending(disk), start, events);
            step := Renamed;
          }
        }
      }
    }

    /**
     `persist`: write and sync a pending file, rename it over the registry, sync the directory.
     Any step may fail; only the last one succeeding is success.
     */
    method Persist(ghost o: Owner) returns (status: Status, ghost events: seq<Event>)
      requires o.stage.Persisting? && At(o, Start) && ValidMaterial(o.material)
      modifies registry, this`disk, this`sys
      ensures Valid() && Buffered(o.records) && sys == Run(c, old(sys), events)
      ensures status == Ok ==> sys == Committed(c, old(sys), o).(disk := disk)
      ensures status == Ok ==>
                disk.registry == Some(File(FileBytes(c.sha, o.records), true)) && disk.survivors == {disk.registry}
      ensures status != Ok ==> Failed(o, old(sys), status)
    {
      hide Inv, Apply, Run, Payload, FileBytes, Committed;
      ghost var start, step := sys, Start;
      var ok, corrupt := false, false;
      ok, corrupt, step, events := OpenPending(o, start);
      if ok {
        ok, step, events := FillAndRename(o, start, events);
        if ok {
          ok := *;
          if ok {
            events := SyncRenamed(o, start, events);
            return Ok, events;
          }
        }
      }
      status, events := FailPersist(corrupt, o, step, start, events);
    }

    /** The last step: the directory is synced, and the caller is told so. */
    method SyncRenamed(ghost o: Owner, ghost start: System, ghost before: seq<Event>) returns (ghost events: seq<Event>)
      requires o.stage.Persisting? && At(o, Renamed) && sys == Run(c, start, before) && ValidMaterial(o.material)
      requires disk.registry == Some(File(FileBytes(c.sha, o.records), true))
      requires sys == start.(disk := disk, owner := sys.owner)
      modifies this`disk, this`sys
      ensures Valid() && sys == Run(c, start, events)
      ensures sys == Committed(c, start, o).(disk := disk)
      ensures disk.registry == old(disk.registry) && disk.survivors == {disk.registry}
    {
      hide Inv, Apply, Run, Payload, FileBytes, IdentityOf;
      PersistEvent(c, sys, sys.owner.value, DirectorySynced);
      disk := SyncDirectory(disk);
      events := Log(before, DirectorySynced, start);
    }

    /** One record out of the buffer. */
    method RecordAt(index: nat, ghost records: seq<Record>) returns (r: Record)
      requires Buffered(records) && index < count && Fits(records[index])
      ensures r == records[index]
    {
      hide Payload, RecordBytes;
      var start := 12 + 104 * index;
      ghost var bytes := registry[start..start + 104];
      assert bytes == RecordBytes(records[index]) by {
        RecordInPayload(records, index);
        assert bytes == registry[..length - 32][start..start + 104];
      }
      RecordReadsBack(records[index]);
      var reserved := Integer(registry, start + 96, 8);
      var all := registry[..];
      assert bytes == all[start..start + 104];
      assert registry[start + 96..start + 104] == all[start + 96..start + 104];
      SliceOfSlice(all, start, 104, 0, 32);
      SliceOfSlice(all, start, 104, 32, 64);
      SliceOfSlice(all, start, 104, 64, 96);
      SliceOfSlice(all, start, 104, 96, 104);
      r := Record(Identity(all[start..start + 32], all[start + 32..start + 64], all[start + 64..start + 96]), reserved);
    }

    /** The loop of `admit` over the buffer. */
    method Screened(identity: Identity, ghost records: seq<Record>) returns (status: Status)
      requires Buffered(records) && forall r :: r in records ==> Fits(r)
      ensures status == Screen(records, identity)
    {
      hide Payload, Overlaps, Fits;
      for index := 0 to count
        invariant Screen(records, identity) == Screen(records[index..], identity)
      {
        var r := RecordAt(index, records);
        assert records[index..][0] == r && records[index..][1..] == records[index + 1..];
        if r.reserved == 0 || r.reserved > SEQUENCE_LIMIT { return Corrupt; }
        if Overlaps(r.identity, identity) { return FreshRequired; }
      }
      status := Ok;
    }

    /** `admit` after its loop: one more record and a new count, in place. */
    method AppendRecord(r: Record, ghost records: seq<Record>)
      requires Buffered(records) && |records| < MAX_CONTEXTS
      modifies registry, this`length, this`count
      ensures Buffered(records + [r])
    {
      hide RecordsBytes, RecordBytes, Payload, ToBytes;
      PayloadOfOneMore(records, r);
      var start := 12 + 104 * count;
      var bytes := RecordBytes(r);
      ghost var before := registry[..];
      assert before[..start] == Payload(records);
      PayloadParts(records, before);
      Copy(registry, start, bytes);
      ghost var between := registry[..];
      count := count + 1;
      Encode(registry, 8, count, 4);
      length := 12 + 104 * count + 32;
      RecordWritten(before, between, registry[..], start, bytes, ToBytes(count, 4));
    }

    /** `wco_store_reserve`'s edit: the last record's boundary, in place. */
    method RaiseLast(upTo: nat, ghost records: seq<Record>)
      requires Buffered(records) && records != []
      modifies registry
      ensures Buffered(LastRaised(records, upTo))
    {
      hide Payload;
      PayloadRaised(records, upTo);
      Encode(registry, 12 + (count - 1) * 104 + 96, upTo, 8);
      assert registry[..length - 32]
          == old(registry[..length - 32])[..length - 32 - 8] + ToBytes(upTo, 8);
    }

    /** The read loop and the checks of `read_registry` on an existing file. */
    method LoadFile(bytes: seq<Byte>) returns (status: Status, whole: bool, ghost records: seq<Record>)
      requires registry.Length == REGISTRY_MAX
      modifies registry, this`length, this`count
      ensures status == Ok ==> whole && ReadFile(c.sha, bytes) == Some(records) && Buffered(records)
      ensures status != Ok ==> status == Corrupt && (whole ==> ReadFile(c.sha, bytes).None?)
    {
      hide ReadRecords, RecordsBytes, ToBytes;
      records, whole := [], true;
      if |bytes| < 12 + 32 || |bytes| > REGISTRY_MAX { return Corrupt, whole, records; }
      length := |bytes|;
      whole := Fill(bytes);
      if !whole { return Corrupt, whole, records; }
      ghost var buffer := registry[..];
      SameSlices(buffer, bytes, 0, 8);
      if registry[..8] != MAGIC { return Corrupt, whole, records; }
      count := Integer(registry, 8, 4);
      SameSlices(buffer, bytes, 8, 12);
      if count == 0 || count > MAX_CONTEXTS || length != 12 + 104 * count + 32 { return Corrupt, whole, records; }
      var digest := c.sha(registry[..length - 32]);
      SameSlices(buffer, bytes, 0, length - 32);
      SameSlices(buffer, bytes, length - 32, length);
      assert bytes[length - 32..length] == bytes[length - 32..];
      if digest != registry[length - 32..length] { return Corrupt, whole, records; }
      status, records := Ok, ReadFile(c.sha, bytes).value;
      ReadAfterWrite(c.sha, bytes, records);
      assert Payload(records) == FileBytes(c.sha, records)[..length - 32];
    }

    /** Reads of any size, until the whole file is in or one fails. */
    method Fill(bytes: seq<Byte>) returns (whole: bool)
      requires |bytes| <= registry.Length
      modifies registry
      ensures whole ==> registry[..|bytes|] == bytes
    {
      var offset: nat := 0;
      while offset < |bytes|
        invariant offset <= |bytes| && registry[..offset] == bytes[..offset]
      {
        whole := *;
        if !whole { return; }
        var amount: nat :| 0 < amount <= |bytes| - offset;
        ghost var before := registry[..];
        Copy(registry, offset, bytes[offset..offset + amount]);
        Extended(before, registry[..], bytes, offset, amount);
        offset := offset + amount;
      }
      assert bytes[..offset] == bytes;
      return true;
    }

    /** `read_registry`, with an absent file acceptable to the creator of the lock only. */
    method ReadRegistry(newLock: bool, ghost start: System, ghost before: seq<Event>)
      returns (status: Status, ghost events: seq<Event>)
      requires Valid() && sys == Run(c, start, before)
      requires sys.owner.Some? && sys.owner.value.stage == Leased(newLock)
      modifies registry, this`length, this`count, this`sys
      ensures Valid() && sys == Run(c, start, events)
      ensures sys == old(sys).(owner := sys.owner)
      ensures status == Ok ==>
                && sys.owner.Some? && Buffered(sys.owner.value.records)
                && sys.owner.value == old(sys.owner.value).(stage := Loaded, records := sys.owner.value.records)
                && (disk.registry.None? ==> newLock)
      ensures status != Ok ==> status == Corrupt && sys.owner.None?
    {
      hide Inv, Apply, Run, ReadFile, Payload;
      ghost var o := sys.owner.value;
      var whole := true;
      ghost var records: seq<Record> := [];
      if disk.registry.None? {
        if newLock {
          Copy(registry, 0, MAGIC);
          Encode(registry, 8, 0, 4);
          length, count := 12 + 32, 0;
          EmptyPayload();
          assert registry[..12] == MAGIC + ToBytes(0, 4);
          status := Ok;
        } else { status := Corrupt; }
      } else if newLock {
        status := Corrupt;
      } else {
        status, whole, records := LoadFile(disk.registry.value.bytes);
      }
      if whole {
        OwnerEvent(c, sys, o, RegistryRead);
        events := Log(before, RegistryRead, start);
      } else {
        OwnerEvent(c, sys, o, Exit);
        events := Log(before, Exit, start);
      }
    }

    /** `admit`: screen, append, persist. */
    method Admit(identity: Identity, initial: nat, ghost start: System, ghost before: seq<Event>)
      returns (status: Status, ghost events: seq<Event>)
      requires Valid() && sys == Run(c, start, before)
      requires sys.owner.Some? && sys.owner.value.stage == Loaded && Buffered(sys.owner.value.records)
      requires var o := sys.owner.value;
               ValidMaterial(o.material) && identity == IdentityOf(c, o.material) && initial == o.wanted
      modifies registry, this`length, this`count, this`disk, this`sys
      ensures Valid() && sys == Run(c, start, events)
      ensures status != Ok ==> sys.owner.None? && sys.admitted == old(sys.admitted)
      ensures status == Ok ==> sys.admitted == old(sys.admitted) + [old(sys.owner.value.material)]
      ensures status == Ok ==>
                var o := old(sys.owner.value);
                && sys.owner.Some? && Buffered(sys.owner.value.records)
                && sys.owner.value == o.(stage := Ready, boundary := initial,
                                         records := o.records + [Registry.Record(identity, initial)])
      ensures var expected := AdmitStatus(old(sys.owner.value.records), identity);
              expected != Ok ==> status == expected
    {
      hide Inv, Apply, Run, Payload, FileBytes, IdentityOf, Screen;
      ghost var o := sys.owner.value;
      LoadedFits(c, sys, o);
      OwnerEvent(c, sys, o, Admission);
      status := Screened(identity, o.records);
      if status == Ok && count == MAX_CONTEXTS { status := Full; }
      if status != Ok {
        events := Log(before, Admission, start);
      } else {
        AppendRecord(Registry.Record(identity, initial), o.records);
        events := Log(before, Admission, start);
        ghost var more;
        status, more := Persist(sys.owner.value);
        RunConcatenates(c, start, events, more);
        events := events + more;
      }
    }

    /**
     `wco_store_open` on an unlocked directory. A lock is created only where neither registry nor
     pending file exists; success means the identity is durably consumed.
     */
    method Open(identity: Identity, initial: nat, held: bool, ghost m: Material)
      returns (status: Status, ghost events: seq<Event>)
      requires Valid() && held == sys.owner.Some?
      requires ValidMaterial(m) && identity == IdentityOf(c, m)
      modifies registry, this
      ensures Valid() && sys == Run(c, old(sys), events)
      ensures status == Ok ==> Holding() && sys.owner.value.stage == Ready && boundary == initial
      ensures status == Ok ==> sys.admitted == old(sys.admitted) + [m] && 0 < initial <= SEQUENCE_LIMIT
      ensures status != Ok ==> sys.admitted == old(sys.admitted) && (sys.owner == if held then old(sys.owner) else None)
      ensures status == Ok && old(disk.registry).None? ==> !old(disk.lock)
    {
      hide Inv, Apply, Run, Payload, FileBytes, IdentityOf, Buffered;
      events := [];
      ghost var start := sys;
      RunOfNothing(c, start);
      if initial == 0 || initial > SEQUENCE_LIMIT { return Invalid, events; }
      var newLock := !disk.lock;
      if newLock {
        if disk.registry.Some? || disk.pending.Some? { return Corrupt, events; }
        LockEvent(c, sys);
        disk := CreateLock(disk);
        events := Log(events, LockCreated, start);
      }
      if held { return Locked, events; }
      LeaseEvent(c, sys, m, initial, newLock);
      events := Log(events, Lease(m, initial, newLock), start);
      status, events := ReadRegistry(newLock, start, events);
      if status == Ok {
        status, events := Admit(identity, initial, start, events);
        if status == Ok { boundary, failed := initial, Ok; }
      }
    }

    /**
     `wco_store_reserve`: OK means the boundary is durable and on record; a failure sticks, and
     from then on every call answers with it and changes nothing.
     */
    method Reserve(upTo: nat) returns (status: Status, ghost events: seq<Event>)
      requires Holding() && sys.owner.value.stage == Ready
      modifies registry, this
      ensures Holding() && sys.owner.value.stage == Ready
      ensures sys == Run(c, old(sys), events) && sys.admitted == old(sys.admitted)
      ensures old(failed) != Ok ==> status == old(failed) && sys == old(sys) && failed == old(failed)
      ensures old(failed) == Ok && (upTo == 0 || upTo > SEQUENCE_LIMIT) ==> status == Exhausted
      ensures status == Ok <==> failed == Ok
      ensures status == Ok ==> boundary == (if upTo <= old(boundary) then old(boundary) else upTo)
      ensures status == Ok ==>
                && ValidMaterial(sys.owner.value.material)
                && sys.confirmed == old(sys.confirmed) + [(IdentityOf(c, sys.owner.value.material), upTo)]
      ensures status != Ok ==> failed == status && boundary == old(boundary) && sys.confirmed == old(sys.confirmed)
    {
      hide Inv, Apply, Run, Payload, FileBytes, IdentityOf, Buffered;
      events := [];
      ghost var start, o := sys, sys.owner.value;
      RunOfNothing(c, start);
      if failed != Ok { return failed, events; }
      OwnerEvent(c, sys, o, Event.Reserve(upTo));
      ReadyRecords(c, sys, o);
      if upTo == 0 || upTo > SEQUENCE_LIMIT {
        failed := Exhausted;
        events := Log(events, Event.Reserve(upTo), start);
        return failed, events;
      }
      if upTo <= boundary {
        events := Log(events, Event.Reserve(upTo), start);
        return Ok, events;
      }
      RaiseLast(upTo, o.records);
      events := Log(events, Event.Reserve(upTo), start);
      ghost var more;
      status, more := Persist(sys.owner.value);
      RunConcatenates(c, start, events, more);
      events := events + more;
      if status == Ok { boundary := upTo; } else { failed := status; }
    }
  }
}
