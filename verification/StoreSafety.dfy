/** What the context store promises over every history of processes and crashes. */
module StoreSafety {
  import opened Bytes
  import opened Identity
  import opened Registry
  import opened Disk
  import opened StoreMachine

  lemma {:induction false} RunKeepsInv(c: Crypto, s: System, events: seq<Event>)
    requires Inv(c, s)
    ensures Inv(c, Run(c, s, events))
  {
    if events != [] {
      RunKeepsInv(c, s, events[..|events| - 1]);
      ApplyKeepsInv(c, Run(c, s, events[..|events| - 1]), events[|events| - 1]);
    }
  }

  lemma EveryHistoryIsSafe(c: Crypto, events: seq<Event>)
    ensures Inv(c, Run(c, INITIAL, events))
  {
    RunKeepsInv(c, INITIAL, events);
  }

  /** Opens that returned OK, over all processes and crashes, had pairwise disjoint identities. */
  lemma NoContextIsAdmittedTwice(c: Crypto, events: seq<Event>, i: nat, j: nat)
    requires i < j < |Run(c, INITIAL, events).admitted|
    ensures var admitted := Run(c, INITIAL, events).admitted;
            && ValidMaterial(admitted[i]) && ValidMaterial(admitted[j])
            && !Overlaps(IdentityOf(c, admitted[i]), IdentityOf(c, admitted[j]))
  {
    hide IdentityOf, Overlaps;
    EveryHistoryIsSafe(c, events);
  }

  // ----- history only grows

  predicate Grown(s: System, t: System) {
    && s.admitted <= t.admitted
    && s.confirmed <= t.confirmed
    && (s.floor != [] ==> Extends(s.floor, t.floor))
  }

  lemma OwnerStepGrows(c: Crypto, s: System, o: Owner, e: Event)
    requires OwnerInv(c, s, o)
    ensures Grown(s, OwnerStep(c, s, o, e))
  {
    hide ReadFile, FileBytes, IdentityOf, Serving, Unused, AdmitStatus, PendingInv, OwnerInv, Grown, PersistStep;
    hide ReadRegistry, Admit, StartReserve;
    OwnerIsValid(c, s, o);
    StillIsGrown(c, s, o);
    match (o.stage, e)
    case (Persisting(_, _), _) => PersistStepGrows(c, s, o, e);
    case (Ready, Reserve(upTo)) => ReserveGrows(c, s, o, upTo);
    case (Ready, Send) => SameIsGrown(s, OwnerStep(c, s, o, e));
    case _ =>
  }

  lemma SameIsGrown(s: System, t: System)
    requires t.admitted == s.admitted && t.confirmed == s.confirmed && t.floor == s.floor
    ensures Grown(s, t)
  {
  }

  lemma StillIsGrown(c: Crypto, s: System, o: Owner)
    requires ValidMaterial(o.material)
    ensures Grown(s, s) && Grown(s, Released(s))
    ensures o.stage.Leased? ==> Grown(s, ReadRegistry(c, s, o))
    ensures o.stage.Loaded? ==> Grown(s, Admit(c, s, o))
  {
    hide ReadFile, IdentityOf, AdmitStatus, Grown;
    SameIsGrown(s, s);
    SameIsGrown(s, Released(s));
    if o.stage.Leased? { SameIsGrown(s, ReadRegistry(c, s, o)); }
    if o.stage.Loaded? { SameIsGrown(s, Admit(c, s, o)); }
  }

  lemma ReserveGrows(c: Crypto, s: System, o: Owner, upTo: nat)
    requires ValidMaterial(o.material)
    ensures Grown(s, StartReserve(c, s, o, upTo))
  {
    hide IdentityOf;
  }

  lemma PersistStepGrows(c: Crypto, s: System, o: Owner, e: Event)
    requires OwnerInv(c, s, o) && o.stage.Persisting?
    ensures Grown(s, PersistStep(c, s, o, e))
  {
    hide ReadFile, FileBytes, IdentityOf, Serving, Unused, PendingInv;
    if o.stage.step == Renamed && e.DirectorySynced? {
      assert PersistStep(c, s, o, e) == Committed(c, s, o);
    } else {
      hide Grown, Committed;
      SameIsGrown(s, PersistStep(c, s, o, e));
    }
  }

  lemma ApplyGrows(c: Crypto, s: System, e: Event)
    requires Inv(c, s)
    ensures Grown(s, Apply(c, s, e))
  {
    hide ReadFile, HistoryInv, OwnerStep, OwnerInv;
    if e.PowerLoss? && e.survivor in s.disk.survivors {
      assert Readable(c.sha, e.survivor);
      assert Recovered(e.survivor, e.garbage) == e.survivor;
      assert s.floor != [] ==> Holds(c.sha, e.survivor, s.floor);
    } else if s.owner.Some? {
      OwnerStepGrows(c, s, s.owner.value, e);
    }
  }

  lemma {:induction false} RunGrows(c: Crypto, s: System, events: seq<Event>)
    requires Inv(c, s)
    ensures Grown(s, Run(c, s, events))
  {
    hide Apply, Inv;
    if events != [] {
      var prefix := events[..|events| - 1];
      RunKeepsInv(c, s, prefix);
      RunGrows(c, s, prefix);
      ApplyGrows(c, Run(c, s, prefix), events[|events| - 1]);
    }
  }

  /**
   A boundary confirmed to a caller is never lost: whatever happens afterwards, every registry a
   crash could leave is readable and records at least that boundary for that identity, and no
   recorded boundary exceeds 2^40.
   */
  lemma ConfirmedBoundariesSurvive(c: Crypto, events: seq<Event>, later: seq<Event>,
                                   p: (Identity, nat), survivor: Option<File>)
    requires p in Run(c, INITIAL, events).confirmed
    requires survivor in Run(c, Run(c, INITIAL, events), later).disk.survivors
    ensures survivor.Some? && ReadFile(c.sha, survivor.value.bytes).Some?
    ensures Recorded(RecordsIn(c.sha, survivor), p.0, p.1)
    ensures forall r :: r in RecordsIn(c.sha, survivor) ==> 0 < r.reserved <= SEQUENCE_LIMIT
  {
    hide Apply, ReadFile, OwnerInv;
    var s := Run(c, INITIAL, events);
    var t := Run(c, s, later);
    EveryHistoryIsSafe(c, events);
    RunKeepsInv(c, s, later);
    RunGrows(c, s, later);
    assert p in t.confirmed;
    assert Readable(c.sha, survivor) && Holds(c.sha, survivor, t.floor);
    RecordedPersists(t.floor, RecordsIn(c.sha, survivor), p.0, p.1);
  }

  /** A registry once durable is extended, record by record, by every registry seen later. */
  lemma RegistriesOnlyGrow(c: Crypto, events: seq<Event>, later: seq<Event>, survivor: Option<File>)
    requires var s := Run(c, INITIAL, events);
             s.disk.registry.Some? && s.disk.survivors == {s.disk.registry}
    requires survivor in Run(c, Run(c, INITIAL, events), later).disk.survivors
    ensures var durable := Run(c, INITIAL, events).disk.registry;
            && survivor.Some?
            && Extends(RecordsIn(c.sha, durable), RecordsIn(c.sha, survivor))
  {
    hide Apply, ReadFile, OwnerInv, HistoryInv;
    var s := Run(c, INITIAL, events);
    var t := Run(c, s, later);
    EveryHistoryIsSafe(c, events);
    RunKeepsInv(c, s, later);
    RunGrows(c, s, later);
    assert Readable(c.sha, s.disk.registry);
    ReadAfterWrite(c.sha, s.disk.registry.value.bytes, s.floor);
    assert Holds(c.sha, survivor, t.floor);
    ExtendsIsTransitive(s.floor, t.floor, RecordsIn(c.sha, survivor));
  }

  /**
   After any admission the lease and the registry are there to stay, so no later process can
   start from an empty registry: creating a lock is refused and no creator is waiting.
   */
  lemma NoFreshStartAfterAdmission(c: Crypto, events: seq<Event>)
    requires Run(c, INITIAL, events).admitted != []
    ensures var s := Run(c, INITIAL, events);
            && s.disk.lock && s.disk.registry.Some? && !s.creator
            && Apply(c, s, LockCreated) == s
            && (s.owner.Some? ==> s.owner.value.stage != Leased(true))
            && forall survivor, keep, garbage, pending ::
                 survivor in s.disk.survivors ==>
                   var d := Crash(s.disk, survivor, keep, garbage, pending); d.lock && d.registry.Some?
  {
    hide ReadFile, IdentityOf;
    EveryHistoryIsSafe(c, events);
    var s := Run(c, INITIAL, events);
    assert s.admitted[0] in s.admitted;
    assert Recorded(s.floor, IdentityOf(c, s.admitted[0]), 0);
    assert Holds(c.sha, s.disk.registry, s.floor);
    forall survivor | survivor in s.disk.survivors ensures survivor.Some? {
      assert Holds(c.sha, survivor, s.floor);
    }
  }

  // ----- a failed owner stays failed

  predicate Poisoned(s: System, o: Owner) {
    s.owner == Some(o) && o.stage == Ready && o.failed.Some?
  }

  predicate Outlived(e: Event) { e.Exit? || e.PowerLoss? }

  /**
   Once reserve has failed, that owner confirms nothing more and touches the disk no more: its
   status and boundary stand until its process exits.
   */
  lemma {:induction false} FailurePoisonsTheOwner(c: Crypto, s: System, o: Owner, events: seq<Event>)
    requires Inv(c, s) && Poisoned(s, o)
    requires forall e :: e in events ==> !Outlived(e)
    ensures var t := Run(c, s, events);
            && t.owner.Some? && Poisoned(t, t.owner.value)
            && t.owner.value.failed == o.failed && t.owner.value.boundary == o.boundary
            && t.confirmed == s.confirmed && t.admitted == s.admitted && t.disk == s.disk
  {
    hide ReadFile, FileBytes, IdentityOf, HistoryInv, DiskInv;
    if events != [] {
      var prefix, e := events[..|events| - 1], events[|events| - 1];
      FailurePoisonsTheOwner(c, s, o, prefix);
      RunKeepsInv(c, s, prefix);
      assert e in events && !Outlived(e);
    }
  }

  // ----- nonces

  /** A datagram on the wire: the key and nonce that protected it. */
  function OnWire(c: Crypto, s: System, x: Sent): (Key, seq<Byte>)
    requires x.lifetime < |s.admitted| && ValidMaterial(s.admitted[x.lifetime])
  {
    var m := s.admitted[x.lifetime];
    (SenderKey(c, m), Nonce(CommonIv(c, m), m.sender, x.piv))
  }

  /** Past its open: admitted, whether idle or extending its boundary. */
  predicate Active(stage: Stage) { stage.Ready? || (stage.Persisting? && !stage.opening) }

  predicate SendingInv(s: System, o: Owner) {
    && o.next <= o.boundary
    && (o.stage.Persisting? ==> o.boundary <= o.wanted)
    && (if Active(o.stage)
        then forall x :: x in s.sent && x.lifetime == |s.admitted| - 1 ==> x.piv < o.next
        else o.next == 0 && o.boundary == 0)
  }

  predicate SentInv(s: System) {
    && (forall x :: x in s.sent ==> x.lifetime < |s.admitted| && x.piv < SEQUENCE_LIMIT)
    && (forall i, j :: 0 <= i < j < |s.sent| ==> s.sent[i] != s.sent[j])
    && (s.owner.Some? ==> SendingInv(s, s.owner.value))
  }

  lemma PersistStepKeepsSent(c: Crypto, s: System, o: Owner, e: Event)
    requires OwnerInv(c, s, o) && s.owner == Some(o) && SentInv(s) && o.stage.Persisting?
    ensures SentInv(PersistStep(c, s, o, e))
  {
    hide ReadFile, FileBytes, IdentityOf, Unused, Writable, Serving, PendingInv;
  }

  lemma OwnerStepKeepsSent(c: Crypto, s: System, o: Owner, e: Event)
    requires OwnerInv(c, s, o) && s.owner == Some(o) && SentInv(s)
    ensures SentInv(OwnerStep(c, s, o, e))
  {
    hide ReadFile, FileBytes, IdentityOf, Unused, Writable, AdmitStatus, PersistStep, OwnerInv, SentInv, Serving;
    hide ReadRegistry, Admit, StartReserve;
    OwnerIsValid(c, s, o);
    StillKeepsSent(c, s, o);
    match (o.stage, e)
    case (Persisting(_, _), _) => PersistStepKeepsSent(c, s, o, e);
    case (Ready, Send) => if o.next < o.boundary && |s.admitted| > 0 { SendKeepsSent(s, o); }
    case (Ready, Reserve(upTo)) => ReserveKeepsSent(c, s, o, upTo);
    case _ =>
  }

  lemma OwnerIsValid(c: Crypto, s: System, o: Owner)
    requires OwnerInv(c, s, o)
    ensures ValidMaterial(o.material) && o.boundary <= SEQUENCE_LIMIT
  {
  }

  /** Letting go, reading and admitting send nothing. */
  lemma StillKeepsSent(c: Crypto, s: System, o: Owner)
    requires s.owner == Some(o) && SentInv(s) && ValidMaterial(o.material)
    ensures SentInv(Released(s))
    ensures o.stage.Leased? ==> SentInv(ReadRegistry(c, s, o))
    ensures o.stage.Loaded? ==> SentInv(Admit(c, s, o))
  {
    hide ReadFile, IdentityOf, AdmitStatus;
  }

  lemma SendKeepsSent(s: System, o: Owner)
    requires s.owner == Some(o) && SentInv(s) && o.stage.Ready? && |s.admitted| > 0
    requires o.next < o.boundary <= SEQUENCE_LIMIT
    ensures SentInv(Own(s.(sent := s.sent + [Sent(|s.admitted| - 1, o.next)]), o.(next := o.next + 1)))
  {
  }

  lemma ReserveKeepsSent(c: Crypto, s: System, o: Owner, upTo: nat)
    requires s.owner == Some(o) && SentInv(s) && o.stage.Ready? && ValidMaterial(o.material)
    ensures SentInv(StartReserve(c, s, o, upTo))
  {
    hide IdentityOf;
  }

  lemma ApplyKeepsSent(c: Crypto, s: System, e: Event)
    requires Inv(c, s) && SentInv(s)
    ensures SentInv(Apply(c, s, e))
  {
    hide ReadFile, HistoryInv, DiskInv, OwnerStep, OwnerInv;
    if s.owner.Some? { OwnerStepKeepsSent(c, s, s.owner.value, e); }
  }

  lemma {:induction false} RunKeepsSent(c: Crypto, events: seq<Event>)
    ensures SentInv(Run(c, INITIAL, events))
  {
    hide Apply, Inv;
    if events != [] {
      var prefix := events[..|events| - 1];
      EveryHistoryIsSafe(c, prefix);
      RunKeepsSent(c, prefix);
      ApplyKeepsSent(c, Run(c, INITIAL, prefix), events[|events| - 1]);
    }
  }

  /**
   No key and nonce pair is ever sent twice: across all owner lifetimes, processes and crashes,
   and for any hash and key derivation whatsoever.
   */
  lemma NoNonceIsSentTwice(c: Crypto, events: seq<Event>, i: nat, j: nat)
    requires i < j < |Run(c, INITIAL, events).sent|
    ensures var s := Run(c, INITIAL, events);
            && s.sent[i].lifetime < |s.admitted| && ValidMaterial(s.admitted[s.sent[i].lifetime])
            && s.sent[j].lifetime < |s.admitted| && ValidMaterial(s.admitted[s.sent[j].lifetime])
            && OnWire(c, s, s.sent[i]) != OnWire(c, s, s.sent[j])
  {
    hide Apply, IdentityOf, Overlaps, DiskInv, OwnerInv;
    EveryHistoryIsSafe(c, events);
    RunKeepsSent(c, events);
    var s := Run(c, INITIAL, events);
    var x, y := s.sent[i], s.sent[j];
    assert x in s.sent && y in s.sent;
    var m, n := s.admitted[x.lifetime], s.admitted[y.lifetime];
    assert m in s.admitted && n in s.admitted;
    if OnWire(c, s, x) == OnWire(c, s, y) {
      if x.lifetime == y.lifetime {
        NonceSeparatesPartialIvs(CommonIv(c, m), m.sender, x.piv, y.piv);
      } else {
        SharedNonceMeansOverlap(c, m, Sending, x.piv, n, Sending, y.piv);
        SharedNonceMeansOverlap(c, n, Sending, y.piv, m, Sending, x.piv);
      }
      assert false;
    }
  }
}
