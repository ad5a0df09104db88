/**
 The context store (store.c) as a machine whose steps are the system calls it makes, run by any
 number of processes one after another, with a crash possible after every step.
 */
module StoreMachine {
  import opened Bytes
  import opened Identity
  import opened Registry
  import opened Disk

  /** How far `persist` has got. */
  datatype Step = Start | Cleared | Writing | FileSynced | Renamed

  datatype Stage =
    | Leased(newLock: bool)                   // flock taken; registry not yet read
    | Loaded                                // registry read
    | Persisting(step: Step, opening: bool) // inside persist, for open or for reserve
    | Ready                                 // open returned OK

  datatype Owner = Owner(
    material: Material, stage: Stage, records: seq<Record>,
    boundary: nat, wanted: nat, failed: Option<Status>, next: nat)

  /** One protected datagram: which admitted context sent it, under which Partial IV. */
  datatype Sent = Sent(lifetime: nat, piv: nat)

  /**
   `creator` is a process that created the lock file and has not yet locked it. The remaining
   fields are history: contexts whose open returned OK, boundaries confirmed to a caller, the
   records last known durable, and everything sent.
   */
  datatype System = System(
    disk: Disk, creator: bool, owner: Option<Owner>,
    admitted: seq<Material>, confirmed: seq<(Identity, nat)>, floor: seq<Record>, sent: seq<Sent>)

  const INITIAL: System := System(EMPTY, false, None, [], [], [], [])

  datatype Event =
    | LockCreated
    | CreatorGone
    | Lease(material: Material, boundary: nat, newLock: bool)
    | RegistryRead
    | Admission
    | PendingRemoved
    | PendingOpened
    | PendingWritten(count: nat)
    | PendingSynced
    | PendingRenamed
    | DirectorySynced
    | StepFailed(corrupt: bool, removed: bool)
    | Reserve(upTo: nat)
    | Send
    | Exit
    | PowerLoss(survivor: Option<File>, keepLock: bool, garbage: seq<Byte>, pending: Option<File>)

  function Own(s: System, o: Owner): System { s.(owner := Some(o)) }

  function Released(s: System): System { s.(owner := None) }

  /** `read_registry`: an absent registry is accepted from a new lock only, and conversely. */
  function ReadRegistry(c: Crypto, s: System, o: Owner): System
    requires o.stage.Leased?
  {
    match s.disk.registry
    case None => if o.stage.newLock then Own(s, o.(stage := Loaded, records := [])) else Released(s)
    case Some(file) =>
      if o.stage.newLock then Released(s)
      else match ReadFile(c.sha, file.bytes)
        case None => Released(s)
        case Some(records) => Own(s, o.(stage := Loaded, records := records))
  }

  /** `admit` up to its call of `persist`. */
  function Admit(c: Crypto, s: System, o: Owner): System
    requires ValidMaterial(o.material)
  {
    var identity := IdentityOf(c, o.material);
    if AdmitStatus(o.records, identity) != Ok then Released(s)
    else Own(s, o.(stage := Persisting(Start, true), records := o.records + [Record(identity, o.wanted)]))
  }

  function LastRaised(records: seq<Record>, boundary: nat): seq<Record>
    requires records != []
  {
    records[|records| - 1 := records[|records| - 1].(reserved := boundary)]
  }

  /** `wco_store_reserve` up to its call of `persist`. */
  function StartReserve(c: Crypto, s: System, o: Owner, upTo: nat): System
    requires ValidMaterial(o.material)
  {
    if o.failed.Some? || o.records == [] then s
    else if upTo == 0 || upTo > SEQUENCE_LIMIT then Own(s, o.(failed := Some(Exhausted)))
    else if upTo <= o.boundary then s.(confirmed := s.confirmed + [(IdentityOf(c, o.material), upTo)])
    else Own(s, o.(stage := Persisting(Start, false), records := LastRaised(o.records, upTo), wanted := upTo))
  }

  function WithDisk(s: System, d: Disk, o: Owner, step: Step): System
    requires o.stage.Persisting?
  {
    s.(disk := d, owner := Some(o.(stage := o.stage.(step := step))))
  }

  function Min(a: nat, b: nat): nat { if a < b then a else b }

  /** The six steps of `persist`, each enabled only in its place. */
  function PersistStep(c: Crypto, s: System, o: Owner, e: Event): System
    requires o.stage.Persisting? && ValidMaterial(o.material)
  {
    var image := FileBytes(c.sha, o.records);
    match (o.stage.step, e)
    case (Start, PendingRemoved) => WithDisk(s, RemovePending(s.disk), o, Cleared)
    case (Cleared, PendingOpened) => WithDisk(s, CreatePending(s.disk), o, Writing)
    case (Writing, PendingWritten(count)) =>
      if s.disk.pending.None? then s
      else
        var end := Min(|s.disk.pending.value.bytes| + count, |image|);
        WithDisk(s, WritePending(s.disk, image[..end]), o, Writing)
    case (Writing, PendingSynced) =>
      if s.disk.pending.None? || |s.disk.pending.value.bytes| < |image| then s
      else WithDisk(s, SyncPending(s.disk), o, FileSynced)
    case (FileSynced, PendingRenamed) => WithDisk(s, RenamePending(s.disk), o, Renamed)
    case (Renamed, DirectorySynced) => Committed(c, s, o)
    case (_, StepFailed(corrupt, removed)) =>
      var t := if removed then s.(disk := RemovePending(s.disk)) else s;
      if o.stage.opening then Released(t)
      else Own(t, o.(stage := Ready, failed := Some(if corrupt then Corrupt else Unavailable)))
    case _ => s
  }

  /** The directory sync succeeded: the caller is told OK. */
  function Committed(c: Crypto, s: System, o: Owner): System
    requires o.stage.Persisting? && ValidMaterial(o.material)
  {
    s.(disk := SyncDirectory(s.disk),
       owner := Some(o.(stage := Ready, boundary := o.wanted)),
       admitted := if o.stage.opening then s.admitted + [o.material] else s.admitted,
       confirmed := s.confirmed + [(IdentityOf(c, o.material), o.wanted)],
       floor := o.records)
  }

  function OwnerStep(c: Crypto, s: System, o: Owner, e: Event): System
    requires ValidMaterial(o.material)
  {
    match (o.stage, e)
    case (_, Exit) => Released(s)
    case (Leased(_), RegistryRead) => ReadRegistry(c, s, o)
    case (Loaded, Admission) => Admit(c, s, o)
    case (Persisting(_, _), _) => PersistStep(c, s, o, e)
    case (Ready, Reserve(upTo)) => StartReserve(c, s, o, upTo)
    case (Ready, Send) =>
      // libcoap numbers datagrams upwards and stays below the boundary it was granted.
      if o.next < o.boundary && |s.admitted| > 0
      then Own(s.(sent := s.sent + [Sent(|s.admitted| - 1, o.next)]), o.(next := o.next + 1))
      else s
    case _ => s
  }

  function RecordsIn(sha: Hash, f: Option<File>): seq<Record> {
    if f.Some? && ReadFile(sha, f.value.bytes).Some? then ReadFile(sha, f.value.bytes).value else []
  }

  function Apply(c: Crypto, s: System, e: Event): System {
    match e
    case LockCreated =>
      if s.disk.lock || s.disk.registry.Some? || s.disk.pending.Some? then s
      else s.(disk := CreateLock(s.disk), creator := true)
    case CreatorGone => s.(creator := false)
    case Lease(m, boundary, newLock) =>
      if s.owner.Some? || !s.disk.lock || (newLock && !s.creator) || !ValidMaterial(m) ||
         boundary == 0 || boundary > SEQUENCE_LIMIT then s
      else s.(creator := s.creator && !newLock,
              owner := Some(Owner(m, Leased(newLock), [], 0, boundary, None, 0)))
    case PowerLoss(survivor, keepLock, garbage, pending) =>
      if survivor in s.disk.survivors
      then
        var disk := Crash(s.disk, survivor, keepLock, garbage, pending);
        s.(disk := disk, creator := false, owner := None, floor := RecordsIn(c.sha, disk.registry))
      else s
    case _ =>
      if s.owner.Some? && ValidMaterial(s.owner.value.material) then OwnerStep(c, s, s.owner.value, e) else s
  }

  function Run(c: Crypto, s: System, events: seq<Event>): System {
    if events == [] then s else Apply(c, Run(c, s, events[..|events| - 1]), events[|events| - 1])
  }

  // ----- what every step keeps

  predicate InBounds(records: seq<Record>) {
    forall r :: r in records ==> 0 < r.reserved <= SEQUENCE_LIMIT
  }

  /** Absent, or durable contents the reader accepts and the admission loop finds in bounds. */
  predicate Readable(sha: Hash, f: Option<File>) {
    f.Some? ==> f.value.synced && ReadFile(sha, f.value.bytes).Some? && InBounds(RecordsIn(sha, f))
  }

  predicate Holds(sha: Hash, f: Option<File>, floor: seq<Record>) {
    f.Some? && Extends(floor, RecordsIn(sha, f))
  }

  predicate DiskInv(sha: Hash, d: Disk, floor: seq<Record>) {
    && d.registry in d.survivors
    && (d.registry.None? ==> d.survivors == {None})
    && (d.lockSafe ==> d.lock)
    && (forall f :: f in d.survivors ==> Readable(sha, f))
    && (floor != [] ==> forall f :: f in d.survivors ==> Holds(sha, f, floor))
    && (d.survivors == {d.registry} ==> floor == RecordsIn(sha, d.registry))
  }

  predicate Recorded(floor: seq<Record>, identity: Identity, boundary: nat) {
    exists r :: r in floor && r.identity == identity && boundary <= r.reserved
  }

  predicate HistoryInv(c: Crypto, admitted: seq<Material>, confirmed: seq<(Identity, nat)>, floor: seq<Record>) {
    && (forall m :: m in admitted ==> ValidMaterial(m) && Recorded(floor, IdentityOf(c, m), 0))
    && (forall p :: p in confirmed ==> Recorded(floor, p.0, p.1))
    && (forall i, j :: 0 <= i < j < |admitted| ==>
          !Overlaps(IdentityOf(c, admitted[i]), IdentityOf(c, admitted[j])))
  }

  /** Records an owner may write: in bounds, above the durable floor, ending with its own. */
  predicate Writable(c: Crypto, records: seq<Record>, floor: seq<Record>, m: Material, boundary: nat)
    requires ValidMaterial(m)
  {
    && Wellformed(records)
    && InBounds(records)
    && Extends(floor, records)
    && records[|records| - 1] == Record(IdentityOf(c, m), boundary)
  }

  /** The admitted context being served, with everything confirmed to it durable. */
  predicate Serving(c: Crypto, admitted: seq<Material>, floor: seq<Record>, m: Material, boundary: nat)
    requires ValidMaterial(m)
  {
    && admitted != []
    && admitted[|admitted| - 1] == m
    && Recorded(floor, IdentityOf(c, m), boundary)
  }

  predicate Unused(c: Crypto, admitted: seq<Material>, m: Material)
    requires ValidMaterial(m)
  {
    forall n :: n in admitted && ValidMaterial(n) ==> !Overlaps(IdentityOf(c, n), IdentityOf(c, m))
  }

  predicate PendingInv(d: Disk, image: seq<Byte>, step: Step) {
    match step
    case Writing => d.pending.Some? && d.pending.value.bytes <= image
    case FileSynced => d.pending == Some(File(image, true))
    case Renamed => d.registry == Some(File(image, true))
    case _ => true
  }

  predicate OwnerInv(c: Crypto, s: System, o: Owner) {
    && ValidMaterial(o.material)
    && s.disk.lock
    && o.boundary <= SEQUENCE_LIMIT
    && 0 < o.wanted <= SEQUENCE_LIMIT
    && match o.stage
       case Leased(newLock) => newLock ==> s.disk.registry.None?
       case Loaded =>
         && |o.records| <= MAX_CONTEXTS
         && (forall r :: r in o.records ==> Fits(r))
         && Extends(s.floor, o.records)
       case Persisting(step, opening) =>
         && Writable(c, o.records, s.floor, o.material, o.wanted)
         && PendingInv(s.disk, FileBytes(c.sha, o.records), step)
         && (if opening then Unused(c, s.admitted, o.material)
             else Serving(c, s.admitted, s.floor, o.material, o.boundary))
       case Ready =>
         && Serving(c, s.admitted, s.floor, o.material, o.boundary)
         && (o.failed.None? ==> Writable(c, o.records, s.floor, o.material, o.boundary))
  }

  predicate Inv(c: Crypto, s: System) {
    && DiskInv(c.sha, s.disk, s.floor)
    && HistoryInv(c, s.admitted, s.confirmed, s.floor)
    && (s.admitted != [] ==> s.disk.lockSafe)
    && (s.creator ==> s.disk.lock && s.disk.registry.None?)
    && (s.creator && s.owner.Some? ==> s.owner.value.stage == Leased(false))
    && (s.owner.Some? ==> OwnerInv(c, s, s.owner.value))
  }

  lemma ExtendsIsTransitive(a: seq<Record>, b: seq<Record>, d: seq<Record>)
    requires Extends(a, b) && Extends(b, d)
    ensures Extends(a, d)
  {
  }

  lemma RecordedPersists(floor: seq<Record>, later: seq<Record>, identity: Identity, boundary: nat)
    requires Recorded(floor, identity, boundary) && Extends(floor, later)
    ensures Recorded(later, identity, boundary)
  {
    var r :| r in floor && r.identity == identity && boundary <= r.reserved;
    var i :| 0 <= i < |floor| && floor[i] == r;
    assert later[i] in later;
  }

  lemma ReadRegistryKeepsInv(c: Crypto, s: System, o: Owner)
    requires Inv(c, s) && s.owner == Some(o) && o.stage.Leased?
    ensures Inv(c, ReadRegistry(c, s, o))
  {
    hide ReadFile, FileBytes, IdentityOf, HistoryInv;
    if s.disk.registry.Some? {
      assert Readable(c.sha, s.disk.registry);
      ReadAfterWrite(c.sha, s.disk.registry.value.bytes, RecordsIn(c.sha, s.disk.registry));
    }
    assert s.floor != [] ==> Holds(c.sha, s.disk.registry, s.floor);
  }

  lemma AdmissionIsUnused(c: Crypto, s: System, records: seq<Record>, m: Material)
    requires ValidMaterial(m)
    requires HistoryInv(c, s.admitted, s.confirmed, s.floor) && Extends(s.floor, records)
    requires Screen(records, IdentityOf(c, m)) == Ok
    ensures Unused(c, s.admitted, m) && InBounds(records)
  {
    hide IdentityOf, Overlaps;
    ScreenIsExact(records, IdentityOf(c, m));
    forall n | n in s.admitted ensures !Overlaps(IdentityOf(c, n), IdentityOf(c, m)) {
      RecordedPersists(s.floor, records, IdentityOf(c, n), 0);
    }
  }

  lemma AdmitKeepsInv(c: Crypto, s: System, o: Owner)
    requires Inv(c, s) && s.owner == Some(o) && o.stage.Loaded?
    ensures Inv(c, Admit(c, s, o))
  {
    hide FileBytes, IdentityOf, HistoryInv, DiskInv, Screen;
    var identity := IdentityOf(c, o.material);
    if AdmitStatus(o.records, identity) == Ok {
      AdmissionIsUnused(c, s, o.records, o.material);
    }
  }

  lemma StartReserveKeepsInv(c: Crypto, s: System, o: Owner, upTo: nat)
    requires Inv(c, s) && s.owner == Some(o) && o.stage.Ready?
    ensures Inv(c, StartReserve(c, s, o, upTo))
  {
    hide FileBytes, IdentityOf, DiskInv, Recorded;
    if o.failed.None? && 0 < upTo <= o.boundary {
      RecordedLower(s.floor, IdentityOf(c, o.material), o.boundary, upTo);
    }
  }

  lemma RecordedLower(floor: seq<Record>, identity: Identity, boundary: nat, lower: nat)
    requires Recorded(floor, identity, boundary) && lower <= boundary
    ensures Recorded(floor, identity, lower)
  {
  }

  lemma CommittedHistory(c: Crypto, s: System, o: Owner)
    requires HistoryInv(c, s.admitted, s.confirmed, s.floor)
    requires o.stage.Persisting? && ValidMaterial(o.material)
    requires Writable(c, o.records, s.floor, o.material, o.wanted)
    requires o.stage.opening ==> Unused(c, s.admitted, o.material)
    ensures var t := Committed(c, s, o);
            && HistoryInv(c, t.admitted, t.confirmed, t.floor)
            && Recorded(t.floor, IdentityOf(c, o.material), o.wanted)
  {
    hide IdentityOf, Overlaps;
    var t := Committed(c, s, o);
    assert o.records[|o.records| - 1] in o.records;
    assert Recorded(t.floor, IdentityOf(c, o.material), o.wanted);
    forall m | m in s.admitted ensures Recorded(t.floor, IdentityOf(c, m), 0) {
      RecordedPersists(s.floor, o.records, IdentityOf(c, m), 0);
    }
    forall p | p in s.confirmed ensures Recorded(t.floor, p.0, p.1) {
      RecordedPersists(s.floor, o.records, p.0, p.1);
    }
  }

  lemma CommittedKeepsInv(c: Crypto, s: System, o: Owner)
    requires Inv(c, s) && s.owner == Some(o) && o.stage.Persisting? && o.stage.step == Renamed
    ensures Inv(c, Committed(c, s, o))
  {
    hide ReadFile, FileBytes, IdentityOf, HistoryInv, Recorded;
    CommittedHistory(c, s, o);
    WriteBeforeRead(c.sha, s.disk.registry.value.bytes, o.records);
  }

  lemma DiskInvIgnoresPending(sha: Hash, d: Disk, pending: Option<File>, floor: seq<Record>)
    requires DiskInv(sha, d, floor)
    ensures DiskInv(sha, d.(pending := pending), floor)
  {
    hide Readable, Holds, RecordsIn;
  }

  /** Steps before the rename touch the pending file only. */
  lemma PendingStepKeepsInv(c: Crypto, s: System, o: Owner, d: Disk, step: Step)
    requires Inv(c, s) && s.owner == Some(o) && o.stage.Persisting?
    requires d == s.disk.(pending := d.pending)
    requires PendingInv(d, FileBytes(c.sha, o.records), step)
    ensures Inv(c, WithDisk(s, d, o, step))
  {
    hide FileBytes, HistoryInv, Writable, Serving, Unused, DiskInv;
    DiskInvIgnoresPending(c.sha, s.disk, d.pending, s.floor);
  }

  lemma RenameKeepsInv(c: Crypto, s: System, o: Owner)
    requires Inv(c, s) && s.owner == Some(o) && o.stage.Persisting? && o.stage.step == FileSynced
    ensures Inv(c, WithDisk(s, RenamePending(s.disk), o, Renamed))
  {
    hide ReadFile, FileBytes, HistoryInv, Serving, Unused;
    WriteBeforeRead(c.sha, s.disk.pending.value.bytes, o.records);
  }

  lemma StepFailedKeepsInv(c: Crypto, s: System, o: Owner, e: Event)
    requires Inv(c, s) && s.owner == Some(o) && o.stage.Persisting? && e.StepFailed?
    ensures Inv(c, PersistStep(c, s, o, e))
  {
    hide FileBytes, HistoryInv, Writable, Serving, Unused, DiskInv;
    DiskInvIgnoresPending(c.sha, s.disk, None, s.floor);
  }

  lemma PersistStepKeepsInv(c: Crypto, s: System, o: Owner, e: Event)
    requires Inv(c, s) && s.owner == Some(o) && o.stage.Persisting?
    ensures Inv(c, PersistStep(c, s, o, e))
  {
    hide FileBytes, DiskInv, HistoryInv, Writable, Serving, Unused;
    var image := FileBytes(c.sha, o.records);
    match (o.stage.step, e)
    case (Start, PendingRemoved) => PendingStepKeepsInv(c, s, o, RemovePending(s.disk), Cleared);
    case (Cleared, PendingOpened) => PendingStepKeepsInv(c, s, o, CreatePending(s.disk), Writing);
    case (Writing, PendingWritten(count)) =>
      var end := Min(|s.disk.pending.value.bytes| + count, |image|);
      PendingStepKeepsInv(c, s, o, WritePending(s.disk, image[..end]), Writing);
    case (Writing, PendingSynced) =>
      var written := s.disk.pending.value.bytes;
      if |written| >= |image| {
        assert written == image;
        PendingStepKeepsInv(c, s, o, SyncPending(s.disk), FileSynced);
      }
    case (FileSynced, PendingRenamed) => RenameKeepsInv(c, s, o);
    case (Renamed, DirectorySynced) => CommittedKeepsInv(c, s, o);
    case (_, StepFailed(_, _)) => StepFailedKeepsInv(c, s, o, e);
    case _ =>
  }

  lemma HistoryPersists(c: Crypto, s: System, later: seq<Record>)
    requires HistoryInv(c, s.admitted, s.confirmed, s.floor)
    requires s.floor != [] ==> Extends(s.floor, later)
    ensures HistoryInv(c, s.admitted, s.confirmed, later)
  {
    hide IdentityOf, Overlaps;
    forall m | m in s.admitted ensures Recorded(later, IdentityOf(c, m), 0) {
      RecordedPersists(s.floor, later, IdentityOf(c, m), 0);
    }
    forall p | p in s.confirmed ensures Recorded(later, p.0, p.1) {
      RecordedPersists(s.floor, later, p.0, p.1);
    }
  }

  lemma PowerLossKeepsInv(c: Crypto, s: System, e: Event)
    requires Inv(c, s) && e.PowerLoss?
    ensures Inv(c, Apply(c, s, e))
  {
    hide ReadFile, HistoryInv, OwnerInv;
    if e.survivor in s.disk.survivors {
      assert Readable(c.sha, e.survivor);
      assert Recovered(e.survivor, e.garbage) == e.survivor;
      assert s.floor != [] ==> Holds(c.sha, e.survivor, s.floor);
      HistoryPersists(c, s, RecordsIn(c.sha, e.survivor));
    }
  }

  lemma OwnerStepKeepsInv(c: Crypto, s: System, o: Owner, e: Event)
    requires Inv(c, s) && s.owner == Some(o)
    ensures Inv(c, OwnerStep(c, s, o, e))
  {
    hide FileBytes, DiskInv, HistoryInv, Writable, Serving, Unused;
    hide ReadRegistry, Admit, PersistStep, StartReserve;
    match (o.stage, e)
    case (_, Exit) =>
    case (Leased(_), RegistryRead) => ReadRegistryKeepsInv(c, s, o);
    case (Loaded, Admission) => AdmitKeepsInv(c, s, o);
    case (Persisting(_, _), _) => PersistStepKeepsInv(c, s, o, e);
    case (Ready, Reserve(upTo)) => StartReserveKeepsInv(c, s, o, upTo);
    case _ =>
  }

  /** Every step of every process, and every crash, keeps the invariant. */
  lemma ApplyKeepsInv(c: Crypto, s: System, e: Event)
    requires Inv(c, s)
    ensures Inv(c, Apply(c, s, e))
  {
    hide ReadFile, HistoryInv, OwnerStep, Readable, Holds;
    match e
    case PowerLoss(_, _, _, _) => PowerLossKeepsInv(c, s, e);
    case LockCreated =>
    case CreatorGone =>
    case Lease(_, _, _) =>
    case _ => if s.owner.Some? { OwnerStepKeepsInv(c, s, s.owner.value, e); }
  }
}
