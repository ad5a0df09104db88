/**
 The private directory the context store lives in: a lock file, the registry and a pending
 file, each as the running system sees it, together with everything a power loss could still
 leave behind.
 */
module Disk {
  import opened Bytes

  /** File contents, and whether fsync has made them durable. */
  datatype File = File(bytes: seq<Byte>, synced: bool)

  /**
   `survivors` are the registry entries a crash may expose: the last one a directory sync made
   durable and every one renamed into place since.
   */
  datatype Disk = Disk(
    lock: bool, lockSafe: bool,
    registry: Option<File>, pending: Option<File>,
    survivors: set<Option<File>>)

  const EMPTY: Disk := Disk(false, false, None, None, {None})

  function CreateLock(d: Disk): Disk { d.(lock := true) }

  function RemovePending(d: Disk): Disk { d.(pending := None) }

  function CreatePending(d: Disk): Disk { d.(pending := Some(File([], false))) }

  function WritePending(d: Disk, bytes: seq<Byte>): Disk { d.(pending := Some(File(bytes, false))) }

  function SyncPending(d: Disk): Disk {
    if d.pending.Some? then d.(pending := Some(d.pending.value.(synced := true))) else d
  }

  /** rename(2): atomic for the running system, not yet durable. */
  function RenamePending(d: Disk): Disk {
    if d.pending.Some?
    then d.(registry := d.pending, pending := None, survivors := d.survivors + {d.pending})
    else d
  }

  function SyncDirectory(d: Disk): Disk { d.(lockSafe := d.lock, survivors := {d.registry}) }

  /** Unsynced contents come back as arbitrary bytes. */
  function Recovered(f: Option<File>, garbage: seq<Byte>): Option<File> {
    if f.Some? then Some(File(if f.value.synced then f.value.bytes else garbage, true)) else None
  }

  /**
   A power loss: some survivor becomes the registry, a lock file that was never synced may or
   may not be there, and the pending file is anything.
   */
  function Crash(d: Disk, survivor: Option<File>, keepLock: bool, garbage: seq<Byte>, pending: Option<File>): Disk
    requires survivor in d.survivors
  {
    var lock := d.lockSafe || (d.lock && keepLock);
    var registry := Recovered(survivor, garbage);
    Disk(lock, lock, registry, pending, {registry})
  }
}
