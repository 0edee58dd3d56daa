/**
  The lock file: locks that belong to open file descriptions, kept in a table by the kernel, and the
  calls that no context can cancel.
 */
module Lockfile {

  type Handle = nat

  datatype Mode = Unlocked | Shared | Exclusive

  /** The kernel's table; a handle without entry holds nothing. */
  type Table = map<Handle, Mode>

  function Held(k: Table, h: Handle): Mode {
    if h in k then k[h] else Unlocked
  }

  /** Whether nobody else's lock stands in the way; a handle never conflicts with itself. */
  predicate Grantable(k: Table, h: Handle, mode: Mode) {
    match mode
    case Unlocked => true
    case Shared => forall u | u in k && u != h :: k[u] != Exclusive
    case Exclusive => forall u | u in k && u != h :: k[u] == Unlocked
  }

  /** An exclusive lock excludes every other one. */
  ghost predicate Compatible(k: Table) {
    forall h, u | h in k && u in k && h != u :: k[h] == Exclusive ==> k[u] == Unlocked
  }

  function LockType(unlock: bool, exclusive: bool): Mode {
    if unlock then Unlocked else if exclusive then Exclusive else Shared
  }

  /** While a handle holds an exclusive lock no other one is granted any, and it may still be granted any
      itself; a shared lock beside shared ones is granted, and an exclusive one is not. */
  lemma HoldersDecide(k: Table, h: Handle, u: Handle, mode: Mode)
    requires Held(k, h) != Unlocked && u != h && mode != Unlocked && Compatible(k)
    ensures Held(k, h) == Exclusive ==> !Grantable(k, u, mode) && Grantable(k, h, mode)
    ensures Held(k, h) == Shared ==> Grantable(k, u, Shared) && !Grantable(k, u, Exclusive)
  {
  }

  class Kernel {
    var table: Table

    constructor ()
      ensures table == map[]
    {
      table := map[];
    }

    /** `F_OFD_SETLK`: at once or not at all. */
    method SetLock(h: Handle, mode: Mode) returns (ok: bool)
      modifies this
      ensures ok == Grantable(old(table), h, mode)
      ensures ok <==> forall u | u in old(table) && u != h ::
                        (mode == Exclusive ==> old(table)[u] == Unlocked) && (mode == Shared ==> old(table)[u] != Exclusive)
      ensures table == if ok then old(table)[h := mode] else old(table)
      ensures Compatible(old(table)) ==> Compatible(table)
    {
      ok := Grantable(table, h, mode);
      if ok {
        table := table[h := mode];
      }
    }
  }

  /** A handle on the file, used with a context that cannot be cancelled. */
  class Lockfile {
    const kernel: Kernel
    const fd: Handle
    var open: bool

    constructor (kernel: Kernel, fd: Handle)
      ensures this.kernel == kernel && this.fd == fd && open
    {
      this.kernel, this.fd, this.open := kernel, fd, true;
    }

    /** Fails rather than wait, and then changes nothing. */
    method TryLock(exclusive: bool) returns (ok: bool)
      requires open
      modifies kernel
      ensures ok <==> forall u | u in old(kernel.table) && u != fd ::
                        if exclusive then old(kernel.table)[u] == Unlocked else old(kernel.table)[u] != Exclusive
      ensures kernel.table == if ok then old(kernel.table)[fd := if exclusive then Exclusive else Shared] else old(kernel.table)
      ensures Compatible(old(kernel.table)) ==> Compatible(kernel.table)
    {
      ok := kernel.SetLock(fd, LockType(false, exclusive));
    }

    method Unlock() returns (ok: bool)
      requires open
      modifies kernel
      ensures ok && kernel.table == old(kernel.table)[fd := Unlocked]
      ensures Compatible(old(kernel.table)) ==> Compatible(kernel.table)
    {
      ok := kernel.SetLock(fd, LockType(true, false));
    }

    /** Closing drops the lock with the handle, which must not be used again. */
    method Close()
      requires open
      modifies this, kernel
      ensures !open && kernel.table == old(kernel.table)[fd := Unlocked]
    {
      open := false;
      kernel.table := kernel.table[fd := Unlocked];
    }
  }
}
