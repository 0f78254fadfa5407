/**
  Target leases (kigumi/_runstate.py): an exclusive lock on a stable path, freed when its holder
  dies, and a fencing token.  A handle is open exactly while it holds its target's lock.
 */
module Leases {
  import opened Wrappers
  import opened Records

  type Handle = nat

  datatype Lease = Lease(token: Token, handle: Handle)

  /**
    The lock state one store sees: the lock files of the whole machine (`held`), the lease table of
    its process, its own leases, and the next value that was never used as token or handle.
   */
  datatype Locks = Locks(
    held: map<Target, Handle>, table: map<Target, Lease>, leases: map<Target, Lease>, unused: nat)

  datatype Grant = Denied | Kept(token: Token) | Granted(token: Token)

  predicate IsOpen(held: map<Target, Handle>, t: Target, h: Handle) {
    t in held && held[t] == h
  }

  function Close(held: map<Target, Handle>, t: Target, h: Handle): map<Target, Handle> {
    if IsOpen(held, t, h) then held - {t} else held
  }

  /** Fencing: the process drops whatever lease it has on the target and closes its handle. */
  function Fence(l: Locks, t: Target): Locks {
    if t in l.table then l.(table := l.table - {t}, held := Close(l.held, t, l.table[t].handle)) else l
  }

  /** A new lease on a free target, under a token and a handle never used before. */
  function Granting(l: Locks, t: Target): Locks {
    var lease := Lease(l.unused, l.unused);
    l.(held := l.held[t := lease.handle], table := l.table[t := lease], leases := l.leases[t := lease],
       unused := l.unused + 1)
  }

  /** `_acquire_target_lease`. */
  function Acquire(l: Locks, t: Target, expected: Option<Token>, fence: bool): (Locks, Grant) {
    if t in l.leases then
      if expected == Some(l.leases[t].token) then (l, Kept(l.leases[t].token)) else (l, Denied)
    else
      var l1 := if fence then Fence(l, t) else l;
      if t in l1.held then (l1, Denied) else (Granting(l1, t), Granted(l1.unused))
  }

  /** `_require_target_lease`. */
  predicate Holds(l: Locks, t: Target, owner: Option<Token>) {
    && t in l.leases
    && owner == Some(l.leases[t].token)
    && IsOpen(l.held, t, l.leases[t].handle)
  }

  /** `_release_target_lease`. */
  function Release(l: Locks, t: Target): Locks {
    if t !in l.leases then l
    else
      var h := l.leases[t].handle;
      l.(leases := l.leases - {t},
         table := if t in l.table && l.table[t].handle == h then l.table - {t} else l.table,
         held := Close(l.held, t, h))
  }
}
