/**
  Every run of the attempt store: any number of processes and stores, operations in any order,
  each cut short after any number of file writes, stores dropped and processes killed at any time.
 */
module StoreRuns {
  import opened Wrappers
  import opened Records
  import opened Durable
  import opened Protocol
  import opened Commit
  import opened Leases
  import opened Operations
  import opened Effects
  import opened Decisions

  type StoreId = nat
  type ProcessId = nat

  datatype StoreState = StoreState(
    process: ProcessId,
    leases: map<Target, Lease>,
    generation: Option<nat>,
    fencing: bool,
    admission: Option<nat>,
    mutated: bool)

  /** What executors were told; `at` is the length of the target's receipt chain at that moment. */
  datatype Event =
    | ToldToRun(target: Target, attempt: int, at: nat)
    | BoundaryCrossed(target: Target, attempt: int, at: nat)
    | CheckpointReached(target: Target, attempt: int, at: nat)

  datatype World = World(
    disk: Disk,
    held: map<Target, Handle>,
    tables: map<ProcessId, map<Target, Lease>>,
    unused: nat,
    stores: map<StoreId, StoreState>,
    log: seq<Event>)

  datatype Action =
    | Call(store: StoreId, op: Operation, note: string, quota: nat)
    | Open(store: StoreId, process: ProcessId)
    | Drop(store: StoreId)
    | Die(process: ProcessId)

  const START := World(EMPTY_DISK, map[], map[], 0, map[], [])

  function TableOf(w: World, p: ProcessId): map<Target, Lease> {
    if p in w.tables then w.tables[p] else map[]
  }

  function LocksOf(w: World, s: StoreId): Locks
    requires s in w.stores
  {
    Locks(w.held, TableOf(w, w.stores[s].process), w.stores[s].leases, w.unused)
  }

  function ViewOf(w: World, s: StoreId, quota: nat): View
    requires s in w.stores
  {
    var st := w.stores[s];
    View(w.disk, quota, LocksOf(w, s), st.generation, st.fencing, st.admission, st.mutated)
  }

  function WithLocks(w: World, s: StoreId, l: Locks): World
    requires s in w.stores
  {
    w.(held := l.held, tables := w.tables[w.stores[s].process := l.table], unused := l.unused,
       stores := w.stores[s := w.stores[s].(leases := l.leases)])
  }

  function Happened(op: Operation, reply: Reply, before: Disk, after: Disk): seq<Event> {
    if after.manifest.None? then []
    else if op.Prepare? && reply.Proceed? then
      [ToldToRun(op.target, reply.attempt, |ChainOf(after.manifest.value, op.target)|)]
    else if op.MarkSideEffect? && reply.Done? && StateAt(before, op.target).Some? then
      [BoundaryCrossed(op.target, StateAt(before, op.target).value.snapshot.body.attempt,
                       |ChainOf(after.manifest.value, op.target)|)]
    else if op.MarkCheckpoint? && reply.Done? && StateAt(before, op.target).Some? then
      [CheckpointReached(op.target, StateAt(before, op.target).value.snapshot.body.attempt,
                         |ChainOf(after.manifest.value, op.target)|)]
    else []
  }

  function Called(w: World, s: StoreId, op: Operation, note: string, quota: nat): World
    requires s in w.stores
  {
    var (v, reply) := Perform(ViewOf(w, s, quota), op, note);
    var st := w.stores[s].(generation := v.generation, fencing := v.fencing, admission := v.admission,
                           mutated := v.mutated);
    WithLocks(w.(disk := v.disk, stores := w.stores[s := st],
                 log := w.log + Happened(op, reply, w.disk, v.disk)), s, v.locks)
  }

  predicate LeasedBy(st: StoreState, t: Target, h: Handle) {
    t in st.leases && st.leases[t].handle == h
  }

  /** `__del__`: a discarded store releases every lease it still has. */
  function Dropped(w: World, s: StoreId): World
    requires s in w.stores
  {
    var st := w.stores[s];
    var table := TableOf(w, st.process);
    w.(held := map t | t in w.held && !LeasedBy(st, t, w.held[t]) :: w.held[t],
       tables := w.tables[st.process := map t | t in table && !LeasedBy(st, t, table[t].handle) :: table[t]],
       stores := w.stores - {s})
  }

  predicate Belongs(w: World, p: ProcessId, t: Target, h: Handle) {
    || (t in TableOf(w, p) && TableOf(w, p)[t].handle == h)
    || exists s :: s in w.stores && w.stores[s].process == p && LeasedBy(w.stores[s], t, h)
  }

  /** The operating system frees every lock a dead process held. */
  function Died(w: World, p: ProcessId): World {
    w.(held := map t | t in w.held && !Belongs(w, p, t, w.held[t]) :: w.held[t],
       tables := w.tables - {p},
       stores := map s | s in w.stores && w.stores[s].process != p :: w.stores[s])
  }

  function Opened(w: World, s: StoreId, p: ProcessId): World {
    w.(stores := w.stores[s := StoreState(p, map[], None, false, None, false)])
  }

  /** One step of a run; an action that makes no sense changes nothing. */
  function After(w: World, a: Action): World {
    match a
    case Call(s, op, note, quota) => if s in w.stores then Called(w, s, op, note, quota) else w
    case Open(s, p) => if s in w.stores then w else Opened(w, s, p)
    case Drop(s) => if s in w.stores then Dropped(w, s) else w
    case Die(p) => Died(w, p)
  }

  function Run(w: World, actions: seq<Action>): World {
    if actions == [] then w else After(Run(w, actions[..|actions| - 1]), actions[|actions| - 1])
  }

  // ------------------------------------------------------------------ locks

  ghost predicate Leased(w: World, s: StoreId, t: Target) {
    s in w.stores && t in w.stores[s].leases
  }

  function LeaseOf(w: World, s: StoreId, t: Target): Lease
    requires Leased(w, s, t)
  {
    w.stores[s].leases[t]
  }

  ghost predicate InUse(w: World) {
    && (forall s, t :: Leased(w, s, t) ==> LeaseOf(w, s, t).token < w.unused && LeaseOf(w, s, t).handle < w.unused)
    && (forall t :: t in w.held ==> w.held[t] < w.unused)
  }

  ghost predicate Unshared(w: World) {
    forall s1, t1, s2, t2 :: Leased(w, s1, t1) && Leased(w, s2, t2) && (s1 != s2 || t1 != t2) ==>
      (LeaseOf(w, s1, t1).handle != LeaseOf(w, s2, t2).handle && LeaseOf(w, s1, t1).token != LeaseOf(w, s2, t2).token)
  }

  ghost predicate TablesOpen(w: World) {
    forall p, t :: t in TableOf(w, p) ==> IsOpen(w.held, t, TableOf(w, p)[t].handle)
  }

  ghost predicate TablesApart(w: World) {
    forall p, q, t :: t in TableOf(w, p) && t in TableOf(w, q) ==> p == q
  }

  ghost predicate OpenListed(w: World) {
    forall s, t :: Leased(w, s, t) && IsOpen(w.held, t, LeaseOf(w, s, t).handle) ==>
      t in TableOf(w, w.stores[s].process) && TableOf(w, w.stores[s].process)[t].handle == LeaseOf(w, s, t).handle
  }

  /** Leases, tables and lock files agree, and no token or handle is shared. */
  ghost predicate LocksAgree(w: World) {
    InUse(w) && Unshared(w) && TablesOpen(w) && TablesApart(w) && OpenListed(w)
  }

  lemma WithLocksReads(w: World, s: StoreId, l: Locks)
    requires s in w.stores
    ensures var w' := WithLocks(w, s, l);
            && w'.stores.Keys == w.stores.Keys
            && (forall r :: r in w.stores ==> w'.stores[r].process == w.stores[r].process)
            && (forall r, t :: Leased(w', r, t) <==> if r == s then t in l.leases else Leased(w, r, t))
            && (forall r, t :: Leased(w', r, t) ==>
                  LeaseOf(w', r, t) == (if r == s then l.leases[t] else LeaseOf(w, r, t)))
            && (forall p :: TableOf(w', p) == if p == w.stores[s].process then l.table else TableOf(w, p))
  {
  }

  lemma FenceKeepsLocks(w: World, s: StoreId, t: Target)
    requires LocksAgree(w) && s in w.stores
    ensures LocksAgree(WithLocks(w, s, Fence(LocksOf(w, s), t)))
  {
    WithLocksReads(w, s, Fence(LocksOf(w, s), t));
    var w' := WithLocks(w, s, Fence(LocksOf(w, s), t));
    assert forall r, u :: Leased(w', r, u) ==> Leased(w, r, u) && LeaseOf(w', r, u) == LeaseOf(w, r, u);
    assert InUse(w');
    assert Unshared(w');
    assert TablesOpen(w');
    assert TablesApart(w');
    assert OpenListed(w');
  }

  lemma SameKeepsLocks(w: World, s: StoreId)
    requires LocksAgree(w) && s in w.stores
    ensures LocksAgree(WithLocks(w, s, LocksOf(w, s)))
  {
    WithLocksReads(w, s, LocksOf(w, s));
    var w' := WithLocks(w, s, LocksOf(w, s));
    assert forall r, u :: Leased(w', r, u) ==> Leased(w, r, u) && LeaseOf(w', r, u) == LeaseOf(w, r, u);
    assert InUse(w') && Unshared(w') && TablesOpen(w') && TablesApart(w') && OpenListed(w');
  }

  lemma GrantReads(w: World, s: StoreId, t: Target)
    requires s in w.stores && t !in w.stores[s].leases && t !in w.held
    ensures var w' := WithLocks(w, s, Granting(LocksOf(w, s), t));
            && LeaseOf(w', s, t) == Lease(w.unused, w.unused)
            && (forall r, u :: Leased(w', r, u) && !(r == s && u == t) ==>
                  Leased(w, r, u) && LeaseOf(w', r, u) == LeaseOf(w, r, u))
            && (forall q, u :: u in TableOf(w', q) && !(q == w.stores[s].process && u == t) ==>
                  u in TableOf(w, q) && TableOf(w', q)[u] == TableOf(w, q)[u])
  {
    WithLocksReads(w, s, Granting(LocksOf(w, s), t));
  }

  lemma GrantIsUnshared(w: World, s: StoreId, t: Target)
    requires LocksAgree(w) && s in w.stores && t !in w.stores[s].leases && t !in w.held
    ensures var w' := WithLocks(w, s, Granting(LocksOf(w, s), t));
            InUse(w') && Unshared(w')
  {
    GrantReads(w, s, t);
  }

  lemma GrantKeepsLocks(w: World, s: StoreId, t: Target)
    requires LocksAgree(w) && s in w.stores && t !in w.stores[s].leases && t !in w.held
    ensures LocksAgree(WithLocks(w, s, Granting(LocksOf(w, s), t)))
  {
    var w' := WithLocks(w, s, Granting(LocksOf(w, s), t));
    GrantReads(w, s, t);
    GrantIsUnshared(w, s, t);
    assert forall q :: t !in TableOf(w, q);
    assert TablesOpen(w');
    assert TablesApart(w');
    forall r, u | Leased(w', r, u) && IsOpen(w'.held, u, LeaseOf(w', r, u).handle)
      ensures u in TableOf(w', w'.stores[r].process)
              && TableOf(w', w'.stores[r].process)[u].handle == LeaseOf(w', r, u).handle
    {
      if u != t {
        assert Leased(w, r, u) && IsOpen(w.held, u, LeaseOf(w, r, u).handle);
        assert u in TableOf(w, w.stores[r].process);
      } else {
        assert LeaseOf(w', r, u).handle == w.unused;
        assert r == s;
      }
    }
  }

  lemma AcquireKeepsLocks(w: World, s: StoreId, t: Target, expected: Option<Token>, fence: bool)
    requires LocksAgree(w) && s in w.stores
    ensures LocksAgree(WithLocks(w, s, Acquire(LocksOf(w, s), t, expected, fence).0))
  {
    var l := LocksOf(w, s);
    SameKeepsLocks(w, s);
    if t !in l.leases {
      if fence {
        var l1 := Fence(l, t);
        FenceKeepsLocks(w, s, t);
        var w1 := WithLocks(w, s, l1);
        if t !in l1.held {
          WithLocksTwice(w, s, l1, Granting(l1, t));
          GrantKeepsLocks(w1, s, t);
        }
      } else if t !in l.held {
        GrantKeepsLocks(w, s, t);
      }
    }
  }

  lemma WithLocksTwice(w: World, s: StoreId, l1: Locks, l2: Locks)
    requires s in w.stores
    ensures WithLocks(WithLocks(w, s, l1), s, l2) == WithLocks(w, s, l2)
    ensures LocksOf(WithLocks(w, s, l1), s) == l1
  {
  }

  lemma ReleaseKeepsLocks(w: World, s: StoreId, t: Target)
    requires LocksAgree(w) && s in w.stores
    ensures LocksAgree(WithLocks(w, s, Release(LocksOf(w, s), t)))
  {
    WithLocksReads(w, s, Release(LocksOf(w, s), t));
    var w' := WithLocks(w, s, Release(LocksOf(w, s), t));
    assert forall r, u :: Leased(w', r, u) ==> Leased(w, r, u) && LeaseOf(w', r, u) == LeaseOf(w, r, u);
    assert InUse(w');
    assert Unshared(w');
    assert TablesOpen(w');
    assert TablesApart(w');
    assert OpenListed(w');
  }

  /** A process lists only leases of its own stores. */
  lemma ForeignEntry(w: World, q: ProcessId, t: Target, s: StoreId)
    requires LocksAgree(w) && t in TableOf(w, q) && s in w.stores && w.stores[s].process != q
    ensures !LeasedBy(w.stores[s], t, TableOf(w, q)[t].handle)
  {
    assert LeasedBy(w.stores[s], t, TableOf(w, q)[t].handle) ==>
      Leased(w, s, t) && IsOpen(w.held, t, LeaseOf(w, s, t).handle);
  }

  lemma DropKeepsLocks(w: World, s: StoreId)
    requires LocksAgree(w) && s in w.stores
    ensures LocksAgree(Dropped(w, s))
  {
    var w' := Dropped(w, s);
    var p := w.stores[s].process;
    var table := TableOf(w, p);
    forall q, t | t in TableOf(w', q)
      ensures t in TableOf(w, q) && TableOf(w', q)[t] == TableOf(w, q)[t]
      ensures !LeasedBy(w.stores[s], t, TableOf(w, q)[t].handle)
    {
      if q != p {
        ForeignEntry(w, q, t, s);
      }
    }
    assert forall r, t :: Leased(w', r, t) ==> Leased(w, r, t) && LeaseOf(w', r, t) == LeaseOf(w, r, t) && r != s;
    assert InUse(w') && Unshared(w') && TablesOpen(w') && TablesApart(w');
    forall r, t | Leased(w', r, t) && IsOpen(w'.held, t, LeaseOf(w', r, t).handle)
      ensures t in TableOf(w', w'.stores[r].process)
              && TableOf(w', w'.stores[r].process)[t].handle == LeaseOf(w', r, t).handle
    {
      assert Leased(w, r, t) && IsOpen(w.held, t, LeaseOf(w, r, t).handle);
      assert !LeasedBy(w.stores[s], t, LeaseOf(w, r, t).handle);
    }
  }

  lemma DeathKeepsLocks(w: World, p: ProcessId)
    requires LocksAgree(w)
    ensures LocksAgree(Died(w, p))
  {
    var w' := Died(w, p);
    forall q, t | t in TableOf(w', q)
      ensures q != p && t in TableOf(w, q) && TableOf(w', q)[t] == TableOf(w, q)[t]
      ensures !Belongs(w, p, t, TableOf(w, q)[t].handle)
    {
      forall s | s in w.stores && w.stores[s].process == p
        ensures !LeasedBy(w.stores[s], t, TableOf(w, q)[t].handle)
      {
        ForeignEntry(w, q, t, s);
      }
    }
    assert forall r, t :: Leased(w', r, t) ==>
      Leased(w, r, t) && LeaseOf(w', r, t) == LeaseOf(w, r, t) && w.stores[r].process != p;
    assert InUse(w') && Unshared(w') && TablesOpen(w') && TablesApart(w');
    assert forall r, t :: Leased(w', r, t) && IsOpen(w'.held, t, LeaseOf(w', r, t).handle) ==>
      IsOpen(w.held, t, LeaseOf(w, r, t).handle);
  }
}
