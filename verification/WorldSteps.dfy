/** What each action of a run does to the world, said by its reply and by who holds which lock file. */
module WorldSteps {
  import opened Wrappers
  import opened Records
  import opened Durable
  import opened Commit
  import opened Leases
  import opened Operations
  import opened Decisions
  import opened Crash
  import opened Publication
  import opened StoreRuns
  import opened Safety
  import opened Answers

  /** What a call of an operation tells the log: who was told to run, who crossed a boundary or reached a checkpoint. */
  predicate Tidings(op: Operation, reply: Reply, before: Option<Body>, news: seq<Event>) {
    if op.Prepare? && reply.Proceed? then
      |news| == 1 && news[0] == ToldToRun(op.target, reply.attempt, news[0].at)
    else if op.MarkSideEffect? && reply == Done then
      before.Some? && |news| == 1 && news[0] == BoundaryCrossed(op.target, before.value.attempt, news[0].at)
    else if op.MarkCheckpoint? && reply == Done then
      before.Some? && |news| == 1 && news[0] == CheckpointReached(op.target, before.value.attempt, news[0].at)
    else news == []
  }

  /**
    In an accepted run a call leaves the files, locks and store the operation leaves, everybody else's alone, and one
    event for each executor that was let run, began its effect or stopped at a checkpoint.
   */
  lemma CallIsRecorded(actions: seq<Action>, s: StoreId, op: Operation, note: string, quota: nat)
    requires s in Run(START, actions).stores && Accepts(Run(START, actions).disk)
    ensures var w := Run(START, actions);
            var w' := After(w, Call(s, op, note, quota));
            var (v', reply) := Perform(ViewOf(w, s, quota), op, note);
            && w'.disk == v'.disk && ViewOf(w', s, v'.quota) == v' && w'.stores.Keys == w.stores.Keys
            && (forall r :: r in w.stores && r != s ==> w'.stores[r] == w.stores[r])
            && w.log <= w'.log
            && Tidings(op, reply, if op.Initialize? || op.Publish? then None else Head(w.disk, op.target),
                       w'.log[|w.log|..])
  {
    hide Perform;
    hide Accepts;
    hide Sane;
    hide Run;
    hide LastCommitted;
    hide ChainsRecorded;
    var w := Run(START, actions);
    var (v', reply) := Perform(ViewOf(w, s, quota), op, note);
    EveryRunIsSane(actions);
    SaneChains(w);
    ManifestStays(w.disk);
    if !op.Initialize? && !op.Publish? {
      OwnerAtHead(w.disk, op.target);
    }
    CallCounts(ViewOf(w, s, quota), op, note);
    SilentWithoutHead(actions, s, op, note, quota);
  }

  lemma ManifestStays(d: Disk)
    requires Accepts(d)
    ensures d.manifest.Some?
  {
  }

  /** Nobody marks a target that has no snapshot. */
  lemma SilentWithoutHead(actions: seq<Action>, s: StoreId, op: Operation, note: string, quota: nat)
    requires s in Run(START, actions).stores && Accepts(Run(START, actions).disk)
    ensures var reply := Perform(ViewOf(Run(START, actions), s, quota), op, note).1;
            (op.MarkSideEffect? || op.MarkCheckpoint?) && reply == Done ==>
              Head(Run(START, actions).disk, op.target).Some?
  {
    hide Perform;
    hide Accepts;
    hide Run;
    hide LastCommitted;
    if op.MarkSideEffect? || op.MarkCheckpoint? {
      var w := Run(START, actions);
      EveryRunIsSane(actions);
      SaneChains(w);
      ManifestStays(w.disk);
      UpdateTold(ViewOf(w, s, quota), op, note);
    }
  }

  /** The lock file of a target is held under a lease of this store. */
  predicate HeldBy(w: World, s: StoreId, t: Target) {
    s in w.stores && t in w.stores[s].leases && t in w.held && w.held[t] == w.stores[s].leases[t].handle
  }

  /** A dead process loses its stores and every lock file they held; everybody else keeps theirs. */
  lemma DeathFreesItsLocks(actions: seq<Action>, p: ProcessId, t: Target)
    ensures var w := Run(START, actions);
            var w' := After(w, Die(p));
            && (forall s :: s in w'.stores <==> s in w.stores && w.stores[s].process != p)
            && (forall s :: s in w'.stores ==> w'.stores[s] == w.stores[s])
            && (forall s :: HeldBy(w, s, t) && w.stores[s].process == p ==> t !in w'.held)
            && (forall s :: HeldBy(w, s, t) && w.stores[s].process != p ==> HeldBy(w', s, t))
            && w'.disk == w.disk && w'.log == w.log
  {
    hide Run;
    var w := Run(START, actions);
    EveryRunIsSane(actions);
    forall s | HeldBy(w, s, t)
      ensures Belongs(w, p, t, w.held[t]) <==> w.stores[s].process == p
    {
      assert Leased(w, s, t) && IsOpen(w.held, t, LeaseOf(w, s, t).handle);
      assert LeasedBy(w.stores[s], t, w.held[t]);
      forall r | r in w.stores && LeasedBy(w.stores[r], t, w.held[t])
        ensures r == s
      {
        assert Leased(w, r, t);
      }
    }
  }

  /** A discarded store gives back the lock files it held, and nobody else's. */
  lemma DropFreesItsLocks(actions: seq<Action>, s: StoreId, t: Target)
    requires s in Run(START, actions).stores
    ensures var w := Run(START, actions);
            var w' := After(w, Drop(s));
            && w'.stores == w.stores - {s}
            && (HeldBy(w, s, t) ==> t !in w'.held)
            && (forall r :: r != s && HeldBy(w, r, t) ==> HeldBy(w', r, t))
            && w'.disk == w.disk && w'.log == w.log
  {
    hide Run;
    var w := Run(START, actions);
    EveryRunIsSane(actions);
    forall r | r != s && HeldBy(w, r, t)
      ensures !LeasedBy(w.stores[s], t, w.held[t])
    {
      assert Leased(w, r, t);
      assert LeasedBy(w.stores[s], t, w.held[t]) ==> Leased(w, s, t);
    }
  }

  /** A store that is opened starts with nothing. */
  lemma OpenedStartsEmpty(w: World, s: StoreId, p: ProcessId)
    requires s !in w.stores
    ensures var w' := After(w, Open(s, p));
            && w'.stores == w.stores[s := StoreState(p, map[], None, false, None, false)]
            && w'.disk == w.disk && w'.held == w.held && w'.log == w.log
  {
  }
}
