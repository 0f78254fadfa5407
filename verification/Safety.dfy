/** What holds in every reachable state of every run of the attempt store. */
module Safety {
  import opened Wrappers
  import opened Records
  import opened Durable
  import opened Protocol
  import opened Commit
  import opened Leases
  import opened Operations
  import opened Effects
  import opened Decisions
  import opened Growth
  import opened StoreRuns

  // ------------------------------------------------------------- invariants

  function Chain(w: World, t: Target): seq<Entry> {
    if w.disk.manifest.Some? then ChainOf(w.disk.manifest.value, t) else []
  }

  function BodyAt(w: World, t: Target, i: nat): Body
    requires i < |Chain(w, t)|
  {
    Chain(w, t)[i].digest.snapshot.body
  }

  predicate EventTrue(w: World, e: Event) {
    && 0 < e.at <= |Chain(w, e.target)|
    && match e
       case ToldToRun(t, n, at) => Runs(BodyAt(w, t, at - 1), n)
       case BoundaryCrossed(t, n, at) => Crossed(BodyAt(w, t, at - 1), n)
       case CheckpointReached(t, n, at) => Checkpointed(BodyAt(w, t, at - 1), n)
  }

  ghost predicate LogTrue(w: World) {
    forall i :: 0 <= i < |w.log| ==> EventTrue(w, w.log[i])
  }

  ghost predicate LogOrdered(w: World) {
    forall i, j :: 0 <= i < j < |w.log| && w.log[i].target == w.log[j].target ==> w.log[i].at <= w.log[j].at
  }

  ghost predicate Logged(w: World, e: Event) {
    e in w.log
  }

  ghost predicate CheckpointsLogged(w: World) {
    forall t, p :: 0 <= p < |Chain(w, t)| && BodyAt(w, t, p).status.CheckpointPending? ==>
      Logged(w, CheckpointReached(t, BodyAt(w, t, p).attempt, p + 1))
  }

  ghost predicate Sane(w: World) {
    && ChainsRecorded(w.disk)
    && LocksAgree(w)
    && LogTrue(w) && LogOrdered(w) && CheckpointsLogged(w)
  }

  // ------------------------------------------------------------------ locks

  lemma ExecuteKeepsLocks(w: World, s: StoreId, v: View, t: Target, expected: Option<Token>, step: Step)
    requires LocksAgree(w) && s in w.stores && v.locks == LocksOf(w, s) && v.disk.manifest.Some?
    ensures LocksAgree(WithLocks(w, s, Execute(v, t, expected, step).0.locks))
  {
    hide LocksAgree;
    hide Acquire;
    hide Release;
    hide Holds;
    SameKeepsLocks(w, s);
    var (locks, grant) := Settle(v.locks, t, expected, step.mode);
    if step.mode.Claim? {
      AcquireKeepsLocks(w, s, t, expected, step.mode.fence);
    }
    var w1 := WithLocks(w, s, locks);
    WithLocksTwice(w, s, locks, Release(locks, t));
    ReleaseKeepsLocks(w1, s, t);
    ExecuteLocks(v, t, expected, step);
  }

  /** Carrying out a step leaves the locks as its lease settled them, or releases that lease. */
  lemma ExecuteLocks(v: View, t: Target, expected: Option<Token>, step: Step)
    requires v.disk.manifest.Some?
    ensures var locks := Settle(v.locks, t, expected, step.mode).0;
            var after := Execute(v, t, expected, step).0.locks;
            after == locks || after == Release(locks, t)
  {
    hide Settle;
    hide Release;
    hide FinalWrites;
    hide ApplyAll;
  }

  lemma ResolveKeepsLocks(w: World, s: StoreId, v: View, t: Target, attempt: int, retry: bool, reason: string,
                          note: string)
    requires LocksAgree(w) && s in w.stores && v.locks == LocksOf(w, s)
    ensures LocksAgree(WithLocks(w, s, PerformResolve(v, t, attempt, retry, reason, note).0.locks))
  {
    hide LocksAgree;
    hide Accepts;
    hide Execute;
    hide OwnAmbiguous;
    hide Settled;
    SameKeepsLocks(w, s);
    var (v1, ok) := Load(v);
    if ok && StateAt(v1.disk, t).Some? {
      var first := OwnAmbiguous(StateAt(v1.disk, t).value.snapshot.body, attempt, note);
      if first.Some? {
        ExecuteKeepsLocks(w, s, v1, t, OwnerOf(v1.disk, t), first.value);
        var v2 := Execute(v1, t, OwnerOf(v1.disk, t), first.value).0;
        if v2.disk.manifest.Some? && StateAt(v2.disk, t).Some? {
          var b := StateAt(v2.disk, t).value.snapshot.body;
          var w1 := WithLocks(w, s, v2.locks);
          WithLocksTwice(w, s, v2.locks, Execute(v2, t, b.owner, Settled(b, retry, reason, note)).0.locks);
          ExecuteKeepsLocks(w1, s, v2, t, b.owner, Settled(b, retry, reason, note));
        }
      }
    }
  }

  /** Publishing and initialising touch no lease. */
  lemma ManifestOpsKeepLocks(v: View, op: Operation, note: string)
    requires op.Initialize? || op.Publish?
    ensures Perform(v, op, note).0.locks == v.locks
  {
    hide Accepts;
    hide Admitted;
    hide ValidManifest;
  }

  lemma DecidedKeepsLocks(w: World, s: StoreId, v: View, op: Operation, note: string)
    requires LocksAgree(w) && s in w.stores && v.locks == LocksOf(w, s) && (OnExistingState(op) || op.Prepare?)
    ensures LocksAgree(WithLocks(w, s, PerformDecided(v, op, note).0.locks))
  {
    hide LocksAgree;
    hide Accepts;
    hide Execute;
    hide Decide;
    SameKeepsLocks(w, s);
    var (v1, ok) := Load(v);
    if ok && Decide(op, note, v1.disk).Advance? {
      ExecuteKeepsLocks(w, s, v1, op.target, OwnerOf(v1.disk, op.target), Decide(op, note, v1.disk).step);
    }
  }

  lemma PerformKeepsLocks(w: World, s: StoreId, op: Operation, note: string, quota: nat)
    requires LocksAgree(w) && s in w.stores
    ensures LocksAgree(WithLocks(w, s, Perform(ViewOf(w, s, quota), op, note).0.locks))
  {
    hide LocksAgree;
    hide PerformResolve;
    hide PerformDecided;
    hide PerformPublish;
    hide PerformInitialize;
    hide WithLocks;
    var v := ViewOf(w, s, quota);
    match op
    case Initialize(_) =>
      SameKeepsLocks(w, s);
      ManifestOpsKeepLocks(v, op, note);
    case Publish(_, _, _) =>
      SameKeepsLocks(w, s);
      ManifestOpsKeepLocks(v, op, note);
    case Resolve(t, attempt, retry, reason) => ResolveKeepsLocks(w, s, v, t, attempt, retry, reason, note);
    case _ => DecidedKeepsLocks(w, s, v, op, note);
  }

  /** Leases depend only on the stores' leases, the tables and the lock files. */
  lemma LocksOnly(w: World, w': World)
    requires LocksAgree(w) && w'.held == w.held && w'.unused == w.unused && w'.tables == w.tables
    requires w'.stores.Keys == w.stores.Keys
    requires forall s :: s in w.stores ==>
               w'.stores[s].process == w.stores[s].process && w'.stores[s].leases == w.stores[s].leases
    ensures LocksAgree(w')
  {
    assert forall p :: TableOf(w', p) == TableOf(w, p);
    assert forall s, t :: Leased(w', s, t) ==> Leased(w, s, t) && LeaseOf(w', s, t) == LeaseOf(w, s, t);
  }

  // -------------------------------------------------------------------- log

  /** Growing chains keep every logged event true. */
  lemma EventStaysTrue(w: World, w': World, e: Event)
    requires EventTrue(w, e) && Chain(w, e.target) <= Chain(w', e.target)
    ensures EventTrue(w', e)
  {
    assert Chain(w', e.target)[e.at - 1] == Chain(w, e.target)[e.at - 1];
  }

  /** A step whose events are true, recent and cover every new checkpoint keeps the log faithful. */
  lemma LogGrows(w: World, w': World, news: seq<Event>)
    requires LogTrue(w) && LogOrdered(w) && CheckpointsLogged(w)
    requires w'.log == w.log + news && |news| <= 1
    requires forall t :: Chain(w, t) <= Chain(w', t)
    requires |news| == 1 ==> EventTrue(w', news[0]) && news[0].at == |Chain(w', news[0].target)|
    requires forall t, p :: |Chain(w, t)| <= p < |Chain(w', t)| && BodyAt(w', t, p).status.CheckpointPending? ==>
               news == [CheckpointReached(t, BodyAt(w', t, p).attempt, p + 1)]
    ensures LogTrue(w') && LogOrdered(w') && CheckpointsLogged(w')
  {
    forall i | 0 <= i < |w'.log|
      ensures EventTrue(w', w'.log[i])
    {
      if i < |w.log| {
        assert w'.log[i] == w.log[i];
        EventStaysTrue(w, w', w.log[i]);
      }
    }
    forall i, j | 0 <= i < j < |w'.log| && w'.log[i].target == w'.log[j].target
      ensures w'.log[i].at <= w'.log[j].at
    {
      assert w'.log[i] == w.log[i];
      if j < |w.log| {
        assert w'.log[j] == w.log[j];
      } else {
        assert EventTrue(w, w.log[i]);
        assert |Chain(w, w.log[i].target)| <= |Chain(w', w.log[i].target)|;
      }
    }
    forall t, p | 0 <= p < |Chain(w', t)| && BodyAt(w', t, p).status.CheckpointPending?
      ensures Logged(w', CheckpointReached(t, BodyAt(w', t, p).attempt, p + 1))
    {
      if p < |Chain(w, t)| {
        assert Chain(w', t)[p] == Chain(w, t)[p];
        assert Logged(w, CheckpointReached(t, BodyAt(w, t, p).attempt, p + 1));
      } else {
        assert news[0] in w'.log;
      }
    }
  }

  lemma CallKeepsLog(w: World, s: StoreId, op: Operation, note: string, quota: nat)
    requires Sane(w) && s in w.stores
    ensures var w' := Called(w, s, op, note, quota);
            ChainsRecorded(w'.disk) && LogTrue(w') && LogOrdered(w') && CheckpointsLogged(w')
            && forall t :: Chain(w, t) <= Chain(w', t)
  {
    hide LogTrue;
    hide LogOrdered;
    hide CheckpointsLogged;
    hide LocksAgree;
    hide Perform;
    var v := ViewOf(w, s, quota);
    var (v', reply) := Perform(v, op, note);
    var w' := Called(w, s, op, note, quota);
    var news := Happened(op, reply, w.disk, v'.disk);
    assert w'.log == w.log + news && w'.disk == v'.disk;
    if OnExistingState(op) || op.Prepare? {
      DecidedCall(w, s, op, note, quota);
    } else {
      QuietCall(w, s, op, note, quota);
    }
    LogGrows(w, w', news);
  }

  lemma QuietCall(w: World, s: StoreId, op: Operation, note: string, quota: nat)
    requires ChainsRecorded(w.disk) && s in w.stores && !(OnExistingState(op) || op.Prepare?)
    ensures var (v', reply) := Perform(ViewOf(w, s, quota), op, note);
            var w' := Called(w, s, op, note, quota);
            && Happened(op, reply, w.disk, v'.disk) == []
            && ChainsRecorded(w'.disk)
            && (forall t :: Chain(w, t) <= Chain(w', t))
            && (forall t, p :: |Chain(w, t)| <= p < |Chain(w', t)| ==> !BodyAt(w', t, p).status.CheckpointPending?)
  {
    hide Accepts;
    hide PerformResolve;
    hide PerformPublish;
    hide PerformInitialize;
    hide OneCommit;
    hide ChainsRecorded;
    var v := ViewOf(w, s, quota);
    if op.Resolve? {
      var mid := ResolveEffect(v, op.target, op.attempt, op.retry, op.reason, note);
    } else {
      ManifestEffect(v, op, note);
    }
    var w' := Called(w, s, op, note, quota);
    assert GrowsBy(w.disk, w'.disk, if op.Resolve? then op.target else "",
                   if op.Resolve? then {Status.Ambiguous, if op.retry then RetryScheduled else Failed} else {});
  }

  function ChainIn(d: Disk, t: Target): seq<Entry> {
    if d.manifest.Some? then ChainOf(d.manifest.value, t) else []
  }

  lemma ExplainedGrowth(d: Disk, d': Disk, op: Operation, reply: Reply, body: Body)
    requires ChainsRecorded(d) && (OnExistingState(op) || op.Prepare?)
    requires Explains(d, d', op, reply, body) && (d'.manifest.None? <==> d.manifest.None?)
    ensures ChainsRecorded(d')
    ensures forall t :: ChainIn(d, t) <= ChainIn(d', t) && (t != op.target ==> ChainIn(d', t) == ChainIn(d, t))
    ensures forall t, p :: |ChainIn(d, t)| <= p < |ChainIn(d', t)| ==>
              t == op.target && p + 1 == |ChainIn(d', t)| && ChainIn(d', t)[p].digest.snapshot.body == body
    ensures op.MarkSideEffect? && reply.Done? ==>
              |ChainIn(d', op.target)| == |ChainIn(d, op.target)| + 1
    ensures op.MarkCheckpoint? && reply.Done? ==>
              |ChainIn(d', op.target)| == |ChainIn(d, op.target)| + 1
  {
    hide Recorded;
    hide MayFollow;
    var grew := d'.manifest.Some? && d.manifest.Some? && d'.manifest.value.chains != d.manifest.value.chains;
    if grew {
      AppendedIsRecorded(d, d', op.target, body);
      var chain := ChainOf(d.manifest.value, op.target);
      forall t
        ensures ChainIn(d', t) == if t == op.target then chain + [EntryOf(Seal(body, chain))] else ChainIn(d, t)
      {
      }
    } else {
      SameGrowsByNothing(d, d', op.target, {});
      assert forall t :: ChainIn(d', t) == ChainIn(d, t);
    }
  }

  lemma DecidedCall(w: World, s: StoreId, op: Operation, note: string, quota: nat)
    requires ChainsRecorded(w.disk) && s in w.stores && (OnExistingState(op) || op.Prepare?)
    ensures var (v', reply) := Perform(ViewOf(w, s, quota), op, note);
            var w' := Called(w, s, op, note, quota);
            var news := Happened(op, reply, w.disk, v'.disk);
            && ChainsRecorded(w'.disk)
            && (forall t :: Chain(w, t) <= Chain(w', t))
            && (|news| == 1 ==> EventTrue(w', news[0]) && news[0].at == |Chain(w', news[0].target)|)
            && (forall t, p :: |Chain(w, t)| <= p < |Chain(w', t)| && BodyAt(w', t, p).status.CheckpointPending? ==>
                  news == [CheckpointReached(t, BodyAt(w', t, p).attempt, p + 1)])
  {
    hide PerformDecided;
    hide ChainsRecorded;
    hide Appended;
    hide LocksOf;
    var v := ViewOf(w, s, quota);
    var body := DecidedEffect(v, op, note);
    var (v', reply) := Perform(v, op, note);
    var w' := Called(w, s, op, note, quota);
    assert w'.disk == v'.disk;
    ExplainedGrowth(w.disk, w'.disk, op, reply, body);
    assert forall t :: Chain(w, t) == ChainIn(w.disk, t) && Chain(w', t) == ChainIn(w'.disk, t);
  }

  // ------------------------------------------------------------------- runs

  lemma CallIsSane(w: World, s: StoreId, op: Operation, note: string, quota: nat)
    requires Sane(w) && s in w.stores
    ensures Sane(Called(w, s, op, note, quota))
  {
    hide LocksAgree;
    hide Perform;
    CallKeepsLog(w, s, op, note, quota);
    PerformKeepsLocks(w, s, op, note, quota);
    LocksOnly(WithLocks(w, s, Perform(ViewOf(w, s, quota), op, note).0.locks), Called(w, s, op, note, quota));
  }

  lemma OtherActionsAreSane(w: World, a: Action)
    requires Sane(w) && !a.Call?
    ensures Sane(After(w, a))
  {
    hide LocksAgree;
    hide LogTrue;
    hide LogOrdered;
    hide CheckpointsLogged;
    var w' := After(w, a);
    assert forall t :: Chain(w', t) == Chain(w, t);
    LogGrows(w, w', []);
    match a
    case Open(s, p) => if s !in w.stores { OpenKeepsLocks(w, s, p); }
    case Drop(s) => if s in w.stores { DropKeepsLocks(w, s); }
    case Die(p) => DeathKeepsLocks(w, p);
  }

  lemma OpenKeepsLocks(w: World, s: StoreId, p: ProcessId)
    requires LocksAgree(w) && s !in w.stores
    ensures LocksAgree(Opened(w, s, p))
  {
    var w' := Opened(w, s, p);
    assert forall q :: TableOf(w', q) == TableOf(w, q);
    assert forall r, t :: Leased(w', r, t) ==> Leased(w, r, t) && LeaseOf(w', r, t) == LeaseOf(w, r, t);
  }

  lemma StepIsSane(w: World, a: Action)
    requires Sane(w)
    ensures Sane(After(w, a))
  {
    hide Sane;
    hide Called;
    if a.Call? {
      if a.store in w.stores {
        CallIsSane(w, a.store, a.op, a.note, a.quota);
      }
    } else {
      OtherActionsAreSane(w, a);
    }
  }

  /** Every reachable state of every run is sane. */
  lemma {:induction false} EveryRunIsSane(actions: seq<Action>)
    ensures Sane(Run(START, actions))
    decreases |actions|
  {
    hide After;
    if actions != [] {
      EveryRunIsSane(actions[..|actions| - 1]);
      StepIsSane(Run(START, actions[..|actions| - 1]), actions[|actions| - 1]);
    }
  }

  // ----------------------------------------------------------- main results

  /**
    At most once past the side-effect boundary: after an executor crossed the boundary of attempt
    `n`, nobody is told to run attempt `n` again unless a checkpoint of attempt `n` came between.
   */
  lemma NoSecondRunPastTheBoundary(actions: seq<Action>, i: nat, j: nat, t: Target, n: int)
    requires var log := Run(START, actions).log;
             i < j < |log|
             && log[i] == BoundaryCrossed(t, n, log[i].at) && log[j] == ToldToRun(t, n, log[j].at)
    ensures var log := Run(START, actions).log;
            exists k :: i < k < j && log[k] == CheckpointReached(t, n, log[k].at)
  {
    hide Run;
    EveryRunIsSane(actions);
    NoSecondRun(Run(START, actions), i, j, t, n);
  }

  lemma NoSecondRun(w: World, i: nat, j: nat, t: Target, n: int)
    requires Sane(w) && i < j < |w.log|
    requires w.log[i] == BoundaryCrossed(t, n, w.log[i].at) && w.log[j] == ToldToRun(t, n, w.log[j].at)
    ensures exists k :: i < k < j && w.log[k] == CheckpointReached(t, n, w.log[k].at)
  {
    hide LocksAgree;
    hide Lawful;
    hide ValidChain;
    var chain := Chain(w, t);
    var p, q := w.log[i].at, w.log[j].at;
    assert EventTrue(w, w.log[i]) && EventTrue(w, w.log[j]);
    assert Recorded(t, chain);
    var h := History(chain);
    AtMostOncePerAttempt(h, n, p - 1, q - 1);
    var m :| p - 1 < m < q - 1 && Checkpointed(h[m], n);
    assert BodyAt(w, t, m).status.CheckpointPending?;
    assert Logged(w, CheckpointReached(t, n, m + 1));
    var k :| 0 <= k < |w.log| && w.log[k] == CheckpointReached(t, n, m + 1);
    assert i < k < j;
  }

  /** Tokens being unused before, at most one store passes the lease check of a target. */
  lemma AtMostOneHolder(actions: seq<Action>, r: StoreId, s: StoreId, t: Target)
    requires var w := Run(START, actions);
             r in w.stores && s in w.stores
             && Holds(LocksOf(w, r), t, OwnerOf(w.disk, t)) && Holds(LocksOf(w, s), t, OwnerOf(w.disk, t))
    ensures r == s
  {
    hide After;
    EveryRunIsSane(actions);
    var w := Run(START, actions);
    assert Leased(w, r, t) && Leased(w, s, t);
  }
}
