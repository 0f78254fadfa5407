/** Runs, from nothing, that show where the attempt store keeps less than it promises. */
module Witnesses {
  import opened Wrappers
  import opened Records
  import opened Durable
  import opened Commit
  import opened Leases
  import opened Operations
  import opened Effects
  import opened Decisions
  import opened Growth
  import opened Acceptance
  import opened Publication
  import opened StoreRuns
  import opened Safety
  import opened Ledger
  import opened Refinement
  import opened Fencing

  const NODE: Target := "node"
  const PLAIN := Identity(None, "", "")

  // ------------------------------------------------------ one finished call

  /** A decision that goes through: its lease is granted, nothing blocks it, and the writes it needs succeed. */
  predicate GoesThrough(v: View, op: Operation)
    requires v.disk.manifest.Some? && (OnExistingState(op) || op.Prepare?)
  {
    var decision := Decide(op, "", v.disk);
    && decision.Advance?
    && var step := decision.step;
       var grant := Settle(v.locks, op.target, OwnerOf(v.disk, op.target), step.mode).1;
       && step.snapshot && step.blocked.None? && step.decided.None?
       && !grant.Denied? && !(grant.Kept? && step.mode.Claim? && step.mode.adopt)
       && v.quota >= |step.before| + 4
  }

  lemma Finishes(v: View, t: Target, expected: Option<Token>, step: Step)
    requires v.disk.manifest.Some? && step.snapshot && step.blocked.None? && v.quota >= |step.before| + 4
    requires var grant := Settle(v.locks, t, expected, step.mode).1;
             !grant.Denied? && !(grant.Kept? && step.mode.Claim? && step.mode.adopt)
    ensures var (v', out) := Execute(v, t, expected, step);
            var locks := Settle(v.locks, t, expected, step.mode).0;
            && out.Finished?
            && v'.locks == (if step.owner.ClearOwner? then Release(locks, t) else locks)
            && v'.fencing == v.fencing && v'.generation == Some(v.disk.manifest.value.generation)
  {
    hide Settle;
    hide ApplyAll;
    hide Release;
    var grant := Settle(v.locks, t, expected, step.mode).1;
    assert |FinalWrites(v.disk.manifest.value, t, step, grant.token)| <= 4;
    hide FinalWrites;
  }

  /** The files of a run with this status and generation whose only target stands at this snapshot. */
  predicate StandsUnder(d: Disk, status: RunStatus, generation: nat, t: Target, body: Body) {
    && d.manifest.Some? && d.manifest.value.status == status && d.manifest.value.generation == generation
    && d.folders.Keys == {t} && StateAt(d, t).Some? && StateAt(d, t).value.snapshot.body == body
  }

  predicate Stands(d: Disk, t: Target, body: Body) {
    StandsUnder(d, RunRunning, 0, t, body)
  }

  lemma StandsAfter(d: Disk, d': Disk, t: Target, step: Step, token: Token, before: Disk)
    requires d.manifest.Some?
    requires d.folders.Keys <= {t} && before.folders.Keys <= {t} && step.snapshot && step.decided.None?
    requires var rec := Seal(Owned(step.body, step.owner, token), ChainOf(d.manifest.value, t));
             var folder := Commit.Committed(FolderOf(before, t), rec);
             d' == Disk(Some(Published(d.manifest.value, t, step, token)), before.folders[t := folder],
                        before.recoveries)
    ensures var m := d.manifest.value;
            StandsUnder(d', m.status, m.generation, t, Owned(step.body, step.owner, token)) && d'.manifest != d.manifest
  {
    assert |ChainOf(d'.manifest.value, t)| == |ChainOf(d.manifest.value, t)| + 1;
  }

  lemma EarlyFolders(d: Disk, t: Target, before: seq<Write>)
    requires EarlyFiles(t, before) && d.folders.Keys <= {t}
    ensures ApplyAll(d, before).folders.Keys <= {t}
  {
    EarlyWrites(d, t, before);
  }

  /** What such a call leaves. */
  lemma Lands(v: View, op: Operation)
    requires v.disk.manifest.Some?
    requires Accepts(v.disk) && ChainsRecorded(v.disk) && (OnExistingState(op) || op.Prepare?) && GoesThrough(v, op)
    requires v.disk.folders.Keys <= {op.target}
    ensures var (v', reply) := Perform(v, op, "");
            var step := Decide(op, "", v.disk).step;
            var (locks, grant) := Settle(v.locks, op.target, OwnerOf(v.disk, op.target), step.mode);
            && reply == Decide(op, "", v.disk).reply
            && v'.locks == (if step.owner.ClearOwner? then Release(locks, op.target) else locks)
            && v'.fencing && v'.generation == Some(v.disk.manifest.value.generation)
            && StandsUnder(v'.disk, v.disk.manifest.value.status, v.disk.manifest.value.generation, op.target,
                           Owned(step.body, step.owner, grant.token))
            && v'.disk.manifest != v.disk.manifest
  {
    hide Accepts;
    hide Settle;
    hide Decide;
    hide Execute;
    hide ChainsRecorded;
    hide LawfulStep;
    hide StandsUnder;
    hide Release;
    hide ApplyAll;
    var (v1, ok) := Load(v);
    LoadAccepted(v);
    var step := Decide(op, "", v.disk).step;
    var t := op.target;
    DecisionIsLawful(op, "", v.disk);
    BodyTarget(ChainOf(v.disk.manifest.value, t), t, step);
    LawfulIsEarly(ChainOf(v.disk.manifest.value, t), t, step);
    ExecuteLanded(v1, t, OwnerOf(v1.disk, t), step);
    Finishes(v1, t, OwnerOf(v1.disk, t), step);
    EarlyFolders(v.disk, t, step.before);
    StandsAfter(v.disk, Execute(v1, t, OwnerOf(v1.disk, t), step).0.disk, t, step,
                Settle(v.locks, t, OwnerOf(v.disk, t), step.mode).1.token, ApplyAll(v.disk, step.before));
  }

  lemma LawfulIsEarly(chain: seq<Entry>, t: Target, step: Step)
    requires LawfulStep(chain, t, step)
    ensures EarlyFiles(t, step.before)
  {
  }

  // ------------------------------------------------------ one store's stages

  /** Two stores of one process; store 0 has the lease of the only target or not; where that target stands. */
  ghost predicate Stage(w: World, body: Option<Body>, leased: bool) {
    && Accepts(w.disk)
    && (if body.Some? then Stands(w.disk, NODE, body.value)
        else w.disk == Disk(Some(NewManifest("run")), map[], map[]) && w.unused == 0)
    && w.stores.Keys == {0, 1} && w.stores[0].process == 0
       && w.stores[1] == StoreState(0, map[], None, false, None, false)
    && w.stores[0].fencing && w.stores[0].generation == Some(0)
    && LocksAre(LocksOf(w, 0), leased)
  }

  predicate LocksAre(l: Locks, leased: bool) {
    && l.leases == (if leased then map[NODE := Lease(0, 0)] else map[])
    && l.table == (if leased then map[NODE := Lease(0, 0)] else map[])
    && l.held == (if leased then map[NODE := 0] else map[])
  }

  lemma LocksAfter(l: Locks, leased: bool, expected: Option<Token>, step: Step)
    requires LocksAre(l, leased) && (step.owner.ClearOwner? || leased || l.unused == 0)
    requires !Settle(l, NODE, expected, step.mode).1.Denied?
    ensures var locks := Settle(l, NODE, expected, step.mode).0;
            LocksAre(if step.owner.ClearOwner? then Release(locks, NODE) else locks, !step.owner.ClearOwner?)
  {
  }

  lemma LocksOfCalled(w: World, s: StoreId, op: Operation, note: string, quota: nat)
    requires s in w.stores
    ensures var v := Perform(ViewOf(w, s, quota), op, note).0;
            var w' := Called(w, s, op, note, quota);
            && w'.disk == v.disk && LocksOf(w', s) == v.locks && w'.stores.Keys == w.stores.Keys
            && w'.stores[s]
               == StoreState(w.stores[s].process, v.locks.leases, v.generation, v.fencing, v.admission, v.mutated)
            && forall r :: r in w.stores && r != s ==> w'.stores[r] == w.stores[r]
  {
    hide Perform;
  }

  /** One more call of store 0 that goes through and fits. */
  lemma Stepped(actions: seq<Action>, op: Operation, body: Option<Body>, leased: bool)
    requires Stage(Run(START, actions), body, leased) && (OnExistingState(op) || op.Prepare?) && op.target == NODE
    requires !op.ScheduleRecovery? && !op.RecordRecovery? && GoesThrough(ViewOf(Run(START, actions), 0, 5), op)
    requires op.Prepare? || (body.Some? && Fits(op, body.value))
    requires var w := Run(START, actions);
             Decide(op, "", w.disk).step.owner.ClearOwner? || leased || w.unused == 0
    ensures var w := Run(START, actions);
            var step := Decide(op, "", w.disk).step;
            var token := Settle(LocksOf(w, 0), NODE, OwnerOf(w.disk, NODE), step.mode).1.token;
            Stage(Run(START, actions + [Call(0, op, "", 5)]), Some(Owned(step.body, step.owner, token)),
                  !step.owner.ClearOwner?)
  {
    hide Accepts;
    hide Decide;
    hide Perform;
    hide GoesThrough;
    hide Fits;
    hide LocksAre;
    hide Release;
    hide Settle;
    hide StandsUnder;
    hide ChainsRecorded;
    hide Run;
    hide KeepsAccepted;
    var w := Run(START, actions);
    RunOneMore(START, actions, Call(0, op, "", 5));
    EveryRunIsSane(actions);
    SaneChains(w);
    DiskOfStage(w, body, leased);
    RunningKeeps(op, w.disk);
    Granted0(ViewOf(w, 0, 5), op);
    Lands(ViewOf(w, 0, 5), op);
    LocksOfCalled(w, 0, op, "", 5);
    LocksAfter(LocksOf(w, 0), leased, OwnerOf(w.disk, NODE), Decide(op, "", w.disk).step);
    AnswerIsNoFault(ViewOf(w, 0, 5), op);
    ReachableRunsStayAccepted(actions, 0, op, "", 5);
  }

  /** A running status rests on anything. */
  lemma RunningKeeps(op: Operation, d: Disk)
    requires d.manifest.Some? && d.manifest.value.status.RunRunning? && (OnExistingState(op) || op.Prepare?)
    ensures KeepsAccepted(op, d) <==> op.Prepare? || BodyIn(d, op.target).None? || Fits(op, BodyIn(d, op.target).value)
  {
    hide Fits;
  }

  lemma RunOneMore(w: World, actions: seq<Action>, a: Action)
    ensures Run(w, actions + [a]) == After(Run(w, actions), a)
  {
    hide After;
    assert (actions + [a])[..|actions|] == actions;
  }

  lemma DiskOfStage(w: World, body: Option<Body>, leased: bool)
    requires Stage(w, body, leased)
    ensures var d := w.disk;
            && d.manifest.Some? && d.manifest.value.status.RunRunning? && d.manifest.value.generation == 0
               && d.folders.Keys <= {NODE}
            && Accepts(d) && StateAt(d, NODE).Some? == body.Some?
            && (body.Some? ==> StateAt(d, NODE).value.snapshot.body == body.value)
  {
    hide Accepts;
  }

  lemma Granted0(v: View, op: Operation)
    requires v.disk.manifest.Some? && (OnExistingState(op) || op.Prepare?) && GoesThrough(v, op)
    ensures Decide(op, "", v.disk).Advance?
    ensures var step := Decide(op, "", v.disk).step;
            !Settle(v.locks, op.target, OwnerOf(v.disk, op.target), step.mode).1.Denied?
  {
    hide Decide;
    hide Settle;
  }

  lemma AnswerIsNoFault(v: View, op: Operation)
    requires v.disk.manifest.Some? && (OnExistingState(op) || op.Prepare?) && GoesThrough(v, op)
    ensures Decide(op, "", v.disk).reply != Raised(Interrupted)
  {
    hide ValidLedger;
    hide Settle;
  }

  // ------------------------------------------------------------------ stages

  const SETUP: seq<Action> := [Open(0, 0), Open(1, 0), Call(0, Initialize("run"), "", 1)]
  const PREPARED := SETUP + [Call(0, Prepare(NODE, PLAIN, true), "", 5)]
  const CROSSED := PREPARED + [Call(0, MarkSideEffect(NODE), "", 5)]
  const SAVED := PREPARED + [Call(0, SaveCandidate(NODE, Candidate("a", "")), "", 5)]
  const UNCERTAIN := CROSSED + [Call(0, Prepare(NODE, PLAIN, true), "", 5)]

  /** An attempt that failed and may be retried, under a status that says so. */
  const FAILING := RecordFailure(NODE, Some(Policy(2, {"timeout"})), Some("timeout"))
  const SCHEDULED := PREPARED + [Call(0, FAILING, "", 5)]
  const PUBLISHED := SCHEDULED + [Call(1, Publish(RunPendingRetry, [NODE], []), "", 1)]
  const RETRY: Body := RUNNING.(status := RetryScheduled, nextAttempt := 2, owner := None)

  const RUNNING: Body := StartBody(NODE, 1, PLAIN, "").(owner := Some(0))

  lemma SetUp()
    ensures Stage(Run(START, SETUP), None, false)
  {
    var d := Disk(Some(NewManifest("run")), map[], map[]);
    assert [Open(0, 0)] + [Open(1, 0)] + [Call(0, Initialize("run"), "", 1)] == SETUP;
    RunOneMore(START, [], Open(0, 0));
    RunOneMore(START, [Open(0, 0)], Open(1, 0));
    RunOneMore(START, [Open(0, 0)] + [Open(1, 0)], Call(0, Initialize("run"), "", 1));
    assert [] + [Open(0, 0)] == [Open(0, 0)];
    var w := Run(START, [Open(0, 0)] + [Open(1, 0)]);
    var idle := StoreState(0, map[], None, false, None, false);
    assert w == START.(stores := map[0 := idle, 1 := idle]);
    assert ApplyAll(EMPTY_DISK, [PutManifest(NewManifest("run"))])
           == Apply(EMPTY_DISK, PutManifest(NewManifest("run")));
    assert Perform(ViewOf(w, 0, 1), Initialize("run"), "").0.disk == d;
    assert Accepts(d);
  }

  lemma PreparedStands()
    ensures Stage(Run(START, PREPARED), Some(RUNNING), true)
  {
    hide Accepts;
    hide Run;
    SetUp();
    Stepped(SETUP, Prepare(NODE, PLAIN, true), None, false);
  }

  lemma CrossedStands()
    ensures Stage(Run(START, CROSSED), Some(RUNNING.(effect := true)), true)
  {
    hide Accepts;
    hide Run;
    PreparedStands();
    Stepped(PREPARED, MarkSideEffect(NODE), Some(RUNNING), true);
  }

  lemma SavedStands()
    ensures var body := RUNNING.(status := SuccessCandidate, candidate := Some(Candidate("a", "")), owner := None);
            Stage(Run(START, SAVED), Some(body), false)
  {
    hide Accepts;
    hide Run;
    PreparedStands();
    Stepped(PREPARED, SaveCandidate(NODE, Candidate("a", "")), Some(RUNNING), true);
  }

  lemma UncertainStands()
    ensures Stage(Run(START, UNCERTAIN), Some(RUNNING.(effect := true, status := Ambiguous, owner := None)), false)
  {
    hide Accepts;
    hide Run;
    CrossedStands();
    Stepped(CROSSED, Prepare(NODE, PLAIN, true), Some(RUNNING.(effect := true)), true);
  }

  // ----------------------------------------------------------- main results

  /** Store 1 fences store 0 and is stopped before its first write. */
  const FENCED := CROSSED + [Call(1, Prepare(NODE, PLAIN, true), "", 0)]

  lemma Interrupts(v: View, body: Body)
    requires Stands(v.disk, NODE, body) && Accepts(v.disk) && v.quota == 0
    requires body.status.Running? && body.effect && body.identity == PLAIN
    requires v.locks.leases == map[] && v.locks.table == map[NODE := Lease(0, 0)] && v.locks.held == map[NODE := 0]
    ensures var (v', reply) := Perform(v, Prepare(NODE, PLAIN, true), "");
            v'.disk == v.disk && reply == Raised(Interrupted) && v'.locks.held == map[] && v'.locks.leases == map[]
  {
    hide Accepts;
    hide FinalWrites;
    LoadAccepted(v);
    var v1 := Load(v).0;
    var step := Decide(Prepare(NODE, PLAIN, true), "", v1.disk).step;
    var l := Fence(v.locks, NODE);
    assert Settle(v.locks, NODE, OwnerOf(v1.disk, NODE), step.mode) == (Granting(l, NODE), Granted(l.unused));
    var ws := FinalWrites(v.disk.manifest.value, NODE, step, l.unused);
    assert |ws| > 0 by { LastIsWritten(v.disk.manifest.value, NODE, step, l.unused); }
    assert ws[..0] == [] && step.before[..0] == [];
  }

  lemma LastIsWritten(m: Manifest, t: Target, step: Step, token: Token)
    ensures |FinalWrites(m, t, step, token)| > 0
  {
  }

  lemma FencedStands()
    ensures var w := Run(START, FENCED);
            && w.disk == Run(START, CROSSED).disk && Accepts(w.disk)
            && 0 in w.stores && w.stores[0].leases == map[NODE := Lease(0, 0)] && w.held == map[]
            && Stands(w.disk, NODE, RUNNING.(effect := true))
  {
    hide Accepts;
    hide Perform;
    hide Run;
    hide StandsUnder;
    CrossedStands();
    var w := Run(START, CROSSED);
    RunOneMore(START, CROSSED, Call(1, Prepare(NODE, PLAIN, true), "", 0));
    Interrupts(ViewOf(w, 1, 0), RUNNING.(effect := true));
    LocksOfCalled(w, 1, Prepare(NODE, PLAIN, true), "", 0);
  }

  /** The exception is real: in this run store 0 is fenced, and its `prepare` still commits. */
  lemma FencedStoreCanCommit()
    ensures var w := Run(START, FENCED);
            && Accepts(w.disk) && Fenced(w, 0, NODE)
            && Chain(Run(START, FENCED + [Call(0, Prepare(NODE, PLAIN, true), "", 3)]), NODE) != Chain(w, NODE)
  {
    hide Accepts;
    hide Perform;
    hide Run;
    hide ChainsRecorded;
    var op := Prepare(NODE, PLAIN, true);
    FencedStands();
    var w := Run(START, FENCED);
    RunOneMore(START, FENCED, Call(0, op, "", 3));
    EveryRunIsSane(FENCED);
    SaneChains(w);
    FencedStoreCommitsOnlyAmbiguity(ViewOf(w, 0, 3), op, "");
    LocksOfCalled(w, 0, op, "", 3);
  }

  /** In this run publishing `failed` over one ambiguous attempt succeeds, and nobody can read the run any more. */
  lemma FailedCanBePublishedUnreadably()
    ensures 0 in Run(START, UNCERTAIN).stores
    ensures var w := Run(START, UNCERTAIN);
            var (v', reply) := Perform(ViewOf(w, 0, 1), Publish(RunFailed, [], [NODE]), "");
            && Accepts(w.disk) && reply.Done?
            && Run(START, UNCERTAIN + [Call(0, Publish(RunFailed, [], [NODE]), "", 1)]).disk == v'.disk
               && !Accepts(v'.disk)
  {
    hide Accepts;
    hide Run;
    UncertainStands();
    var w := Run(START, UNCERTAIN);
    RunOneMore(START, UNCERTAIN, Call(0, Publish(RunFailed, [], [NODE]), "", 1));
    PublishesUnreadably(ViewOf(w, 0, 1), RUNNING.(effect := true, status := Ambiguous, owner := None));
    LocksOfCalled(w, 0, Publish(RunFailed, [], [NODE]), "", 1);
  }

  lemma PublishesUnreadably(v: View, body: Body)
    requires Stands(v.disk, NODE, body) && Accepts(v.disk) && body.status.Ambiguous? && v.quota == 1
    requires v.fencing && v.generation == Some(0)
    ensures var (v', reply) := PerformPublish(v, RunFailed, [], [NODE]);
            reply.Done? && !Accepts(v'.disk)
  {
    hide Accepts;
    hide ValidManifest;
    hide ApplyAll;
    hide Admitted;
    hide Unbacked;
    hide States;
    AcceptedParts(v.disk);
    var m := v.disk.manifest.value;
    AmbiguousAdmitsFailure(v, body);
    OneManifestWrite(v, m.(status := RunFailed, pending := [], ambiguous := [NODE], generation := m.generation + 1));
    FailedIsUnreadableExactly(v, [], [NODE]);
  }

  lemma AmbiguousAdmitsFailure(v: View, body: Body)
    requires Stands(v.disk, NODE, body) && body.status.Ambiguous?
    ensures Admitted(v.disk.manifest.value, States(v.disk), RunFailed, v.mutated, v.admission)
            && Unbacked(States(v.disk))
  {
    var states := States(v.disk);
    assert states.Keys == {NODE} && states[NODE].snapshot.body == body;
  }

  /** A call of store 0 that goes through, but commits a candidate or completion that does not fit. */
  lemma MisfitIsRejected(actions: seq<Action>, op: Operation, body: Body, leased: bool)
    requires Stage(Run(START, actions), Some(body), leased) && OnExistingState(op) && op.target == NODE
    requires !op.ScheduleRecovery? && !op.RecordRecovery?
    requires GoesThrough(ViewOf(Run(START, actions), 0, 5), op) && !Fits(op, body)
    ensures Perform(ViewOf(Run(START, actions), 0, 5), op, "").1 == Decide(op, "", Run(START, actions).disk).reply
    ensures !Accepts(Run(START, actions + [Call(0, op, "", 5)]).disk)
  {
    hide Accepts;
    hide Decide;
    hide Perform;
    hide GoesThrough;
    hide Fits;
    hide Run;
    hide StandsUnder;
    hide ChainsRecorded;
    hide KeepsAccepted;
    var w := Run(START, actions);
    RunOneMore(START, actions, Call(0, op, "", 5));
    EveryRunIsSane(actions);
    SaneChains(w);
    DiskOfStage(w, Some(body), leased);
    RunningKeeps(op, w.disk);
    Granted0(ViewOf(w, 0, 5), op);
    Lands(ViewOf(w, 0, 5), op);
    LocksOfCalled(w, 0, op, "", 5);
    AnswerIsNoFault(ViewOf(w, 0, 5), op);
    ReachableRunsStayAccepted(actions, 0, op, "", 5);
  }

  /** In this run `save_candidate` takes a candidate made from other Prompts, and nobody can read the run any more. */
  lemma ForeignCandidateIsSaved()
    ensures var w := Run(START, PREPARED);
            var op := SaveCandidate(NODE, Candidate("a", "other"));
            && Accepts(w.disk) && 0 in w.stores && Perform(ViewOf(w, 0, 5), op, "").1.Done?
            && !Accepts(Run(START, PREPARED + [Call(0, op, "", 5)]).disk)
  {
    hide Accepts;
    hide Run;
    hide Perform;
    PreparedStands();
    MisfitIsRejected(PREPARED, SaveCandidate(NODE, Candidate("a", "other")), RUNNING, true);
  }

  /** And in this one `mark_completed` takes another artifact than the candidate that was saved. */
  lemma ForeignArtifactIsCompleted()
    ensures var w := Run(START, SAVED);
            var op := MarkCompleted(NODE, "b", Some("b"));
            && Accepts(w.disk) && 0 in w.stores && Perform(ViewOf(w, 0, 5), op, "").1.Done?
            && !Accepts(Run(START, SAVED + [Call(0, op, "", 5)]).disk)
  {
    hide Accepts;
    hide Run;
    hide Perform;
    SavedStands();
    MisfitIsRejected(SAVED, MarkCompleted(NODE, "b", Some("b")),
                     RUNNING.(status := SuccessCandidate, candidate := Some(Candidate("a", "")), owner := None), false);
  }

  lemma ScheduledStands()
    ensures Stage(Run(START, SCHEDULED), Some(RETRY), false)
  {
    hide Accepts;
    hide Run;
    PreparedStands();
    Stepped(PREPARED, FAILING, Some(RUNNING), true);
  }

  lemma PublishesRetry(v: View)
    requires Stands(v.disk, NODE, RETRY) && Accepts(v.disk) && v.quota == 1 && !v.fencing
    ensures var (v', reply) := PerformPublish(v, RunPendingRetry, [NODE], []);
            && reply.Done? && Accepts(v'.disk) && StandsUnder(v'.disk, RunPendingRetry, 1, NODE, RETRY)
               && v'.locks == v.locks
  {
    hide Accepts;
    hide ValidManifest;
    hide ApplyAll;
    AcceptedParts(v.disk);
    var m := v.disk.manifest.value;
    var states := States(v.disk);
    assert NODE in states && states[NODE].snapshot.body == RETRY;
    assert Admitted(m, states, RunPendingRetry, v.mutated, v.admission);
    OneManifestWrite(Load(v).0, m.(status := RunPendingRetry, pending := [NODE], ambiguous := [], generation := 1));
    PublishedStatusIsReadable(v, RunPendingRetry, [NODE], []);
  }

  lemma PublishedStands()
    ensures var w := Run(START, PUBLISHED);
            && Accepts(w.disk) && StandsUnder(w.disk, RunPendingRetry, 1, NODE, RETRY)
            && 0 in w.stores && LocksAre(LocksOf(w, 0), false)
  {
    hide Accepts;
    hide Run;
    hide StandsUnder;
    hide PerformPublish;
    ScheduledStands();
    var w := Run(START, SCHEDULED);
    var op := Publish(RunPendingRetry, [NODE], []);
    RunOneMore(START, SCHEDULED, Call(1, op, "", 1));
    PublishesRetry(ViewOf(w, 1, 1));
    LocksOfCalled(w, 1, op, "", 1);
  }

  lemma RetryGoesThrough(v: View)
    requires StandsUnder(v.disk, RunPendingRetry, 1, NODE, RETRY) && LocksAre(v.locks, false) && v.quota == 5
    ensures var op := Prepare(NODE, PLAIN, true);
            GoesThrough(v, op) && Decide(op, "", v.disk).reply == Proceed(2) && !KeepsAccepted(op, v.disk)
  {
    assert States(v.disk).Keys == {NODE};
  }

  /**
    A retry is scheduled and published; an executor that was there before prepares it, is told to run, and with the only
    scheduled retry gone nobody can read the run any more.
   */
  lemma PublishedRetryIsPrepared()
    ensures var w := Run(START, PUBLISHED);
            var op := Prepare(NODE, PLAIN, true);
            && Accepts(w.disk) && 0 in w.stores && Perform(ViewOf(w, 0, 5), op, "").1 == Proceed(2)
            && !Accepts(Run(START, PUBLISHED + [Call(0, op, "", 5)]).disk)
  {
    hide Accepts;
    hide Run;
    hide Perform;
    hide StandsUnder;
    hide GoesThrough;
    hide KeepsAccepted;
    hide ChainsRecorded;
    hide Decide;
    var op := Prepare(NODE, PLAIN, true);
    PublishedStands();
    var w := Run(START, PUBLISHED);
    RunOneMore(START, PUBLISHED, Call(0, op, "", 5));
    EveryRunIsSane(PUBLISHED);
    SaneChains(w);
    RetryGoesThrough(ViewOf(w, 0, 5));
    OnlyNode(w.disk);
    Granted0(ViewOf(w, 0, 5), op);
    Lands(ViewOf(w, 0, 5), op);
    LocksOfCalled(w, 0, op, "", 5);
    ReachableRunsStayAccepted(PUBLISHED, 0, op, "", 5);
  }

  lemma OnlyNode(d: Disk)
    requires StandsUnder(d, RunPendingRetry, 1, NODE, RETRY)
    ensures d.manifest.Some? && d.folders.Keys <= {NODE}
  {
  }
}
