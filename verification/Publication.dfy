/** The run status in the manifest: who may publish it, and whether readers can live with it. */
module Publication {
  import opened Wrappers
  import opened Records
  import opened Durable
  import opened Commit
  import opened Leases
  import opened Operations
  import opened Effects
  import opened Decisions
  import opened Growth
  import opened Acceptance
  import opened StoreRuns
  import opened Safety

  // ---------------------------------------------------- what one call does

  lemma ExecutePublishes(v: View, t: Target, expected: Option<Token>, step: Step)
    requires v.disk.manifest.Some? && EarlyFiles(t, step.before)
    ensures var (v', out) := Execute(v, t, expected, step);
            v'.disk.manifest
              == (if out.Finished? then Some(Published(v.disk.manifest.value, t, step, TokenFor(v, t, expected, step)))
                                 else v.disk.manifest)
  {
    hide Finish;
    hide Published;
    var (locks, grant) := Settle(v.locks, t, expected, step.mode);
    if !grant.Denied? && !(grant.Kept? && step.mode.Claim? && step.mode.adopt) {
      FinishPublishes(v.(locks := locks), t, step, grant.token);
    }
  }

  predicate SameStatus(m: Manifest, m': Manifest) {
    m'.status == m.status && m'.generation == m.generation && m'.pending == m.pending && m'.ambiguous == m.ambiguous
  }

  lemma StepKeepsStatus(v: View, t: Target, expected: Option<Token>, step: Step)
    requires v.disk.manifest.Some? && EarlyFiles(t, step.before)
    ensures var v' := Execute(v, t, expected, step).0;
            v'.disk.manifest.Some? && SameStatus(v.disk.manifest.value, v'.disk.manifest.value)
  {
    hide Execute;
    ExecutePublishes(v, t, expected, step);
  }

  /** Attempt writes never change the published status or its generation. */
  lemma AttemptWritesKeepStatus(v: View, op: Operation, note: string)
    requires v.disk.manifest.Some? && ChainsRecorded(v.disk) && !op.Publish? && !op.Initialize?
    ensures var v' := Perform(v, op, note).0;
            v'.disk.manifest.Some? && SameStatus(v.disk.manifest.value, v'.disk.manifest.value)
  {
    hide Execute;
    hide Accepts;
    hide DecideUpdate;
    hide DecidePrepare;
    hide MayFollow;
    hide ChainsRecorded;
    hide SameStatus;
    assert SameStatus(v.disk.manifest.value, v.disk.manifest.value) by { StatusItself(v.disk.manifest.value); }
    var (v1, ok) := Load(v);
    if op.Resolve? {
      ResolveKeepsStatus(v, op.target, op.attempt, op.retry, op.reason, note);
    } else if ok && Decide(op, note, v1.disk).Advance? {
      DecisionIsLawful(op, note, v1.disk);
      StepKeepsStatus(v1, op.target, OwnerOf(v1.disk, op.target), Decide(op, note, v1.disk).step);
    }
  }

  lemma StatusItself(m: Manifest)
    ensures SameStatus(m, m)
  {
  }

  lemma ResolveKeepsStatus(v: View, t: Target, attempt: int, retry: bool, reason: string, note: string)
    requires v.disk.manifest.Some?
    ensures var v' := PerformResolve(v, t, attempt, retry, reason, note).0;
            v'.disk.manifest.Some? && SameStatus(v.disk.manifest.value, v'.disk.manifest.value)
  {
    hide Execute;
    hide Accepts;
    var (v1, ok) := Load(v);
    if reason != "" && ok && StateAt(v1.disk, t).Some? {
      var first := OwnAmbiguous(StateAt(v1.disk, t).value.snapshot.body, attempt, note);
      if first.Some? {
        StepKeepsStatus(v1, t, OwnerOf(v1.disk, t), first.value);
        var (v2, out) := Execute(v1, t, OwnerOf(v1.disk, t), first.value);
        if !out.Stopped? && StateAt(v2.disk, t).Some? {
          var b := StateAt(v2.disk, t).value.snapshot.body;
          StepKeepsStatusFor(v2, t, b.owner, Settled(b, retry, reason, note));
        }
      }
    }
  }

  /** Also when the early file belongs to another target's directory. */
  lemma StepKeepsStatusFor(v: View, t: Target, expected: Option<Token>, step: Step)
    requires v.disk.manifest.Some? && NoManifest(step.before)
    ensures var v' := Execute(v, t, expected, step).0;
            v'.disk.manifest.Some? && SameStatus(v.disk.manifest.value, v'.disk.manifest.value)
  {
    hide Settle;
    hide ApplyAll;
    hide FinalWrites;
    var grant := Settle(v.locks, t, expected, step.mode).1;
    var k0 := if |step.before| <= v.quota then |step.before| else v.quota;
    assert step.before[..|step.before|] == step.before;
    ManifestUntouched(v.disk, step.before[..k0]);
    if |step.before| <= v.quota && !grant.Denied? {
      var ws := FinalWrites(v.disk.manifest.value, t, step, grant.token);
      var q := v.quota - |step.before|;
      var k := if |ws| <= q then |ws| else q;
      assert ws[..|ws|] == ws;
      FinalPrefixes(ApplyAll(v.disk, step.before), v.disk.manifest.value, t, step, grant.token, k);
    }
  }

  /** A status is published only under the generation the store last recorded, and advances it by one. */
  lemma PublicationIsFenced(v: View, status: RunStatus, pending: seq<Target>, ambiguous: seq<Target>)
    requires v.disk.manifest.Some?
    ensures var m := v.disk.manifest.value;
            var (v', reply) := PerformPublish(v, status, pending, ambiguous);
            && v'.disk.manifest.Some?
            && (v'.disk.manifest.value != m ==>
                  && reply.Done?
                  && (v.fencing && v.generation.Some? ==> v.generation == Some(m.generation))
                  && v'.disk == v.disk.(manifest := Some(m.(status := status, pending := pending,
                                                            ambiguous := ambiguous, generation := m.generation + 1)))
                  && v'.generation == Some(m.generation + 1))
            && (v'.disk.manifest.value == m ==> v'.disk == v.disk)
            && (m.status.RunCompleted? ==> v'.disk.manifest.value.status.RunCompleted?)
            && v'.disk.manifest.value.generation ==
                 m.generation + (if v'.disk.manifest.value != m then 1 else 0)
  {
    hide Accepts;
    hide AnyIn;
    hide ValidManifest;
    var m := v.disk.manifest.value;
    var m' := m.(status := status, pending := pending, ambiguous := ambiguous, generation := m.generation + 1);
    OneManifestWrite(Load(v).0, m');
  }

  // ------------------------------------------------- readable publications

  /** When a published status passes the readers' comparison with the attempt states. */
  predicate Readable(status: RunStatus, pending: seq<Target>, ambiguous: seq<Target>, states: map<Target, Record>) {
    match status
    case RunCompleted => pending == [] && ambiguous == []
    case RunFailed => states == map[] || AnyIn(states, {Failed, RetryScheduled, SuccessCandidate})
    case _ => true
  }

  /** A publication leaves a readable run exactly when its projections, or its failure, are backed by the states. */
  lemma PublishedStatusIsReadable(v: View, status: RunStatus, pending: seq<Target>, ambiguous: seq<Target>)
    requires v.disk.manifest.Some? && Accepts(v.disk)
    requires PerformPublish(v, status, pending, ambiguous).0.disk.manifest != v.disk.manifest
    ensures Accepts(PerformPublish(v, status, pending, ambiguous).0.disk)
            <==> Readable(status, pending, ambiguous, States(v.disk))
  {
    hide Trusted;
    hide ValidLedger;
    hide ValidChain;
    hide AnyIn;
    PublicationIsFenced(v, status, pending, ambiguous);
    var d' := PerformPublish(v, status, pending, ambiguous).0.disk;
    AcceptedParts(v.disk);
    assert States(d') == States(v.disk);
    forall t | t in d'.folders
      ensures TrustedIn(d', t)
    {
      assert TrustedIn(v.disk, t);
    }
    assert Sound(d');
  }

  /** A failure nothing in the states backs: there are attempts, and all are undecided or completed. */
  predicate Unbacked(states: map<Target, Record>) {
    && states != map[]
    && forall t :: t in states ==> states[t].snapshot.body.status in {Ambiguous, CheckpointPending, Completed}
  }

  /** Admission of `failed` is weaker than the readers' check by exactly these runs. */
  lemma FailedIsUnreadableExactly(v: View, pending: seq<Target>, ambiguous: seq<Target>)
    requires v.disk.manifest.Some? && Accepts(v.disk)
    requires PerformPublish(v, RunFailed, pending, ambiguous).0.disk.manifest != v.disk.manifest
    ensures !Accepts(PerformPublish(v, RunFailed, pending, ambiguous).0.disk) <==> Unbacked(States(v.disk))
  {
    hide Accepts;
    hide ValidManifest;
    hide ApplyAll;
    hide AnyIn;
    PublishedStatusIsReadable(v, RunFailed, pending, ambiguous);
    var states := States(v.disk);
    assert Admitted(v.disk.manifest.value, states, RunFailed, v.mutated, v.admission);
    NothingBacks(states);
  }

  lemma NothingBacks(states: map<Target, Record>)
    requires AnyIn(states, {Running}) ==> AnyIn(states, {Failed})
    ensures states != map[] && !AnyIn(states, {Failed, RetryScheduled, SuccessCandidate}) <==> Unbacked(states)
  {
    if AnyIn(states, {Failed}) {
      var u :| u in states && states[u].snapshot.body.status in {Failed};
      assert states[u].snapshot.body.status in {Failed, RetryScheduled, SuccessCandidate};
      assert AnyIn(states, {Failed, RetryScheduled, SuccessCandidate});
    }
    if !Unbacked(states) && !AnyIn(states, {Failed, RetryScheduled, SuccessCandidate}) {
      forall t | t in states
        ensures states[t].snapshot.body.status in {Ambiguous, CheckpointPending, Completed}
      {
        assert states[t].snapshot.body.status !in {Failed, RetryScheduled, SuccessCandidate};
        var status := states[t].snapshot.body.status;
        assert status in {Running} ==> AnyIn(states, {Running});
        match status
        case Running | SuccessCandidate | RetryScheduled | Failed =>
        case Ambiguous | CheckpointPending | Completed =>
      }
    }
  }

  // ------------------------------------------------------------------ runs

  /** A call that published a run status. */
  predicate Publishes(w: World, a: Action) {
    a.Call? && a.store in w.stores && a.op.Publish? && w.disk.manifest.Some?
    && After(w, a).disk.manifest != w.disk.manifest
  }

  function Publications(actions: seq<Action>): nat {
    if actions == [] then 0
    else
      var earlier := actions[..|actions| - 1];
      Publications(earlier) + if Publishes(Run(START, earlier), actions[|actions| - 1]) then 1 else 0
  }

  lemma StepCounts(w: World, a: Action)
    requires Sane(w)
    ensures w.disk.manifest.Some? ==>
              && After(w, a).disk.manifest.Some?
              && After(w, a).disk.manifest.value.generation ==
                   w.disk.manifest.value.generation + (if Publishes(w, a) then 1 else 0)
              && (w.disk.manifest.value.status.RunCompleted? ==> After(w, a).disk.manifest.value.status.RunCompleted?)
    ensures w.disk.manifest.None? && After(w, a).disk.manifest.Some? ==> After(w, a).disk.manifest.value.generation == 0
  {
    hide Sane;
    if a.Call? && a.store in w.stores {
      var v := ViewOf(w, a.store, a.quota);
      assert ChainsRecorded(w.disk) by { SaneChains(w); }
      CallCounts(v, a.op, a.note);
    }
  }

  lemma SaneChains(w: World)
    requires Sane(w)
    ensures ChainsRecorded(w.disk)
  {
  }

  lemma CallCounts(v: View, op: Operation, note: string)
    requires ChainsRecorded(v.disk)
    ensures var d' := Perform(v, op, note).0.disk;
            && (v.disk.manifest.Some? ==>
                  && d'.manifest.Some?
                  && d'.manifest.value.generation == v.disk.manifest.value.generation
                       + (if op.Publish? && d'.manifest != v.disk.manifest then 1 else 0)
                  && (v.disk.manifest.value.status.RunCompleted? ==> d'.manifest.value.status.RunCompleted?))
            && (v.disk.manifest.None? && d'.manifest.Some? ==> d'.manifest.value.generation == 0)
  {
    hide PerformResolve;
    hide PerformDecided;
    hide PerformPublish;
    hide Accepts;
    if v.disk.manifest.Some? {
      if op.Publish? {
        PublicationIsFenced(v, op.status, op.pending, op.ambiguous);
      } else if !op.Initialize? {
        AttemptWritesKeepStatus(v, op, note);
      }
    } else if op.Initialize? {
      OneManifestWrite(v, NewManifest(op.runIdentity));
    } else {
      NothingWithoutManifest(v, op, note);
    }
  }

  lemma NothingWithoutManifest(v: View, op: Operation, note: string)
    requires v.disk.manifest.None? && !op.Initialize?
    ensures Perform(v, op, note).0.disk == v.disk
  {
  }

  /** The generation counts the publications of the run. */
  lemma {:induction false} GenerationCountsPublications(actions: seq<Action>)
    ensures var d := Run(START, actions).disk;
            if d.manifest.Some? then d.manifest.value.generation == Publications(actions)
              else Publications(actions) == 0
    decreases |actions|
  {
    hide After;
    hide Publishes;
    if actions != [] {
      var earlier := actions[..|actions| - 1];
      GenerationCountsPublications(earlier);
      EveryRunIsSane(earlier);
      StepCounts(Run(START, earlier), actions[|actions| - 1]);
      NoPublicationYet(Run(START, earlier), actions[|actions| - 1]);
    }
  }

  lemma NoPublicationYet(w: World, a: Action)
    ensures Publishes(w, a) ==> w.disk.manifest.Some?
  {
  }

  lemma RunAppended(w: World, first: seq<Action>, more: seq<Action>)
    ensures Run(w, first + more) == Run(Run(w, first), more)
    decreases |more|
  {
    hide After;
    if more == [] {
      assert first + more == first;
    } else {
      assert (first + more)[..|first + more| - 1] == first + more[..|more| - 1];
      RunAppended(w, first, more[..|more| - 1]);
    }
  }

  /** Once completed, a run is completed forever. */
  lemma {:induction false} CompletedRunStaysCompleted(first: seq<Action>, more: seq<Action>)
    requires var d := Run(START, first).disk;
             d.manifest.Some? && d.manifest.value.status.RunCompleted?
    ensures var d := Run(START, first + more).disk;
            d.manifest.Some? && d.manifest.value.status.RunCompleted?
    decreases |more|
  {
    hide After;
    if more == [] {
      assert first + more == first;
    } else {
      var almost := more[..|more| - 1];
      assert (first + more)[..|first + more| - 1] == first + almost;
      CompletedRunStaysCompleted(first, almost);
      EveryRunIsSane(first + almost);
      StepCounts(Run(START, first + almost), more[|more| - 1]);
    }
  }
}
