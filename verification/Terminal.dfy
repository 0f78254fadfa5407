/** What a recovery decision and a retry policy bind a target to, for the rest of every run. */
module Terminal {
  import opened Wrappers
  import opened Records
  import opened Durable
  import opened Protocol
  import opened Commit
  import opened Leases
  import opened Operations
  import opened Effects
  import opened Decisions
  import opened Growth
  import opened Acceptance
  import opened Publication
  import opened Crash
  import opened StoreRuns
  import opened Safety
  import opened Ledger

  // -------------------------------------------- the ledger and the states

  function HeadBody(chain: seq<Entry>): Body
    requires chain != []
  {
    chain[|chain| - 1].digest.snapshot.body
  }

  /** The last committed snapshot of a target agrees with every recorded decision about it. */
  predicate Agrees(chain: seq<Entry>, ledger: seq<LedgerEntry>) {
    ledger != [] ==> chain != [] && LedgerAgrees(HeadBody(chain), ledger)
  }

  ghost predicate LedgersAgree(d: Disk) {
    forall t :: Agrees(ChainIn(d, t), LedgerIn(d, t))
  }

  /** A failed target with a decision about its attempt: no operation moves it. */
  predicate Frozen(b: Body, ledger: seq<LedgerEntry>) {
    b.status.Failed? && AlreadyDecided(b, ledger)
  }

  lemma FrozenIsRefused(op: Operation, note: string, d: Disk)
    requires d.manifest.Some? && (OnExistingState(op) || op.Prepare?) && StateAt(d, op.target).Some?
    requires var b := StateAt(d, op.target).value.snapshot.body;
             b.target == op.target && Frozen(b, LedgerOf(d.manifest.value, op.target))
    ensures !Decide(op, note, d).Advance?
  {
  }

  lemma FrozenOnItsOwn(v: View, op: Operation, note: string)
    requires v.disk.manifest.Some? && Accepts(v.disk) && ChainsRecorded(v.disk) && !op.Initialize? && !op.Publish?
    requires StateAt(v.disk, op.target).Some?
    requires Frozen(StateAt(v.disk, op.target).value.snapshot.body, LedgerIn(v.disk, op.target))
    ensures Perform(v, op, note).0.disk == v.disk
  {
    hide Accepts;
    hide Execute;
    hide Decide;
    LoadAccepted(v);
    AcceptedState(v.disk, op.target);
    if !op.Resolve? {
      FrozenIsRefused(op, note, v.disk);
    }
  }

  /** An operation on another target, or on the manifest, leaves the chain of `t` alone. */
  lemma OtherChainsUntouched(v: View, op: Operation, note: string, t: Target)
    requires ChainsRecorded(v.disk) && (op.Initialize? || op.Publish? || op.target != t)
    ensures ChainIn(Perform(v, op, note).0.disk, t) == ChainIn(v.disk, t)
  {
    hide PerformDecided;
    hide PerformResolve;
    hide PerformPublish;
    hide PerformInitialize;
    hide MayFollow;
    if op.Initialize? || op.Publish? {
      ManifestEffect(v, op, note);
    } else if op.Resolve? {
      var mid := ResolveEffect(v, op.target, op.attempt, op.retry, op.reason, note);
    } else {
      var body := DecidedEffect(v, op, note);
      var (v', reply) := PerformDecided(v, op, note);
      ExplainedGrowth(v.disk, v'.disk, op, reply, body);
    }
  }

  lemma FrozenTarget(v: View, op: Operation, note: string, t: Target)
    requires v.disk.manifest.Some? && Accepts(v.disk) && ChainsRecorded(v.disk) && StateAt(v.disk, t).Some?
    requires Frozen(StateAt(v.disk, t).value.snapshot.body, LedgerIn(v.disk, t))
    ensures ChainIn(Perform(v, op, note).0.disk, t) == ChainIn(v.disk, t)
    ensures LedgerIn(Perform(v, op, note).0.disk, t) == LedgerIn(v.disk, t)
  {
    hide Perform;
    hide Accepts;
    hide AlreadyDecided;
    CalledLedger(v, op, note);
    if op.Initialize? || op.Publish? || op.target != t {
      OtherChainsUntouched(v, op, note, t);
    } else {
      FrozenOnItsOwn(v, op, note);
    }
  }

  /** A chain that grew by lawful commits agrees with decisions to retry it agreed with before. */
  lemma GrownChainAgrees(t: Target, chain: seq<Entry>, chain': seq<Entry>, ledger: seq<LedgerEntry>)
    requires Recorded(t, chain') && chain <= chain' && chain != []
    requires LedgerAgrees(HeadBody(chain), ledger) && NoFailDecision(ledger)
    ensures LedgerAgrees(HeadBody(chain'), ledger)
  {
    AttemptsRiseByOne(History(chain'), |chain| - 1, |chain'| - 1);
  }

  lemma TargetAgrees(d: Disk, d': Disk, t: Target)
    requires d.manifest.Some? && Accepts(d) && ChainsRecorded(d) && ChainsRecorded(d')
             && Agrees(ChainIn(d, t), LedgerIn(d, t))
    requires ChainIn(d, t) <= ChainIn(d', t) && LedgerStep(d, d')
    requires StateAt(d, t).Some? && Frozen(StateAt(d, t).value.snapshot.body, LedgerIn(d, t)) ==>
               ChainIn(d', t) == ChainIn(d, t)
    ensures Agrees(ChainIn(d', t), LedgerIn(d', t))
  {
    hide Accepts;
    hide LedgerAgrees;
    var chain, chain' := ChainIn(d, t), ChainIn(d', t);
    var ledger, ledger' := LedgerIn(d, t), LedgerIn(d', t);
    if StateAt(d, t).None? {
      AcceptedAbsence(d, t);
    } else {
      AcceptedState(d, t);
      AcceptedLedger(d, t);
      var b := HeadBody(chain);
      if chain' != chain && chain != [] {
        assert Recorded(t, chain') by { assert t in d'.manifest.value.chains; }
        FailDecisionFreezes(b, ledger);
        GrownChainAgrees(t, chain, chain', ledger);
      }
      if ledger' != ledger {
        DecisionAgrees(b, HeadBody(chain'), ledger, ledger'[|ledger|]);
        assert ledger' == ledger + [ledger'[|ledger|]];
      }
    }
  }

  lemma FailDecisionFreezes(b: Body, ledger: seq<LedgerEntry>)
    requires LedgerAgrees(b, ledger) && !Frozen(b, ledger)
    ensures NoFailDecision(ledger)
  {
  }

  lemma DecisionAgrees(b: Body, n: Body, ledger: seq<LedgerEntry>, e: LedgerEntry)
    requires LedgerAgrees(n, ledger) && b.status.Failed? && e.from == b.attempt
    requires if e.decision.FailForGood? then n == b else n.attempt >= e.to
    ensures LedgerAgrees(n, ledger + [e])
  {
  }

  lemma CallAgrees(v: View, op: Operation, note: string)
    requires ChainsRecorded(v.disk) && LedgersAgree(v.disk)
    requires ChainsRecorded(Perform(v, op, note).0.disk)
    requires forall t :: ChainIn(v.disk, t) <= ChainIn(Perform(v, op, note).0.disk, t)
    ensures LedgersAgree(Perform(v, op, note).0.disk)
  {
    hide Perform;
    hide Accepts;
    hide ChainsRecorded;
    hide Agrees;
    hide LedgerStep;
    hide Frozen;
    var d' := Perform(v, op, note).0.disk;
    if v.disk.manifest.None? {
      BeforeTheManifest(v, op, note);
    } else if !Accepts(v.disk) {
      RejectedStaysRejected(v, op, note);
    } else {
      CalledLedger(v, op, note);
      forall t
        ensures Agrees(ChainIn(d', t), LedgerIn(d', t))
      {
        assert Agrees(ChainIn(v.disk, t), LedgerIn(v.disk, t));
        if StateAt(v.disk, t).Some? && Frozen(StateAt(v.disk, t).value.snapshot.body, LedgerIn(v.disk, t)) {
          FrozenTarget(v, op, note, t);
        }
        TargetAgrees(v.disk, d', t);
      }
    }
  }

  lemma BeforeTheManifest(v: View, op: Operation, note: string)
    requires v.disk.manifest.None?
    ensures LedgersAgree(Perform(v, op, note).0.disk)
  {
    if op.Initialize? {
      OneManifestWrite(v, NewManifest(op.runIdentity));
    } else {
      NothingWithoutManifest(v, op, note);
    }
  }

  /** In every run, every recorded decision agrees with the last committed snapshot of its target. */
  lemma {:induction false} DecisionsAlwaysHold(actions: seq<Action>)
    ensures LedgersAgree(Run(START, actions).disk)
    decreases |actions|
  {
    hide Perform;
    hide Sane;
    hide LedgersAgree;
    if actions == [] {
      assert LedgersAgree(EMPTY_DISK) by { NothingRecorded(); }
    } else {
      var earlier := actions[..|actions| - 1];
      var a := actions[|actions| - 1];
      var w := Run(START, earlier);
      DecisionsAlwaysHold(earlier);
      EveryRunIsSane(earlier);
      EveryRunIsSane(actions);
      SaneChains(w);
      SaneChains(Run(START, actions));
      if a.Call? && a.store in w.stores {
        StepLedger(w, a);
        CallAgrees(ViewOf(w, a.store, a.quota), a.op, a.note);
      }
    }
  }

  lemma NothingRecorded()
    ensures LedgersAgree(EMPTY_DISK)
  {
  }

  // -------------------------------------------------------- failed for good

  predicate FailedForGood(ledger: seq<LedgerEntry>) {
    exists i :: 0 <= i < |ledger| && ledger[i].decision.FailForGood?
  }

  lemma CondemnedStep(w: World, a: Action, t: Target)
    requires Sane(w) && LedgersAgree(w.disk) && FailedForGood(LedgerIn(w.disk, t))
    ensures ChainIn(After(w, a).disk, t) == ChainIn(w.disk, t)
    ensures LedgerIn(After(w, a).disk, t) == LedgerIn(w.disk, t)
  {
    hide Perform;
    hide Accepts;
    hide Sane;
    if a.Call? && a.store in w.stores {
      var v := ViewOf(w, a.store, a.quota);
      SaneChains(w);
      if Accepts(w.disk) {
        assert Agrees(ChainIn(w.disk, t), LedgerIn(w.disk, t));
        if StateAt(w.disk, t).None? {
          AcceptedAbsence(w.disk, t);
        } else {
          AcceptedState(w.disk, t);
          FrozenTarget(v, a.op, a.note, t);
        }
      } else {
        RejectedStaysRejected(v, a.op, a.note);
      }
    }
  }

  /** A target that was failed for good stays failed at that attempt: it is never committed or decided about again. */
  lemma {:induction false} FailedForGoodIsForever(first: seq<Action>, more: seq<Action>, t: Target, i: nat)
    requires var ledger := LedgerIn(Run(START, first).disk, t);
             i < |ledger| && ledger[i].decision.FailForGood?
    ensures var d, d' := Run(START, first).disk, Run(START, first + more).disk;
            && ChainIn(d', t) == ChainIn(d, t) != []
            && LedgerIn(d', t) == LedgerIn(d, t)
            && HeadBody(ChainIn(d', t)).status.Failed?
            && HeadBody(ChainIn(d', t)).attempt == LedgerIn(d, t)[i].from
    decreases |more|
  {
    hide After;
    if more == [] {
      DecisionsAlwaysHold(first);
      assert Agrees(ChainIn(Run(START, first).disk, t), LedgerIn(Run(START, first).disk, t));
      assert first + more == first;
    } else {
      var almost := more[..|more| - 1];
      assert (first + more)[..|first + more| - 1] == first + almost;
      FailedForGoodIsForever(first, almost, t, i);
      EveryRunIsSane(first + almost);
      DecisionsAlwaysHold(first + almost);
      CondemnedStep(Run(START, first + almost), more[|more| - 1], t);
    }
  }

  // ------------------------------------------------------ automatic retries

  /** A call no operator made; a policy that lists the kind of the failure allows at most `most` attempts. */
  predicate Unattended(op: Operation, most: int) {
    match op
    case Resolve(_, _, retry, _) => !retry
    case ScheduleRecovery(_, _, _, _, _) => false
    case RecordRecovery(_, _, decision, _, _) => decision.FailForGood?
    case RecordFailure(_, policy, kind) => Lists(policy, kind) ==> policy.value.maxAttempts <= most
    case _ => true
  }

  predicate BodyWithin(b: Body, most: int) {
    b.attempt <= most && (b.status.RetryScheduled? ==> b.nextAttempt <= most)
  }

  ghost predicate Within(d: Disk, most: int) {
    forall t, i :: 0 <= i < |ChainIn(d, t)| ==> BodyWithin(ChainIn(d, t)[i].digest.snapshot.body, most)
  }

  /** Snapshots added within the policy keep a whole chain within it. */
  lemma {:induction false} ChainStaysWithin(t: Target, settled: nat, chain: seq<Entry>, most: int, i: nat)
    requires Recorded(t, chain) && settled <= |chain| && i < |chain| && most >= 1
    requires forall j :: 0 <= j < settled ==> BodyWithin(chain[j].digest.snapshot.body, most)
    requires forall j :: settled <= j < |chain| && chain[j].digest.snapshot.body.status.RetryScheduled? ==>
               chain[j].digest.snapshot.body.nextAttempt <= most
    ensures BodyWithin(chain[i].digest.snapshot.body, most)
    decreases i
  {
    if settled <= i {
      ShapeOf(History(chain), i);
      if i > 0 {
        ChainStaysWithin(t, settled, chain, most, i - 1);
        assert Edge(History(chain)[i - 1], History(chain)[i]);
      } else {
        assert Fresh(History(chain)[0]);
      }
    }
  }

  /** An unattended call schedules retries only within the policy. */
  lemma UnattendedGrowth(v: View, op: Operation, note: string, most: int)
    requires ChainsRecorded(v.disk) && Unattended(op, most)
    ensures var d' := Perform(v, op, note).0.disk;
            forall t, i :: |ChainIn(v.disk, t)| <= i < |ChainIn(d', t)|
                           && ChainIn(d', t)[i].digest.snapshot.body.status.RetryScheduled? ==>
              ChainIn(d', t)[i].digest.snapshot.body.nextAttempt <= most
  {
    hide PerformDecided;
    hide PerformResolve;
    hide PerformPublish;
    hide PerformInitialize;
    hide Appended;
    hide ChainsRecorded;
    if op.Initialize? || op.Publish? {
      ManifestEffect(v, op, note);
    } else if op.Resolve? {
      var mid := ResolveEffect(v, op.target, op.attempt, op.retry, op.reason, note);
    } else {
      var body := DecidedEffect(v, op, note);
      var (v', reply) := PerformDecided(v, op, note);
      ExplainedGrowth(v.disk, v'.disk, op, reply, body);
    }
  }

  lemma StepStaysWithin(w: World, a: Action, most: int)
    requires Sane(w) && Sane(After(w, a)) && Within(w.disk, most) && most >= 1
    requires a.Call? ==> Unattended(a.op, most)
    ensures Within(After(w, a).disk, most)
  {
    hide Perform;
    hide Sane;
    if a.Call? && a.store in w.stores {
      SaneChains(w);
      SaneChains(After(w, a));
      StepLedger(w, a);
      UnattendedGrowth(ViewOf(w, a.store, a.quota), a.op, a.note, most);
      var d' := After(w, a).disk;
      forall t, i | 0 <= i < |ChainIn(d', t)|
        ensures BodyWithin(ChainIn(d', t)[i].digest.snapshot.body, most)
      {
        assert ChainIn(w.disk, t) <= ChainIn(d', t);
        ChainStaysWithin(t, |ChainIn(w.disk, t)|, ChainIn(d', t), most, i);
      }
    }
  }

  lemma {:induction false} UnattendedStaysWithin(actions: seq<Action>, most: int)
    requires most >= 1 && forall i :: 0 <= i < |actions| && actions[i].Call? ==> Unattended(actions[i].op, most)
    ensures Within(Run(START, actions).disk, most)
    decreases |actions|
  {
    hide After;
    hide Unattended;
    if actions != [] {
      var earlier := actions[..|actions| - 1];
      UnattendedStaysWithin(earlier, most);
      EveryRunIsSane(earlier);
      EveryRunIsSane(actions);
      StepStaysWithin(Run(START, earlier), actions[|actions| - 1], most);
    }
  }

  /**
    Without an operator's decision, no executor is ever told to run an attempt past the limit of the policies that list
    the failures they were asked about: in particular none past the first when no policy lists the failures recorded.
   */
  lemma AutomaticRetriesStayWithinPolicy(actions: seq<Action>, most: int, k: nat)
    requires most >= 1 && forall i :: 0 <= i < |actions| && actions[i].Call? ==> Unattended(actions[i].op, most)
    requires k < |Run(START, actions).log| && Run(START, actions).log[k].ToldToRun?
    ensures Run(START, actions).log[k].attempt <= most
  {
    hide Run;
    hide Unattended;
    UnattendedStaysWithin(actions, most);
    EveryRunIsSane(actions);
    var w := Run(START, actions);
    var e := w.log[k];
    assert EventTrue(w, e);
    assert BodyWithin(ChainIn(w.disk, e.target)[e.at - 1].digest.snapshot.body, most);
  }
}
