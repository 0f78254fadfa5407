/** The recovery ledger and the states nobody leaves, over whole runs. */
module Ledger {
  import opened Wrappers
  import opened Records
  import opened Durable
  import opened Protocol
  import opened Commit
  import opened Leases
  import opened Operations
  import opened Effects
  import opened Decisions
  import opened Growth
  import opened Acceptance
  import opened Publication
  import opened StoreRuns
  import opened Safety

  function LedgerIn(d: Disk, t: Target): seq<LedgerEntry> {
    if d.manifest.Some? then LedgerOf(d.manifest.value, t) else []
  }

  /**
    What a new decision about the state `b` comes with: a final failure changes nothing, a retry is committed with it.
   */
  predicate Enacts(b: Body, e: LedgerEntry, chain: seq<Entry>, chain': seq<Entry>) {
    && b.status.Failed? && e.from == b.attempt
    && if e.decision.FailForGood? then chain' == chain
       else chain' != [] && chain'[|chain'| - 1].digest.snapshot.body.attempt >= e.to
  }

  /** At most one entry was appended to one ledger, checked against its receipt. */
  ghost predicate LedgerStep(d: Disk, d': Disk) {
    forall t :: LedgerIn(d, t) <= LedgerIn(d', t) && |LedgerIn(d', t)| <= |LedgerIn(d, t)| + 1
                && (LedgerIn(d', t) != LedgerIn(d, t) ==>
                      && ChainIn(d', t) != [] && StateAt(d, t).Some?
                      && !AlreadyDecided(StateAt(d, t).value.snapshot.body, LedgerIn(d, t))
                      && Enacts(StateAt(d, t).value.snapshot.body, LedgerIn(d', t)[|LedgerIn(d, t)|], ChainIn(d, t),
                                ChainIn(d', t)))
  }

  /** Per target and attempt at most one decision. */
  ghost predicate OneDecisionEach(d: Disk) {
    forall t, i, j :: 0 <= i < j < |LedgerIn(d, t)| ==> LedgerIn(d, t)[i].from != LedgerIn(d, t)[j].from
  }

  ghost predicate Backed(d: Disk) {
    forall t :: LedgerIn(d, t) != [] ==> ChainIn(d, t) != []
  }

  lemma LedgersStayBacked(d: Disk, d': Disk)
    requires Backed(d) && OneDecisionEach(d) && LedgerStep(d, d') && forall t :: ChainIn(d, t) <= ChainIn(d', t)
    ensures Backed(d') && OneDecisionEach(d')
  {
    forall t | LedgerIn(d', t) != []
      ensures ChainIn(d', t) != []
    {
      assert ChainIn(d, t) <= ChainIn(d', t);
    }
    forall t, i, j | 0 <= i < j < |LedgerIn(d', t)|
      ensures LedgerIn(d', t)[i].from != LedgerIn(d', t)[j].from
    {
      assert LedgerIn(d, t) <= LedgerIn(d', t);
      assert LedgerIn(d', t)[i] == LedgerIn(d, t)[i];
      if j < |LedgerIn(d, t)| {
        assert LedgerIn(d', t)[j] == LedgerIn(d, t)[j];
      } else {
        assert LedgerIn(d, t)[i].from != StateAt(d, t).value.snapshot.body.attempt;
      }
    }
  }

  lemma SameLedger(d: Disk, d': Disk)
    requires forall t :: LedgerIn(d', t) == LedgerIn(d, t)
    ensures LedgerStep(d, d')
  {
  }

  predicate DecidesOn(step: Step, b: Body)
    requires step.decided.Some?
  {
    var e := step.decided.value;
    && b.status.Failed? && e.from == b.attempt && e.target == b.target
    && if e.decision.FailForGood? then !step.snapshot else step.snapshot && step.body.attempt >= e.to
  }

  lemma DecidedEntry(op: Operation, note: string, f: Folder, m: Manifest, recoveries: map<string, RecoveryReceipt>)
    requires OnExistingState(op) && f.state.Some?
    ensures var v := DecideUpdate(op, note, f, m, recoveries);
            var b := f.state.value.snapshot.body;
            v.Advance? && v.step.decided.Some? ==>
              DecidesOn(v.step, b) && !AlreadyDecided(b, LedgerOf(m, b.target))
  {
    hide ValidLedger;
    hide AlreadyDecided;
  }

  lemma DecidedLedger(v: View, op: Operation, note: string)
    requires ChainsRecorded(v.disk) && (OnExistingState(op) || op.Prepare?)
    ensures LedgerStep(v.disk, PerformDecided(v, op, note).0.disk)
  {
    hide Execute;
    hide Accepts;
    hide DecideUpdate;
    hide DecidePrepare;
    hide LedgerStep;
    hide MayFollow;
    hide TokenFor;
    SameLedger(v.disk, v.disk);
    var (v1, ok) := Load(v);
    var t := op.target;
    if ok && Decide(op, note, v1.disk).Advance? {
      var step := Decide(op, note, v1.disk).step;
      DecisionIsLawful(op, note, v1.disk);
      ExecutePublishes(v1, t, OwnerOf(v1.disk, t), step);
      var d' := Execute(v1, t, OwnerOf(v1.disk, t), step).0.disk;
      if step.decided.Some? {
        PrepareDecidesNothing(op, note, v1.disk);
        DecidedEntry(op, note, v1.disk.folders[t], v1.disk.manifest.value, v1.disk.recoveries);
        AcceptedState(v1.disk, t);
        AppendedLedger(v1.disk, d', t, step, TokenFor(v1, t, OwnerOf(v1.disk, t), step));
      } else {
        UndecidedLedger(v1.disk, d', t, step, TokenFor(v1, t, OwnerOf(v1.disk, t), step));
      }
    }
  }

  lemma PrepareDecidesNothing(op: Operation, note: string, d: Disk)
    requires d.manifest.Some? && (OnExistingState(op) || op.Prepare?)
    ensures var v := Decide(op, note, d);
            v.Advance? && v.step.decided.Some? ==> OnExistingState(op) && StateAt(d, op.target).Some?
  {
    hide DecideUpdate;
  }

  lemma AppendedLedger(d: Disk, d': Disk, t: Target, step: Step, token: Token)
    requires d.manifest.Some? && step.decided.Some? && StateAt(d, t).Some? && ChainIn(d, t) != []
    requires d'.manifest == Some(Published(d.manifest.value, t, step, token)) || d'.manifest == d.manifest
    requires var b := StateAt(d, t).value.snapshot.body;
             DecidesOn(step, b) && !AlreadyDecided(b, LedgerIn(d, t))
    ensures LedgerStep(d, d')
  {
    hide AlreadyDecided;
    var b := StateAt(d, t).value.snapshot.body;
    forall u
      ensures LedgerIn(d', u) == LedgerIn(d, u)
              || (u == t && LedgerIn(d', u) == LedgerIn(d, u) + [step.decided.value] && ChainIn(d', u) != []
                  && Enacts(b, step.decided.value, ChainIn(d, u), ChainIn(d', u)))
    {
    }
  }

  lemma UndecidedLedger(d: Disk, d': Disk, t: Target, step: Step, token: Token)
    requires d.manifest.Some? && step.decided.None?
    requires d'.manifest == Some(Published(d.manifest.value, t, step, token)) || d'.manifest == d.manifest
    ensures LedgerStep(d, d')
    ensures forall u :: LedgerIn(d', u) == LedgerIn(d, u)
  {
    SameLedger(d, d');
  }

  lemma ResolvingDecidesNothing(b: Body, attempt: int, retry: bool, reason: string, note: string)
    ensures var first := OwnAmbiguous(b, attempt, note);
            first.Some? ==> first.value.before == [] && first.value.decided.None?
    ensures var step := Settled(b, retry, reason, note);
            EarlyFiles(b.target, step.before) && step.decided.None?
  {
  }

  lemma ResolvedLedger(v: View, t: Target, attempt: int, retry: bool, reason: string, note: string)
    requires ChainsRecorded(v.disk)
    ensures forall u :: LedgerIn(PerformResolve(v, t, attempt, retry, reason, note).0.disk, u) == LedgerIn(v.disk, u)
  {
    hide Execute;
    hide Accepts;
    hide Published;
    hide TokenFor;
    hide OwnAmbiguous;
    hide Settled;
    hide LedgerStep;
    hide GrowsBy;
    hide ChainsRecorded;
    var (v1, ok) := Load(v);
    if reason != "" && ok && StateAt(v1.disk, t).Some? {
      var b1 := StateAt(v1.disk, t).value.snapshot.body;
      var first := OwnAmbiguous(b1, attempt, note);
      ResolvingDecidesNothing(b1, attempt, retry, reason, note);
      if first.Some? {
        ExecutePublishes(v1, t, OwnerOf(v1.disk, t), first.value);
        OwningEffect(v1, t, attempt, note, {Status.Ambiguous});
        var (v2, out) := Execute(v1, t, OwnerOf(v1.disk, t), first.value);
        UndecidedLedger(v1.disk, v2.disk, t, first.value, TokenFor(v1, t, OwnerOf(v1.disk, t), first.value));
        if !out.Stopped? {
          var b := StateAt(v2.disk, t).value.snapshot.body;
          var step := Settled(b, retry, reason, note);
          ResolvingDecidesNothing(b, attempt, retry, reason, note);
          ExecutePublishes(v2, t, b.owner, step);
          UndecidedLedger(v2.disk, Execute(v2, t, b.owner, step).0.disk, t, step, TokenFor(v2, t, b.owner, step));
        }
      }
    }
  }

  lemma CalledLedger(v: View, op: Operation, note: string)
    requires ChainsRecorded(v.disk)
    ensures LedgerStep(v.disk, Perform(v, op, note).0.disk)
  {
    hide LedgerStep;
    hide PerformDecided;
    hide PerformResolve;
    hide PerformPublish;
    hide PerformInitialize;
    if OnExistingState(op) || op.Prepare? {
      DecidedLedger(v, op, note);
    } else {
      if op.Resolve? {
        ResolvedLedger(v, op.target, op.attempt, op.retry, op.reason, note);
      } else {
        ManifestOpLedger(v, op, note);
      }
      SameLedger(v.disk, Perform(v, op, note).0.disk);
    }
  }

  lemma ManifestOpLedger(v: View, op: Operation, note: string)
    requires op.Initialize? || op.Publish?
    ensures forall t :: LedgerIn(Perform(v, op, note).0.disk, t) == LedgerIn(v.disk, t)
  {
    hide Accepts;
    hide Admitted;
    if op.Initialize? {
      OneManifestWrite(v, NewManifest(op.runIdentity));
    } else if v.disk.manifest.Some? {
      PublicationIsFenced(v, op.status, op.pending, op.ambiguous);
    } else {
      NothingWithoutManifest(v, op, note);
    }
  }

  // ------------------------------------------------------------------ runs

  lemma StepLedger(w: World, a: Action)
    requires Sane(w)
    ensures LedgerStep(w.disk, After(w, a).disk)
    ensures forall t :: ChainIn(w.disk, t) <= ChainIn(After(w, a).disk, t)
  {
    hide Sane;
    hide LedgerStep;
    hide Perform;
    if a.Call? && a.store in w.stores {
      SaneChains(w);
      CalledLedger(ViewOf(w, a.store, a.quota), a.op, a.note);
      CallKeepsLog(w, a.store, a.op, a.note, a.quota);
      var w' := After(w, a);
      forall t
        ensures ChainIn(w.disk, t) <= ChainIn(w'.disk, t)
      {
        assert Chain(w, t) <= Chain(w', t);
      }
    } else {
      assert After(w, a).disk == w.disk;
      SameLedger(w.disk, w.disk);
    }
  }

  /** In every run the ledger holds at most one decision per target and attempt, always for a committed target. */
  lemma {:induction false} LedgersAreSane(actions: seq<Action>)
    ensures Backed(Run(START, actions).disk) && OneDecisionEach(Run(START, actions).disk)
    decreases |actions|
  {
    hide After;
    if actions != [] {
      var earlier := actions[..|actions| - 1];
      LedgersAreSane(earlier);
      EveryRunIsSane(earlier);
      StepLedger(Run(START, earlier), actions[|actions| - 1]);
      LedgersStayBacked(Run(START, earlier).disk, Run(START, actions).disk);
    }
  }

  /** Ledgers and receipt chains are append-only over every run. */
  lemma {:induction false} RecordsOnlyGrow(first: seq<Action>, more: seq<Action>, t: Target)
    ensures LedgerIn(Run(START, first).disk, t) <= LedgerIn(Run(START, first + more).disk, t)
    ensures ChainIn(Run(START, first).disk, t) <= ChainIn(Run(START, first + more).disk, t)
    decreases |more|
  {
    hide After;
    if more == [] {
      assert first + more == first;
    } else {
      var almost := more[..|more| - 1];
      assert (first + more)[..|first + more| - 1] == first + almost;
      RecordsOnlyGrow(first, almost, t);
      EveryRunIsSane(first + almost);
      StepLedger(Run(START, first + almost), more[|more| - 1]);
    }
  }

  /** A target that completed never commits another snapshot. */
  lemma CompletedTargetStaysCompleted(first: seq<Action>, more: seq<Action>, t: Target)
    requires var chain := ChainIn(Run(START, first).disk, t);
             |chain| > 0 && chain[|chain| - 1].digest.snapshot.body.status.Completed?
    ensures ChainIn(Run(START, first + more).disk, t) == ChainIn(Run(START, first).disk, t)
  {
    hide Run;
    RecordsOnlyGrow(first, more, t);
    EveryRunIsSane(first + more);
    var d := Run(START, first + more).disk;
    var chain := ChainIn(d, t);
    assert Recorded(t, chain);
    CompletedIsLast(History(chain), |ChainIn(Run(START, first).disk, t)| - 1);
  }
}
