/** A whole call of the attempt store that was cut short: when its files are readable afterwards. */
module Interruption {
  import opened Wrappers
  import opened Records
  import opened Durable
  import opened Protocol
  import opened Commit
  import opened Leases
  import opened Operations
  import opened Effects
  import opened Decisions
  import opened Growth
  import opened Acceptance
  import opened Crash

  /** No state, receipt, folder or manifest was written: only candidates, resolutions or recovery receipts. */
  predicate OnlyEarly(d: Disk, d': Disk) {
    && d'.manifest == d.manifest && d'.folders.Keys == d.folders.Keys
    && forall t :: t in d.folders ==>
         d'.folders[t].state == d.folders[t].state && d'.folders[t].receipts == d.folders[t].receipts
  }

  lemma EarlyIsOnlyEarly(d: Disk, w: Write)
    requires Accepts(d) && Harmless(d, w)
    ensures OnlyEarly(d, Apply(d, w))
  {
    hide Accepts;
  }

  /** The state file of an accepted run is not the one a new commit writes. */
  lemma NotYetCommitted(d: Disk, t: Target, body: Body)
    requires d.manifest.Some? && Accepts(d) && ChainsRecorded(d)
    ensures StateAt(d, t) != Some(Seal(body, ChainOf(d.manifest.value, t)))
  {
    hide Accepts;
    if StateAt(d, t) == Some(Seal(body, ChainOf(d.manifest.value, t))) {
      assert Recorded(t, ChainOf(d.manifest.value, t)) by {
        assert t !in d.manifest.value.chains ==> Recorded(t, []);
      }
      TornStateIsRejected(d, t, body);
    }
  }

  /** A commit cut short after some of its ordered writes, seen from before its early file. */
  lemma CutCommit(d: Disk, d1: Disk, t: Target, step: Step, token: Token, k: nat)
    requires d.manifest.Some? && Accepts(d) && ChainsRecorded(d) && OnlyEarly(d, d1) && Accepts(d1)
    requires step.snapshot && step.body.target == t && (t !in d.folders ==> step.makesFolder)
    requires k < |FinalWrites(d.manifest.value, t, step, token)|
    ensures var d' := ApplyAll(d1, FinalWrites(d.manifest.value, t, step, token)[..k]);
            Accepts(d') <==> OnlyEarly(d, d')
  {
    hide Accepts;
    hide FinalWrites;
    CrashRefinement(d1, t, step, token, k);
    PrefixState(d1, d1.manifest.value, t, step, token, k);
    NotYetCommitted(d, t, Owned(step.body, step.owner, token));
    if k == 1 && step.makesFolder && t in d1.folders {
      assert d1.folders[t := FolderOf(d1, t)] == d1.folders;
    }
  }

  /** One step that was interrupted leaves files the readers accept exactly when only its early file landed. */
  lemma InterruptedStep(v: View, t: Target, expected: Option<Token>, step: Step)
    requires v.disk.manifest.Some? && Accepts(v.disk) && ChainsRecorded(v.disk) && EarlyFiles(t, step.before)
    requires step.before != [] ==> Harmless(v.disk, step.before[0])
    requires step.snapshot && step.blocked.None?
             ==> step.body.target == t && (t !in v.disk.folders ==> step.makesFolder)
    ensures var (v', out) := Execute(v, t, expected, step);
            out == Stopped(Interrupted) ==> (Accepts(v'.disk) <==> OnlyEarly(v.disk, v'.disk))
  {
    hide Accepts;
    hide Settle;
    hide FinalWrites;
    var (v', out) := Execute(v, t, expected, step);
    var m := v.disk.manifest.value;
    var d1 := ApplyAll(v.disk, step.before);
    EarlyWrites(v.disk, t, step.before);
    if step.before != [] {
      EarlyFileKeepsAccepted(v.disk, step.before[0]);
      EarlyIsOnlyEarly(v.disk, step.before[0]);
      assert step.before[..0] == [];
    }
    var (locks, grant) := Settle(v.locks, t, expected, step.mode);
    if out == Stopped(Interrupted) && !grant.Denied? && |step.before| <= v.quota && step.blocked.None? {
      var k := v.quota - |step.before|;
      var ws := FinalWrites(m, t, step, grant.token);
      assert k < |ws| && v'.disk == ApplyAll(d1, ws[..k]);
      if step.snapshot {
        CutCommit(v.disk, d1, t, step, grant.token, k);
      } else {
        OneFinalWrite(m, t, step, grant.token);
        assert ws[..0] == [];
      }
    }
  }

  lemma OneFinalWrite(m: Manifest, t: Target, step: Step, token: Token)
    requires !step.snapshot
    ensures |FinalWrites(m, t, step, token)| == 1
  {
  }

  // ----------------------------------------------------------- whole calls

  /** What `resolve` has committed before its second half, once its first half went through. */
  function Halfway(v: View, op: Operation, note: string): Option<Disk> {
    if !op.Resolve? || op.reason == "" then None
    else
      var (v1, ok) := Load(v);
      if !ok || StateAt(v1.disk, op.target).None? then None
      else
        var first := OwnAmbiguous(StateAt(v1.disk, op.target).value.snapshot.body, op.attempt, note);
        if first.None? then None
        else
          var (v2, outcome) := Execute(v1, op.target, OwnerOf(v1.disk, op.target), first.value);
          if outcome.Stopped? then None else Some(v2.disk)
  }

  /** Only a target without a folder gets a new one. */
  lemma FolderOrNew(op: Operation, note: string, d: Disk)
    requires d.manifest.Some? && Accepts(d) && ChainsRecorded(d) && (OnExistingState(op) || op.Prepare?)
    requires Decide(op, note, d).Advance?
    ensures var step := Decide(op, note, d).step;
            op.target !in d.folders ==> step.makesFolder
  {
    hide Accepts;
    hide DecideUpdate;
  }

  lemma DecidedInterrupted(v: View, op: Operation, note: string)
    requires v.disk.manifest.Some? && Accepts(v.disk) && ChainsRecorded(v.disk) && (OnExistingState(op) || op.Prepare?)
    ensures var (v', reply) := PerformDecided(v, op, note);
            reply == Raised(Interrupted) ==> (Accepts(v'.disk) <==> OnlyEarly(v.disk, v'.disk))
  {
    hide Accepts;
    hide Execute;
    hide Decide;
    hide LawfulStep;
    hide ChainsRecorded;
    hide OnlyEarly;
    var (v1, ok) := Load(v);
    LoadAccepted(v);
    NothingIsOnlyEarly(v.disk);
    var verdict := Decide(op, note, v1.disk);
    AnswersAreNoInterruption(op, note, v1.disk);
    if verdict.Advance? {
      var step := verdict.step;
      DecisionIsPrepared(op, note, v1.disk);
      DecisionIsLawful(op, note, v1.disk);
      FolderOrNew(op, note, v1.disk);
      if step.snapshot && step.blocked.None? {
        BodyTarget(ChainOf(v1.disk.manifest.value, op.target), op.target, step);
      }
      InterruptedStep(v1, op.target, OwnerOf(v1.disk, op.target), step);
    }
  }

  lemma NothingIsOnlyEarly(d: Disk)
    ensures OnlyEarly(d, d)
  {
  }

  /** No decision answers that it was interrupted. */
  lemma AnswersAreNoInterruption(op: Operation, note: string, d: Disk)
    requires d.manifest.Some? && (OnExistingState(op) || op.Prepare?)
    ensures var verdict := Decide(op, note, d);
            && (verdict.Refuse? ==> verdict.fault != Interrupted)
            && (verdict.Answer? ==> verdict.reply != Raised(Interrupted))
            && (verdict.Advance? ==> verdict.reply != Raised(Interrupted))
  {
    hide ValidLedger;
    hide AlreadyDecided;
  }

  lemma OwningIsPrepared(d: Disk, t: Target, attempt: int, note: string)
    requires d.manifest.Some? && Accepts(d) && ChainsRecorded(d) && StateAt(d, t).Some?
    requires OwnAmbiguous(StateAt(d, t).value.snapshot.body, attempt, note).Some?
    ensures var step := OwnAmbiguous(StateAt(d, t).value.snapshot.body, attempt, note).value;
            step.before == [] && step.body.target == t && t in d.folders
  {
    hide Accepts;
    AcceptedState(d, t);
  }

  lemma SettlingIsPrepared(d: Disk, t: Target, retry: bool, reason: string, note: string)
    requires d.manifest.Some? && Accepts(d) && ChainsRecorded(d) && StateAt(d, t).Some?
    ensures var step := Settled(StateAt(d, t).value.snapshot.body, retry, reason, note);
            EarlyFiles(t, step.before) && Harmless(d, step.before[0]) && step.body.target == t && t in d.folders
  {
    hide Accepts;
    AcceptedState(d, t);
  }

  lemma ResolveInterrupted(v: View, op: Operation, note: string)
    requires v.disk.manifest.Some? && Accepts(v.disk) && ChainsRecorded(v.disk) && op.Resolve?
    ensures var (v', reply) := PerformResolve(v, op.target, op.attempt, op.retry, op.reason, note);
            var half := Halfway(v, op, note);
            && (half.Some? ==> Accepts(half.value))
            && (reply == Raised(Interrupted) ==>
                  (Accepts(v'.disk) <==> OnlyEarly(if half.Some? then half.value else v.disk, v'.disk)))
  {
    hide Accepts;
    hide Execute;
    hide OwnAmbiguous;
    hide Settled;
    hide ChainsRecorded;
    hide OnlyEarly;
    hide LawfulStep;
    hide GrowsBy;
    hide Heads;
    var (v1, ok) := Load(v);
    LoadAccepted(v);
    NothingIsOnlyEarly(v.disk);
    var t := op.target;
    if op.reason != "" && StateAt(v1.disk, t).Some? {
      var b := StateAt(v1.disk, t).value.snapshot.body;
      var first := OwnAmbiguous(b, op.attempt, note);
      if first.Some? {
        OwningIsPrepared(v1.disk, t, op.attempt, note);
        InterruptedStep(v1, t, OwnerOf(v1.disk, t), first.value);
        OwningIsAccepted(v1, t, op.attempt, note);
        OwningEffect(v1, t, op.attempt, note, {Status.Ambiguous});
        var (v2, out) := Execute(v1, t, OwnerOf(v1.disk, t), first.value);
        if !out.Stopped? {
          NothingIsOnlyEarly(v2.disk);
          SettlingIsPrepared(v2.disk, t, op.retry, op.reason, note);
          InterruptedStep(v2, t, StateAt(v2.disk, t).value.snapshot.body.owner,
                          Settled(StateAt(v2.disk, t).value.snapshot.body, op.retry, op.reason, note));
        }
      }
    }
  }

  /**
    A call that was interrupted, anywhere in its writes, leaves a run the readers accept exactly when nothing but early
    files was written: since the call began, or for `resolve` since the first of its two commits went through.
   */
  lemma InterruptedCallRefinement(v: View, op: Operation, note: string)
    requires v.disk.manifest.Some? && Accepts(v.disk) && ChainsRecorded(v.disk)
    requires Perform(v, op, note).1 == Raised(Interrupted)
    ensures var half := Halfway(v, op, note);
            && (half.Some? ==> Accepts(half.value))
            && (Accepts(Perform(v, op, note).0.disk)
                <==> OnlyEarly(if half.Some? then half.value else v.disk, Perform(v, op, note).0.disk))
  {
    hide Accepts;
    hide OnlyEarly;
    hide PerformDecided;
    hide PerformResolve;
    match op
    case Initialize(_) => ManifestCallInterrupted(v, op, note);
    case Publish(_, _, _) => ManifestCallInterrupted(v, op, note);
    case Resolve(_, _, _, _) => ResolveInterrupted(v, op, note);
    case _ => DecidedInterrupted(v, op, note);
  }

  lemma ManifestCallInterrupted(v: View, op: Operation, note: string)
    requires v.disk.manifest.Some? && (op.Initialize? || op.Publish?) && Perform(v, op, note).1 == Raised(Interrupted)
    ensures Perform(v, op, note).0.disk == v.disk && OnlyEarly(v.disk, v.disk)
  {
    hide Accepts;
    hide Admitted;
    hide ValidManifest;
    NothingIsOnlyEarly(v.disk);
    if op.Publish? {
      var m := v.disk.manifest.value;
      OneManifestWrite(Load(v).0, m.(status := op.status, pending := op.pending, ambiguous := op.ambiguous,
                                     generation := m.generation + 1));
    }
  }
}
