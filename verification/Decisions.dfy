/** Every decision of every operation is a lawful next snapshot of its target. */
module Decisions {
  import opened Wrappers
  import opened Records
  import opened Durable
  import opened Protocol
  import opened Commit
  import opened Operations
  import opened RecoveryNames
  import opened Effects

  /** A step that, unless blocked, commits a lawful snapshot whatever token its lease carries. */
  ghost predicate LawfulStep(chain: seq<Entry>, t: Target, step: Step) {
    && EarlyFiles(t, step.before)
    && (step.decided.Some? ==> step.decided.value.target == t)
    && (step.snapshot && step.blocked.None? ==>
          forall token :: MayFollow(t, chain, Owned(step.body, step.owner, token)))
  }

  /** The chain of a target whose trusted state has body `b`. */
  predicate Heads(chain: seq<Entry>, t: Target, b: Body) {
    |chain| > 0 && chain[|chain| - 1].digest.snapshot.body == b && Shape(b) && b.target == t
  }

  lemma AcceptedState(d: Disk, t: Target)
    requires Accepts(d) && ChainsRecorded(d) && t in d.folders
    ensures StateAt(d, t).Some?
    ensures var chain := ChainOf(d.manifest.value, t);
            Recorded(t, chain) && Heads(chain, t, StateAt(d, t).value.snapshot.body)
            && StateAt(d, t).value.snapshot == chain[|chain| - 1].digest.snapshot
  {
    assert TrustedIn(d, t);
    TrustedStateIsLastCommitted(t, d.folders[t], ChainOf(d.manifest.value, t), LedgerOf(d.manifest.value, t),
                                d.recoveries);
  }

  lemma AcceptedAbsence(d: Disk, t: Target)
    requires Accepts(d) && StateAt(d, t).None?
    ensures t !in d.folders && ChainOf(d.manifest.value, t) == []
  {
    assert t in d.folders ==> TrustedIn(d, t);
  }

  lemma PrepareIsLawful(state: Option<Record>, chain: seq<Entry>, t: Target, identity: Identity, due: bool,
                        note: string)
    requires if state.None? then chain == [] else Heads(chain, t, state.value.snapshot.body)
    ensures var v := DecidePrepare(state, t, identity, due, note);
            v.Advance? ==>
              && LawfulStep(chain, t, v.step) && v.step.snapshot && v.step.blocked.None?
              && v.step.decided.None? && v.step.before == [] && v.step.mode.Claim?
              && (v.step.mode.adopt
                  ==> state.Some? && v.reply.Proceed? && Runs(state.value.snapshot.body, v.reply.attempt))
              && if v.reply.Proceed? then Runs(v.step.body, v.reply.attempt) && v.step.owner.TakeOwner?
                 else v.step.body.status.Ambiguous? && v.step.owner.ClearOwner? && v.reply.Raised?
  {
  }

  lemma CompletionIsLawful(b: Body, chain: seq<Entry>, t: Target, artifact: string, materialised: Option<string>,
                           note: string)
    requires Heads(chain, t, b)
    ensures var v := DecideCompleted(b, artifact, materialised, note);
            v.Advance? ==> LawfulStep(chain, t, v.step)
  {
  }

  lemma FailureIsLawful(b: Body, chain: seq<Entry>, t: Target, policy: Option<Policy>, kind: Option<string>,
                        note: string)
    requires Heads(chain, t, b)
    ensures var v := DecideFailure(b, policy, kind, note);
            v.Advance? ==> LawfulStep(chain, t, v.step)
  {
  }

  lemma RescheduledIsLawful(b: Body, mark: Option<RecoveryMark>, note: string, chain: seq<Entry>, t: Target,
                            token: Token)
    requires Heads(chain, t, b) && b.status.Failed?
    ensures MayFollow(t, chain, Owned(Rescheduled(b, mark, note), ClearOwner, token))
  {
  }

  lemma ReceiptStep(step: Step, b: Body, to: int, decision: Decision, receipt: RecoveryReceipt,
                    ledger: seq<LedgerEntry>, recoveries: map<string, RecoveryReceipt>)
    requires step.before == [] && step.decided.None?
    ensures var s := WithReceipt(step, b, to, decision, receipt, ledger, recoveries);
            && s.body == step.body && s.owner == step.owner && s.snapshot == step.snapshot && s.mode == step.mode
            && s.makesFolder == step.makesFolder
            && EarlyFiles(b.target, s.before)
            && (s.decided.Some? ==> s.decided.value.target == b.target)
  {
  }

  lemma ScheduleIsLawful(f: Folder, m: Manifest, recoveries: map<string, RecoveryReceipt>, from: int, to: int,
                         payload: Option<Decision>, receipt: Option<RecoveryReceipt>, note: string, chain: seq<Entry>)
    requires f.state.Some? && Heads(chain, f.state.value.snapshot.body.target, f.state.value.snapshot.body)
    ensures var v := DecideSchedule(f, m, recoveries, from, to, payload, receipt, note);
            v.Advance? ==> LawfulStep(chain, f.state.value.snapshot.body.target, v.step) && v.reply == Done
  {
    var b := f.state.value.snapshot.body;
    var v := DecideSchedule(f, m, recoveries, from, to, payload, receipt, note);
    if v.Advance? {
      var claim := Write1(Claim(false, false), Rescheduled(b, None, note), ClearOwner);
      if receipt.Some? && receipt.value.decision.Some? {
        ReceiptStep(claim, b, to, receipt.value.decision.value, receipt.value, LedgerOf(m, b.target), recoveries);
      }
      forall token
        ensures MayFollow(b.target, chain, Owned(v.step.body, v.step.owner, token))
      {
        RescheduledIsLawful(b, None, note, chain, b.target, token);
        if v.step.decided.Some? {
          RescheduledIsLawful(b, v.step.body.recovery, note, chain, b.target, token);
        }
      }
    }
  }

  lemma RecoveryIsLawful(f: Folder, m: Manifest, recoveries: map<string, RecoveryReceipt>, from: int,
                         decision: Decision, payload: Option<Decision>, receipt: RecoveryReceipt, note: string,
                         chain: seq<Entry>)
    requires f.state.Some? && Heads(chain, f.state.value.snapshot.body.target, f.state.value.snapshot.body)
    ensures var v := DecideRecovery(f, m, recoveries, from, decision, payload, receipt, note);
            v.Advance? ==> LawfulStep(chain, f.state.value.snapshot.body.target, v.step) && v.reply == Done
  {
    var b := f.state.value.snapshot.body;
    var v := DecideRecovery(f, m, recoveries, from, decision, payload, receipt, note);
    if v.Advance? {
      var fail := decision.FailForGood?;
      var claim := Write1(Claim(false, false), if fail then b else Rescheduled(b, None, note), ClearOwner);
      ReceiptStep(claim, b, if fail then from else from + 1, decision, receipt, LedgerOf(m, b.target), recoveries);
      if v.step.snapshot {
        forall token
          ensures MayFollow(b.target, chain, Owned(v.step.body, v.step.owner, token))
        {
          RescheduledIsLawful(b, None, note, chain, b.target, token);
          RescheduledIsLawful(b, v.step.body.recovery, note, chain, b.target, token);
        }
      }
    }
  }

  lemma UpdateIsLawful(op: Operation, note: string, f: Folder, m: Manifest, recoveries: map<string, RecoveryReceipt>,
                       chain: seq<Entry>)
    requires OnExistingState(op) && f.state.Some? && Heads(chain, op.target, f.state.value.snapshot.body)
    ensures var v := DecideUpdate(op, note, f, m, recoveries);
            v.Advance? ==> LawfulStep(chain, op.target, v.step)
                           && (v.reply == Done || v.reply == Pending || v.reply == AlreadyFailed)
  {
    var b := f.state.value.snapshot.body;
    match op
    case MarkCompleted(t, artifact, materialised) => CompletionIsLawful(b, chain, t, artifact, materialised, note);
    case RecordFailure(t, policy, kind) => FailureIsLawful(b, chain, t, policy, kind, note);
    case ScheduleRecovery(_, from, to, payload, receipt) =>
      ScheduleIsLawful(f, m, recoveries, from, to, payload, receipt, note, chain);
    case RecordRecovery(_, from, decision, payload, receipt) =>
      RecoveryIsLawful(f, m, recoveries, from, decision, payload, receipt, note, chain);
    case _ =>
  }

  /** The policy lists failures of this kind. */
  predicate Lists(policy: Option<Policy>, kind: Option<string>) {
    policy.Some? && kind.Some? && kind.value in policy.value.retryOn
  }

  /** Who may schedule a retry: an operator, or a failure of a kind its policy lists, within its attempts. */
  predicate SchedulesRetry(op: Operation, body: Body) {
    || op.ScheduleRecovery?
    || (op.RecordRecovery? && !op.decision.FailForGood?)
    || (op.RecordFailure? && Lists(op.policy, op.kind) && body.nextAttempt <= op.policy.value.maxAttempts)
  }

  /** Which operation crosses the boundary, which one leaves it behind a checkpoint. */
  lemma UpdateMeaning(op: Operation, note: string, f: Folder, m: Manifest, recoveries: map<string, RecoveryReceipt>)
    requires OnExistingState(op) && f.state.Some?
    ensures var v := DecideUpdate(op, note, f, m, recoveries);
            var b := f.state.value.snapshot.body;
            v.Advance? ==>
              && (op.MarkSideEffect? ==> v.step.snapshot && v.step.blocked.None? && Crossed(v.step.body, b.attempt))
              && (op.MarkCheckpoint?
                  ==> v.reply.Done? && v.step.snapshot && v.step.blocked.None? && Checkpointed(v.step.body, b.attempt))
              && (v.step.snapshot && v.step.body.status.CheckpointPending? ==> op.MarkCheckpoint?)
              && (v.step.snapshot && v.step.blocked.None? && v.step.body.status.RetryScheduled?
                  ==> SchedulesRetry(op, v.step.body))
              && (v.step.owner.KeepOwner? ==> op.MarkSideEffect? && v.step.body.owner == b.owner)
              && !v.step.owner.TakeOwner?
              && !(v.step.mode.Claim? && v.step.mode.adopt)
  {
  }
}
