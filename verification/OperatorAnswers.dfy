/**
  What an operator deciding about a failed attempt and a publisher of a run status are told, and what is then recorded;
  with `Answers`, the outcome of every call in every run.
 */
module OperatorAnswers {
  import opened Wrappers
  import opened Records
  import opened Durable
  import opened Protocol
  import opened Commit
  import opened Leases
  import opened Operations
  import opened RecoveryNames
  import opened Effects
  import opened Decisions
  import opened Growth
  import opened Crash
  import opened Acceptance
  import opened Publication
  import opened StoreRuns
  import opened Safety
  import opened Ledger
  import opened Answers

  predicate DecidedBefore(ledger: seq<LedgerEntry>, attempt: int) {
    exists i :: 0 <= i < |ledger| && ledger[i].from == attempt
  }

  /** The decision is recorded under a file name not used before, and a retry is committed with it. */
  ghost predicate Enters(v: View, v': View, t: Target, b: Body, to: int, decision: Decision, receipt: RecoveryReceipt,
                         note: string, file: string)
  {
    && file !in v.disk.recoveries && v'.disk.recoveries == v.disk.recoveries[file := receipt]
    && LedgerIn(v'.disk, t) == LedgerIn(v.disk, t) + [LedgerEntry(t, b.attempt, to, decision, file, receipt)]
    && if decision.FailForGood? then LastCommitted(v'.disk) == LastCommitted(v.disk)
       else Moves(v.disk, v'.disk, t,
                  b.(attempt := to, status := RetryScheduled, nextAttempt := to, owner := None, note := note,
                     recovery := Some(RecoveryMark(decision, file, receipt))))
  }

  /** The failure is the active one, of a failed run, and nobody decided about it. */
  predicate AwaitsDecision(d: Disk, b: Body, from: int)
    requires d.manifest.Some?
  {
    && b.status == Failed && b.attempt == from && d.manifest.value.status == RunFailed
    && !DecidedBefore(LedgerOf(d.manifest.value, b.target), from)
  }

  predicate Says(said: Option<Decision>, decision: Decision) {
    said.None? || said.value == decision
  }

  /** The receipt has a time that can stand in a file name. */
  predicate HasFileName(r: RecoveryReceipt) {
    r.time.Some? && r.time.value != "" && forall i :: 0 <= i < |r.time.value| ==> r.time.value[i] !in {'/', '\\'}
  }

  predicate Bound(r: RecoveryReceipt, from: int, to: int, decision: Decision) {
    r.from == Some(from) && r.to == Some(to) && r.decision == Some(decision)
  }

  ghost predicate ScheduleTells(v: View, v': View, t: Target, from: int, to: int, payload: Option<Decision>,
                                receipt: Option<RecoveryReceipt>, note: string, reply: Reply)
    requires v.disk.manifest.Some?
  {
    var h := Head(v.disk, t);
    if h.None? then TurnedAway(v, v', reply, Untrusted)
    else
      var b := h.value;
      if !AwaitsDecision(v.disk, b, from) || to != from + 1 then TurnedAway(v, v', reply, Refused)
      else if t in v.locks.leases || t in v.locks.held then TurnedAway(v, v', reply, Busy)
      else if receipt.None? then
        && LedgerIn(v'.disk, t) == LedgerIn(v.disk, t)
        && Writes(v, v', t, true, 3,
                  b.(attempt := to, status := RetryScheduled, nextAttempt := to, owner := None, note := note), Done,
                  reply)
      else
        var r := receipt.value;
        if r.decision.None? || r.decision.value.FailForGood? || !Says(payload, r.decision.value) || !HasFileName(r)
        then TurnedAway(v, v', reply, Refused)
        else if v.quota < 1 then TurnedAway(v, v', reply, Interrupted)
        else if !Bound(r, from, to, r.decision.value) then TurnedAway(v, v', reply, Untrusted)
        else if v.quota < 4 then TurnedAway(v, v', reply, Interrupted)
        else reply == Done && exists file :: Enters(v, v', t, b, to, r.decision.value, r, note, file)
  }

  ghost predicate RecordTells(v: View, v': View, t: Target, from: int, decision: Decision, payload: Option<Decision>,
                              r: RecoveryReceipt, note: string, reply: Reply)
    requires v.disk.manifest.Some?
  {
    var h := Head(v.disk, t);
    if h.None? then TurnedAway(v, v', reply, Untrusted)
    else
      var b := h.value;
      var to := if decision == FailForGood then from else from + 1;
      if !AwaitsDecision(v.disk, b, from) || !Says(payload, decision) || !Says(r.decision, decision) then
        TurnedAway(v, v', reply, Refused)
      else if t in v.locks.leases || t in v.locks.held then TurnedAway(v, v', reply, Busy)
      else if !HasFileName(r) then TurnedAway(v, v', reply, Refused)
      else if v.quota < 1 then TurnedAway(v, v', reply, Interrupted)
      else if !Bound(r, from, to, decision) then TurnedAway(v, v', reply, Untrusted)
      else if v.quota < (if decision == FailForGood then 2 else 4) then TurnedAway(v, v', reply, Interrupted)
      else reply == Done && exists file :: Enters(v, v', t, b, to, decision, r, note, file)
  }

  /** A new entry is admitted to a valid ledger exactly when its receipt says the same. */
  lemma LedgerExtends(t: Target, ledger: seq<LedgerEntry>, recoveries: map<string, RecoveryReceipt>, e: LedgerEntry)
    requires ValidLedger(t, ledger, recoveries) && e.file !in recoveries && !DecidedBefore(ledger, e.from)
    requires e.target == t && e.from >= 1 && e.to == if e.decision.FailForGood? then e.from else e.from + 1
    ensures ValidLedger(t, ledger + [e], recoveries[e.file := e.receipt])
            <==> Bound(e.receipt, e.from, e.to, e.decision)
  {
    var after := recoveries[e.file := e.receipt];
    MoreRecoveriesKeepLedger(t, ledger, recoveries, e.file, e.receipt);
    assert (ledger + [e])[|ledger|] == e;
    assert ValidLedger(t, ledger + [e], after) ==> ValidLedgerEntry(t, (ledger + [e])[|ledger|], after);
    forall i | 0 <= i < |ledger|
      ensures ValidLedgerEntry(t, ledger[i], after)
    {
    }
  }

  /** The attempt after the active one has no receipt yet. */
  lemma NoNextReceipt(d: Disk, t: Target)
    requires Accepts(d) && ChainsRecorded(d) && StateAt(d, t).Some?
    ensures StateAt(d, t).value.snapshot.body.attempt + 1 !in d.folders[t].receipts
  {
    hide Consistent;
    hide ValidManifest;
    hide StateBound;
    AcceptedState(d, t);
    assert TrustedIn(d, t);
    hide Accepts;
    hide Trusted;
    var chain := ChainOf(d.manifest.value, t);
    var k := StateAt(d, t).value.snapshot.body.attempt + 1;
    if k in d.folders[t].receipts {
      assert ReceiptAnchored(t, k, d.folders[t].receipts[k], chain);
      var i := LastIsListed(chain, k);
      AttemptsRiseByOne(History(chain), i, |chain| - 1);
    }
  }

  lemma LastIsListed(chain: seq<Entry>, k: int) returns (i: nat)
    requires LastOf(chain, k).Some?
    ensures i < |chain| && chain[i].attempt == k
  {
    if chain[|chain| - 1].attempt == k {
      i := |chain| - 1;
    } else {
      i := LastIsListed(chain[..|chain| - 1], k);
    }
  }

  /** What a finished step leaves in the ledger and among the recovery files. */
  lemma LedgerCarried(v: View, op: Operation, note: string)
    requires v.disk.manifest.Some? && Accepts(v.disk) && ChainsRecorded(v.disk) && OnExistingState(op)
    requires Decide(op, note, v.disk).Advance?
    ensures var step := Decide(op, note, v.disk).step;
            var (v', out) := Execute(v, op.target, OwnerOf(v.disk, op.target), step);
            var e := step.decided;
            && (out.Finished? ==>
                  v'.disk.recoveries == ApplyAll(v.disk, step.before).recoveries
                  && LedgerIn(v'.disk, op.target)
                     == LedgerIn(v.disk, op.target) + if e.Some? then [e.value] else [])
            && (!out.Finished? ==> LedgerIn(v'.disk, op.target) == LedgerIn(v.disk, op.target))
            && (out.Adopted? ==> step.mode.Claim? && step.mode.adopt)
  {
    hide Accepts;
    hide Execute;
    hide Decide;
    hide ChainsRecorded;
    hide ApplyAll;
    var t := op.target;
    var step := Decide(op, note, v.disk).step;
    DecisionIsLawful(op, note, v.disk);
    ExecuteEffect(v, t, OwnerOf(v.disk, t), step);
    FinishedIsUnblocked(v, t, OwnerOf(v.disk, t), step);
    ExecutePublishes(v, t, OwnerOf(v.disk, t), step);
    var out := Execute(v, t, OwnerOf(v.disk, t), step).1;
    if out.Finished? {
      if step.snapshot {
        BodyTarget(ChainOf(v.disk.manifest.value, t), t, step);
        ExecuteLanded(v, t, OwnerOf(v.disk, t), step);
      } else {
        assert step.decided.Some? by { Undecided(op, note, v.disk); }
        LedgerOnlyLanded(v, t, step);
      }
    }
  }

  lemma Undecided(op: Operation, note: string, d: Disk)
    requires d.manifest.Some? && OnExistingState(op) && Decide(op, note, d).Advance?
    ensures var step := Decide(op, note, d).step;
            !step.snapshot && step.blocked.None? ==> step.decided.Some?
  {
    hide ValidLedger;
    hide AlreadyDecided;
  }

  lemma ScheduleDecided(d: Disk, t: Target, from: int, to: int, payload: Option<Decision>,
                        receipt: Option<RecoveryReceipt>, note: string)
    requires d.manifest.Some? && Accepts(d) && ChainsRecorded(d) && StateAt(d, t).Some?
    ensures var b := StateAt(d, t).value.snapshot.body;
            var verdict := DecideSchedule(d.folders[t], d.manifest.value, d.recoveries, from, to, payload, receipt,
                                          note);
            if !AwaitsDecision(d, b, from) || to != from + 1 then verdict == Refuse(Refused)
            else
              && verdict.Advance? && verdict.reply == Done && verdict.step.mode == Claim(false, false)
              && verdict.step.snapshot && !verdict.step.makesFolder && verdict.step.owner.ClearOwner?
              && if receipt.None? then
                   && verdict.step.before == [] && verdict.step.blocked.None? && verdict.step.decided.None?
                   && verdict.step.body
                      == b.(attempt := to, status := RetryScheduled, nextAttempt := to, recovery := None, note := note)
                 else
                   var r := receipt.value;
                   if r.decision.None? || r.decision.value.FailForGood? || !Says(payload, r.decision.value)
                      || !HasFileName(r)
                   then verdict.step.before == [] && verdict.step.blocked == Some(Refused)
                   else
                     verdict.step.decided.Some?
                     && var file := verdict.step.decided.value.file;
                     && file !in d.recoveries && verdict.step.before == [PutRecovery(file, r)]
                     && (if Bound(r, from, to, r.decision.value) then verdict.step.blocked.None?
                         else verdict.step.blocked == Some(Untrusted))
                     && verdict.step.decided == Some(LedgerEntry(t, from, to, r.decision.value, file, r))
                     && verdict.step.body
                        == b.(attempt := to, status := RetryScheduled, nextAttempt := to, note := note,
                              recovery := Some(RecoveryMark(r.decision.value, file, r)))
  {
    hide Accepts;
    hide ChainsRecorded;
    hide ValidLedger;
    hide Bound;
    var b := StateAt(d, t).value.snapshot.body;
    var ledger := LedgerOf(d.manifest.value, t);
    AcceptedState(d, t);
    AcceptedLedger(d, t);
    NoNextReceipt(d, t);
    if AwaitsDecision(d, b, from) && to == from + 1 && receipt.Some? && receipt.value.decision.Some?
       && !receipt.value.decision.value.FailForGood? && HasFileName(receipt.value) {
      var r := receipt.value;
      var file := FreeName(d.recoveries.Keys, r.time.value);
      LedgerExtends(t, ledger, d.recoveries, LedgerEntry(t, from, to, r.decision.value, file, r));
    }
  }

  lemma RecordDecided(d: Disk, t: Target, from: int, decision: Decision, payload: Option<Decision>, r: RecoveryReceipt,
                      note: string)
    requires d.manifest.Some? && Accepts(d) && ChainsRecorded(d) && StateAt(d, t).Some?
    ensures var b := StateAt(d, t).value.snapshot.body;
            var to := if decision == FailForGood then from else from + 1;
            var verdict := DecideRecovery(d.folders[t], d.manifest.value, d.recoveries, from, decision, payload, r,
                                          note);
            if !AwaitsDecision(d, b, from) || !Says(payload, decision) || !Says(r.decision, decision)
            then verdict == Refuse(Refused)
            else
              && verdict.Advance? && verdict.reply == Done && verdict.step.mode == Claim(false, false)
              && verdict.step.snapshot == (decision != FailForGood) && !verdict.step.makesFolder
              && verdict.step.owner.ClearOwner?
              && if !HasFileName(r) then verdict.step.before == [] && verdict.step.blocked == Some(Refused)
                 else
                   verdict.step.decided.Some?
                   && var file := verdict.step.decided.value.file;
                   && file !in d.recoveries && verdict.step.before == [PutRecovery(file, r)]
                   && (if Bound(r, from, to, decision) then verdict.step.blocked.None?
                       else verdict.step.blocked == Some(Untrusted))
                   && verdict.step.decided == Some(LedgerEntry(t, from, to, decision, file, r))
                   && (decision != FailForGood ==>
                         verdict.step.body
                         == b.(attempt := to, status := RetryScheduled, nextAttempt := to, note := note,
                               recovery := Some(RecoveryMark(decision, file, r))))
  {
    hide Accepts;
    hide ChainsRecorded;
    hide ValidLedger;
    hide Bound;
    var b := StateAt(d, t).value.snapshot.body;
    var ledger := LedgerOf(d.manifest.value, t);
    AcceptedState(d, t);
    AcceptedLedger(d, t);
    NoNextReceipt(d, t);
    if AwaitsDecision(d, b, from) && HasFileName(r) && Says(payload, decision)
       && Says(r.decision, decision) {
      var file := FreeName(d.recoveries.Keys, r.time.value);
      var to := if decision == FailForGood then from else from + 1;
      LedgerExtends(t, ledger, d.recoveries, LedgerEntry(t, from, to, decision, file, r));
    }
  }

  lemma CallLedger(v: View, op: Operation, note: string)
    requires v.disk.manifest.Some? && Accepts(v.disk) && ChainsRecorded(v.disk)
    requires op.ScheduleRecovery? || op.RecordRecovery?
    ensures var (v', reply) := Perform(v, op, note);
            var verdict := Decide(op, note, v.disk);
            && (verdict.Advance? && reply == Done ==>
                  var e := verdict.step.decided;
                  v'.disk.recoveries == ApplyAll(v.disk, verdict.step.before).recoveries
                  && LedgerIn(v'.disk, op.target)
                     == LedgerIn(v.disk, op.target) + if e.Some? then [e.value] else [])
            && (reply != Done ==> LedgerIn(v'.disk, op.target) == LedgerIn(v.disk, op.target))
  {
    hide Accepts;
    hide Decide;
    hide Execute;
    hide ChainsRecorded;
    hide ApplyAll;
    LoadAccepted(v);
    var verdict := Decide(op, note, v.disk);
    if verdict.Advance? {
      LedgerCarried(Load(v).0, op, note);
      NeverAdopts(op, note, v.disk);
    }
  }

  lemma NeverAdopts(op: Operation, note: string, d: Disk)
    requires d.manifest.Some? && OnExistingState(op) && Decide(op, note, d).Advance?
    requires op.ScheduleRecovery? || op.RecordRecovery?
    ensures var verdict := Decide(op, note, d);
            verdict.reply == Done && verdict.step.mode == Claim(false, false)
  {
    hide ValidLedger;
    hide AlreadyDecided;
  }

  /** A step under a claimed lease on a target nobody owns: what may stop it, in order, and what it commits. */
  ghost predicate ClaimCarried(v: View, v': View, t: Target, step: Step, answer: Reply, reply: Reply) {
    if t in v.locks.leases || t in v.locks.held then TurnedAway(v, v', reply, Busy)
    else if v.quota < |step.before| then TurnedAway(v, v', reply, Interrupted)
    else if step.blocked.Some? then TurnedAway(v, v', reply, step.blocked.value)
    else if v.quota < Needed(step) then TurnedAway(v, v', reply, Interrupted)
    else
      && reply == answer
      && if step.snapshot then Moves(v.disk, v'.disk, t, step.body.(owner := None)) && v'.mutated
         else LastCommitted(v'.disk) == LastCommitted(v.disk)
  }

  lemma ClaimIsCarried(v: View, v': View, t: Target, step: Step, answer: Reply, reply: Reply)
    requires Carried(v, v', t, step, answer, reply) && HeadOwner(v.disk, t).None?
    requires step.mode == Claim(false, false) && step.owner.ClearOwner?
    ensures ClaimCarried(v, v', t, step, answer, reply)
  {
    hide Settle;
    hide Release;
    hide LastCommitted;
    hide Moves;
    SettleMeans(v.locks, t, HeadOwner(v.disk, t), step.mode);
  }

  lemma ScheduleTold(v: View, t: Target, from: int, to: int, payload: Option<Decision>,
                     receipt: Option<RecoveryReceipt>, note: string)
    requires v.disk.manifest.Some? && Accepts(v.disk) && ChainsRecorded(v.disk)
    ensures var (v', reply) := Perform(v, ScheduleRecovery(t, from, to, payload, receipt), note);
            && ScheduleTells(v, v', t, from, to, payload, receipt, note, reply)
            && (reply != Done ==> LedgerIn(v'.disk, t) == LedgerIn(v.disk, t))
  {
    hide Accepts;
    hide ChainsRecorded;
    hide Perform;
    hide Settle;
    hide Release;
    hide LastCommitted;
    hide Moves;
    hide Carried;
    hide DecideSchedule;
    hide DecidedBefore;
    hide HasFileName;
    hide Bound;
    var op := ScheduleRecovery(t, from, to, payload, receipt);
    DecidedCarried(v, op, note);
    OwnerAtHead(v.disk, t);
    CallLedger(v, op, note);
    var verdict := Decide(op, note, v.disk);
    if StateAt(v.disk, t).Some? {
      ScheduleDecided(v.disk, t, from, to, payload, receipt, note);
      if verdict.Advance? {
        WithReceiptEarly(v.disk, t, verdict);
        var (v', reply) := Perform(v, op, note);
        var b := Head(v.disk, t).value;
        ClaimIsCarried(v, v', t, verdict.step, verdict.reply, reply);
        if receipt.Some? && reply == Done {
          var file := verdict.step.decided.value.file;
          assert Enters(v, v', t, b, to, receipt.value.decision.value, receipt.value, note, file);
        }
      }
    }
  }

  lemma RecordTold(v: View, t: Target, from: int, decision: Decision, payload: Option<Decision>, r: RecoveryReceipt,
                   note: string)
    requires v.disk.manifest.Some? && Accepts(v.disk) && ChainsRecorded(v.disk)
    ensures var (v', reply) := Perform(v, RecordRecovery(t, from, decision, payload, r), note);
            && RecordTells(v, v', t, from, decision, payload, r, note, reply)
            && (reply != Done ==> LedgerIn(v'.disk, t) == LedgerIn(v.disk, t))
  {
    hide Accepts;
    hide ChainsRecorded;
    hide Perform;
    hide Settle;
    hide Release;
    hide LastCommitted;
    hide Moves;
    hide Carried;
    hide DecideRecovery;
    hide DecidedBefore;
    hide HasFileName;
    hide Bound;
    var op := RecordRecovery(t, from, decision, payload, r);
    DecidedCarried(v, op, note);
    OwnerAtHead(v.disk, t);
    CallLedger(v, op, note);
    var verdict := Decide(op, note, v.disk);
    if StateAt(v.disk, t).Some? {
      RecordDecided(v.disk, t, from, decision, payload, r, note);
      if verdict.Advance? {
        WithReceiptEarly(v.disk, t, verdict);
        var (v', reply) := Perform(v, op, note);
        var b := Head(v.disk, t).value;
        ClaimIsCarried(v, v', t, verdict.step, verdict.reply, reply);
        if reply == Done {
          var file := verdict.step.decided.value.file;
          var to := if decision == FailForGood then from else from + 1;
          assert Enters(v, v', t, b, to, decision, r, note, file);
        }
      }
    }
  }

  // ----------------------------------------------------------- the manifest

  /** Some target's last committed snapshot has this status. */
  predicate SomeHead(d: Disk, status: Status) {
    exists t :: t in LastCommitted(d) && LastCommitted(d)[t].snapshot.body.status == status
  }

  predicate AllCompleted(d: Disk) {
    forall t :: t in LastCommitted(d) ==> LastCommitted(d)[t].snapshot.body.status == Completed
  }

  /** Which status may be published over which, with which attempts. */
  predicate MayPublish(v: View, m: Manifest, status: RunStatus) {
    && (m.status == RunCompleted ==> status == RunCompleted)
    && (status == RunCompleted ==> AllCompleted(v.disk))
    && (status == RunPendingRetry ==> SomeHead(v.disk, RetryScheduled))
    && (status == RunAmbiguous ==> SomeHead(v.disk, Ambiguous))
    && (status == RunCheckpointPending ==> SomeHead(v.disk, CheckpointPending))
    && (status == RunFailed ==>
          && (SomeHead(v.disk, Running) ==> SomeHead(v.disk, Failed))
          && (LastCommitted(v.disk) != map[] && AllCompleted(v.disk) ==>
                v.mutated || v.admission == Some(m.generation)))
  }

  /** Opening a completed run for running is a no-op that remembers having been admitted. */
  predicate Reopens(m: Manifest, status: RunStatus) {
    m.status == RunCompleted && status == RunRunning
  }

  ghost predicate PublishTells(v: View, v': View, status: RunStatus, pending: seq<Target>, ambiguous: seq<Target>,
                               reply: Reply)
    requires v.disk.manifest.Some?
  {
    var m := v.disk.manifest.value;
    if v.fencing && v.generation.Some? && v.generation != Some(m.generation) then
      reply == Raised(Stale) && v'.disk == v.disk
    else if Reopens(m, status) then
      reply == Done && v'.disk == v.disk && v'.admission == Some(m.generation) && !v'.mutated
    else if !MayPublish(v, m, status) then
      reply == Raised(Refused) && v'.disk == v.disk && v'.admission == v.admission && v'.mutated == v.mutated
    else if m.status == RunRunning && status == RunRunning then
      reply == Done && v'.disk == v.disk && v'.admission == v.admission && !v'.mutated
    else if v.quota < 1 then
      reply == Raised(Interrupted) && v'.disk == v.disk
    else
      && reply == Done && v'.admission.None? && !v'.mutated && v'.generation == Some(m.generation + 1)
      && v'.disk == v.disk.(manifest := Some(m.(status := status, pending := pending, ambiguous := ambiguous,
                                                generation := m.generation + 1)))
  }

  lemma PublishTold(v: View, status: RunStatus, pending: seq<Target>, ambiguous: seq<Target>, note: string)
    requires v.disk.manifest.Some? && Accepts(v.disk) && ChainsRecorded(v.disk)
    ensures var (v', reply) := Perform(v, Publish(status, pending, ambiguous), note);
            PublishTells(v, v', status, pending, ambiguous, reply)
  {
    hide Accepts;
    hide ChainsRecorded;
    hide ValidManifest;
    hide SomeHead;
    hide AllCompleted;
    hide AnyIn;
    hide LastCommitted;
    var m := v.disk.manifest.value;
    AcceptedIsLastCommitted(v.disk);
    AcceptedParts(v.disk);
    OneManifestWrite(Load(v).0, m.(status := status, pending := pending, ambiguous := ambiguous,
                                   generation := m.generation + 1));
    MayPublishIsAdmitted(v, m, status);
    LoadAccepted(v);
  }

  lemma MayPublishIsAdmitted(v: View, m: Manifest, status: RunStatus)
    requires States(v.disk) == LastCommitted(v.disk)
    ensures Reopens(m, status) || (Admitted(m, States(v.disk), status, v.mutated, v.admission)
                                   <==> MayPublish(v, m, status))
  {
    hide LastCommitted;
  }

  ghost predicate InitializeTells(v: View, v': View, identity: string, reply: Reply) {
    if v.disk.manifest.None? then
      if v.disk.folders != map[] || v.disk.recoveries != map[] then reply == Raised(Refused) && v'.disk == v.disk
      else if v.quota < 1 then reply == Raised(Interrupted) && v'.disk == v.disk
      else
        && reply == Done && v'.generation == Some(0) && v'.fencing
        && v'.disk == v.disk.(manifest := Some(Manifest(identity, RunRunning, 0, [], [], map[], map[])))
    else
      && v'.disk == v.disk
      && (reply == Done <==> Accepts(v.disk) && v.disk.manifest.value.identity == identity)
      && (Accepts(v.disk) ==>
            && (reply == Raised(Refused) <==> v.disk.manifest.value.identity != identity)
            && v'.generation == Some(v.disk.manifest.value.generation) && v'.fencing)
      && (reply == Done || reply == Raised(Refused) || reply == Raised(Untrusted))
  }

  lemma InitializeTold(v: View, identity: string, note: string)
    ensures var (v', reply) := Perform(v, Initialize(identity), note);
            InitializeTells(v, v', identity, reply)
  {
    hide ValidChain;
    hide ValidLedger;
    hide Trusted;
    hide Consistent;
    OneManifestWrite(v, NewManifest(identity));
  }

  // -------------------------------------------------------------- every run

  ghost predicate Tells(v: View, v': View, op: Operation, note: string, reply: Reply)
    requires v.disk.manifest.Some?
  {
    match op
    case Initialize(identity) => InitializeTells(v, v', identity, reply)
    case Publish(status, pending, ambiguous) => PublishTells(v, v', status, pending, ambiguous, reply)
    case Prepare(t, identity, due) =>
      PrepareTells(v, t, identity, due, reply) && PrepareCommits(v, v', t, identity, note, reply)
    case Resolve(t, attempt, retry, reason) =>
      ResolveTells(v, v', t, attempt, retry, reason, note, reply) && ResolveLeaves(v, v', t, note, reply)
    case ScheduleRecovery(t, from, to, payload, receipt) =>
      ScheduleTells(v, v', t, from, to, payload, receipt, note, reply)
    case RecordRecovery(t, from, decision, payload, receipt) =>
      RecordTells(v, v', t, from, decision, payload, receipt, note, reply)
    case _ => UpdateTells(v, v', op, note, reply)
  }

  /** In every reachable run the readers accept, every call is told, and commits, what its last snapshot calls for. */
  lemma EveryCallIsAnswered(actions: seq<Action>, s: StoreId, op: Operation, note: string, quota: nat)
    requires s in Run(START, actions).stores && Accepts(Run(START, actions).disk)
    ensures var v := ViewOf(Run(START, actions), s, quota);
            var (v', reply) := Perform(v, op, note);
            v.disk.manifest.Some? && Tells(v, v', op, note, reply)
  {
    hide Perform;
    hide Accepts;
    hide Sane;
    hide Run;
    hide PrepareTells;
    hide PrepareCommits;
    hide UpdateTells;
    hide ResolveTells;
    hide ResolveLeaves;
    hide ScheduleTells;
    hide RecordTells;
    hide PublishTells;
    hide InitializeTells;
    EveryRunIsSane(actions);
    var w := Run(START, actions);
    SaneChains(w);
    AcceptedParts(w.disk);
    var v := ViewOf(w, s, quota);
    match op
    case Initialize(identity) => InitializeTold(v, identity, note);
    case Publish(status, pending, ambiguous) => PublishTold(v, status, pending, ambiguous, note);
    case Prepare(t, identity, due) =>
      PrepareTold(v, t, identity, due, note);
      PrepareCommitted(v, t, identity, due, note);
    case Resolve(t, attempt, retry, reason) => ResolveTold(v, t, attempt, retry, reason, note);
    case ScheduleRecovery(t, from, to, payload, receipt) => ScheduleTold(v, t, from, to, payload, receipt, note);
    case RecordRecovery(t, from, decision, payload, receipt) =>
      RecordTold(v, t, from, decision, payload, receipt, note);
    case _ => UpdateTold(v, op, note);
  }
}
