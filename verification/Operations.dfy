/**
  What each public operation of the attempt store decides (kigumi/_runstate.py), given a run the
  readers accept, and how a decision is carried out: lease, early files, release, ordered writes.

  A view is what one store sees.  `quota` is the number of file writes that still succeed: an
  operation that needs more stops in the middle, which is how a crash or a full disk is modelled.
 */
module Operations {
  import opened Wrappers
  import opened Records
  import opened Durable
  import opened Leases
  import opened RecoveryNames

  datatype View = View(
    disk: Disk,
    quota: nat,
    locks: Locks,
    generation: Option<nat>,
    fencing: bool,
    admission: Option<nat>,
    mutated: bool)

  datatype Fault =
    | Untrusted
    | Busy
    | Refused
    | Stale
    | Interrupted
    | AmbiguousAttempt(attempt: int)

  datatype Reply =
    | Proceed(attempt: int)
    | Pending
    | Ready(candidate: Candidate)
    | AlreadyCompleted
    | AlreadyFailed
    | Done
    | Raised(fault: Fault)

  datatype Operation =
    | Initialize(runIdentity: string)
    | Publish(status: RunStatus, pending: seq<Target>, ambiguous: seq<Target>)
    | Prepare(target: Target, identity: Identity, due: bool)
    | MarkSideEffect(target: Target)
    | MarkCheckpoint(target: Target)
    | SaveCandidate(target: Target, candidate: Candidate)
    | MarkCompleted(target: Target, artifact: string, materialised: Option<string>)
    | RecordFailure(target: Target, policy: Option<Policy>, kind: Option<string>)
    | Resolve(target: Target, attempt: int, retry: bool, reason: string)
    | ScheduleRecovery(target: Target, from: int, to: int, payload: Option<Decision>,
                       maybeReceipt: Option<RecoveryReceipt>)
    | RecordRecovery(target: Target, from: int, decision: Decision, payload: Option<Decision>, receipt: RecoveryReceipt)

  // -------------------------------------------------------------- decisions

  /** `Claim`: acquire; `adopt` answers without writing when the lease is already this store's. */
  datatype LeaseMode = Require | Claim(fence: bool, adopt: bool)

  datatype OwnerRule = KeepOwner | TakeOwner | ClearOwner

  /**
    One decision to write.  `before` is written first, then `blocked` may stop the operation,
    then the lease is released if the owner is cleared, then the snapshot is committed.
   */
  datatype Step = Step(
    mode: LeaseMode,
    before: seq<Write>,
    blocked: Option<Fault>,
    body: Body,
    owner: OwnerRule,
    makesFolder: bool,
    decided: Option<LedgerEntry>,
    snapshot: bool)

  datatype Verdict =
    | Refuse(fault: Fault)
    | Answer(reply: Reply)
    | Advance(step: Step, reply: Reply)

  function Write1(mode: LeaseMode, body: Body, owner: OwnerRule): Step {
    Step(mode, [], None, body, owner, false, None, true)
  }

  function StartBody(t: Target, attempt: int, identity: Identity, note: string): Body {
    Body(t, attempt, Running, false, None, identity, 0, None, None, None, false, note)
  }

  function Start(t: Target, attempt: int, identity: Identity, adopt: bool, note: string): Verdict {
    Advance(Write1(Claim(false, adopt), StartBody(t, attempt, identity, note), TakeOwner).(makesFolder := true),
            Proceed(attempt))
  }

  function DecidePrepare(state: Option<Record>, t: Target, identity: Identity, due: bool, note: string): Verdict {
    if state.None? then Start(t, 1, identity, false, note)
    else
      var b := state.value.snapshot.body;
      if b.identity != identity then Refuse(Refused)
      else match b.status
        case Running =>
          if b.effect then
            Advance(Write1(Claim(true, false), b.(status := Ambiguous, note := note), ClearOwner),
                    Raised(AmbiguousAttempt(b.attempt)))
          else Start(t, b.attempt, identity, true, note)
        case CheckpointPending => Start(t, b.attempt, identity, false, note)
        case RetryScheduled => if !due then Answer(Pending) else Start(t, b.nextAttempt, identity, false, note)
        case SuccessCandidate => if b.candidate.Some? then Answer(Ready(b.candidate.value)) else Refuse(Untrusted)
        case Completed => Answer(AlreadyCompleted)
        case Ambiguous => Refuse(AmbiguousAttempt(b.attempt))
        case Failed => Answer(AlreadyFailed)
  }

  function Retryable(b: Body, policy: Option<Policy>, kind: Option<string>): bool {
    policy.Some? && b.attempt < policy.value.maxAttempts && kind.Some? && kind.value in policy.value.retryOn
  }

  function DecideFailure(b: Body, policy: Option<Policy>, kind: Option<string>, note: string): Verdict {
    if !b.status.Running? then Refuse(Refused)
    else if Retryable(b, policy, kind) then
      Advance(Write1(Require, b.(status := RetryScheduled, nextAttempt := b.attempt + 1, note := note), ClearOwner),
              Pending)
    else
      Advance(Write1(Require, b.(status := Failed, note := note), ClearOwner), AlreadyFailed)
  }

  function DecideCompleted(b: Body, artifact: string, materialised: Option<string>, note: string): Verdict {
    if b.status.Completed? then
      if b.artifact == Some(artifact) then Answer(Done) else Refuse(Refused)
    else if !b.status.Running? && !b.status.SuccessCandidate? then Refuse(Refused)
    else
      var mode := if b.status.Running? then Require else Claim(true, false);
      var blocked := if b.candidate.None? || materialised.None? then Some(Untrusted)
                     else if materialised.value != artifact then Some(Refused)
                     else None;
      Advance(Write1(mode, b.(status := Completed, artifact := Some(artifact), note := note), ClearOwner)
                .(blocked := blocked), Done)
  }

  /** The state after a recovery decision to retry. */
  function Rescheduled(b: Body, mark: Option<RecoveryMark>, note: string): Body {
    b.(attempt := b.attempt + 1, status := RetryScheduled, nextAttempt := b.attempt + 1,
       recovery := if mark.Some? then mark else b.recovery, note := note)
  }

  function AlreadyDecided(b: Body, ledger: seq<LedgerEntry>): bool {
    b.recovery.Some? || exists i :: 0 <= i < |ledger| && ledger[i].from == b.attempt
  }

  /** Write the receipt and append the ledger entry, or stop where the source raises. */
  function WithReceipt(step: Step, b: Body, to: int, decision: Decision, receipt: RecoveryReceipt,
                       ledger: seq<LedgerEntry>, recoveries: map<string, RecoveryReceipt>): Step {
    if !UsableTime(receipt.time) then step.(blocked := Some(Refused))
    else
      var file := FreeName(recoveries.Keys, receipt.time.value);
      var e := LedgerEntry(b.target, b.attempt, to, decision, file, receipt);
      var files := recoveries[file := receipt];
      step.(before := [PutRecovery(file, receipt)],
            blocked := if ValidLedger(b.target, ledger + [e], files) then None else Some(Untrusted),
            decided := Some(e))
  }

  function DecideSchedule(f: Folder, m: Manifest, recoveries: map<string, RecoveryReceipt>, from: int, to: int,
                          payload: Option<Decision>, receipt: Option<RecoveryReceipt>, note: string): Verdict
    requires f.state.Some?
  {
    var b := f.state.value.snapshot.body;
    var ledger := LedgerOf(m, b.target);
    if !b.status.Failed? || b.attempt != from then Refuse(Refused)
    else if b.recovery.Some? then Refuse(Refused)
    else if !m.status.RunFailed? then Refuse(Refused)
    else if AlreadyDecided(b, ledger) then Refuse(Refused)
    else if to != from + 1 then Refuse(Refused)
    else
      var claim := Write1(Claim(false, false), Rescheduled(b, None, note), ClearOwner);
      if to in f.receipts then Advance(claim.(blocked := Some(Refused)), Done)
      else if receipt.None? then Advance(claim, Done)
      else
        var d := receipt.value.decision;
        if d.None? || d.value.FailForGood? || (payload.Some? && payload != d) then
          Advance(claim.(blocked := Some(Refused)), Done)
        else
          var step := WithReceipt(claim, b, to, d.value, receipt.value, ledger, recoveries);
          Advance(Marked(step, b, d.value, receipt.value, note), Done)
  }

  function Marked(step: Step, b: Body, decision: Decision, receipt: RecoveryReceipt, note: string): Step {
    if step.decided.None? then step
    else step.(body := Rescheduled(b, Some(RecoveryMark(decision, step.decided.value.file, receipt)), note))
  }

  function DecideRecovery(f: Folder, m: Manifest, recoveries: map<string, RecoveryReceipt>, from: int,
                          decision: Decision, payload: Option<Decision>, receipt: RecoveryReceipt,
                          note: string): Verdict
    requires f.state.Some?
  {
    var b := f.state.value.snapshot.body;
    var ledger := LedgerOf(m, b.target);
    var fail := decision.FailForGood?;
    var to := if fail then from else from + 1;
    if from < 1 then Refuse(Refused)
    else if !b.status.Failed? || b.attempt != from then Refuse(Refused)
    else if b.recovery.Some? then Refuse(Refused)
    else if !m.status.RunFailed? then Refuse(Refused)
    else if AlreadyDecided(b, ledger) then Refuse(Refused)
    else if payload.Some? && payload.value != decision then Refuse(Refused)
    else if receipt.decision.Some? && receipt.decision.value != decision then Refuse(Refused)
    else if !fail && to in f.receipts then Refuse(Refused)
    else
      var claim := Write1(Claim(false, false), if fail then b else Rescheduled(b, None, note), ClearOwner);
      var step := WithReceipt(claim, b, to, decision, receipt, ledger, recoveries);
      Advance(if fail then step.(snapshot := false) else Marked(step, b, decision, receipt, note), Done)
  }

  predicate OnExistingState(op: Operation) {
    !op.Initialize? && !op.Publish? && !op.Prepare? && !op.Resolve?
  }

  function DecideUpdate(op: Operation, note: string, f: Folder, m: Manifest,
                        recoveries: map<string, RecoveryReceipt>): Verdict
    requires OnExistingState(op) && f.state.Some?
  {
    var t := op.target;
    var b := f.state.value.snapshot.body;
    match op
    case MarkSideEffect(_) =>
      if !b.status.Running? then Refuse(Refused)
      else Advance(Write1(Require, b.(effect := true, note := note), KeepOwner), Done)
    case MarkCheckpoint(_) =>
      if !b.status.Running? then Refuse(Refused)
      else Advance(Write1(Require, b.(status := CheckpointPending, note := note), ClearOwner), Done)
    case SaveCandidate(_, c) =>
      if !b.status.Running? then Refuse(Refused)
      else Advance(Write1(Require, b.(status := SuccessCandidate, candidate := Some(c), note := note), ClearOwner)
                     .(before := [PutCandidate(t, b.attempt, c)]), Done)
    case MarkCompleted(_, artifact, materialised) => DecideCompleted(b, artifact, materialised, note)
    case RecordFailure(_, policy, kind) => DecideFailure(b, policy, kind, note)
    case ScheduleRecovery(_, from, to, payload, receipt) =>
      DecideSchedule(f, m, recoveries, from, to, payload, receipt, note)
    case RecordRecovery(_, from, decision, payload, receipt) =>
      DecideRecovery(f, m, recoveries, from, decision, payload, receipt, note)
  }

  /** The state a reader hands out; an accepted run has one in every target directory. */
  function StateAt(d: Disk, t: Target): Option<Record> {
    if t in d.folders then d.folders[t].state else None
  }

  function Decide(op: Operation, note: string, d: Disk): Verdict
    requires d.manifest.Some? && (OnExistingState(op) || op.Prepare?)
  {
    if op.Prepare? then DecidePrepare(StateAt(d, op.target), op.target, op.identity, op.due, note)
    else if StateAt(d, op.target).None? then Refuse(Untrusted)
    else DecideUpdate(op, note, d.folders[op.target], d.manifest.value, d.recoveries)
  }

  // -------------------------------------------------------------- execution

  datatype Outcome = Finished | Adopted | Stopped(fault: Fault)

  /** As many of the ordered writes as the device completes. */
  function WriteAll(v: View, ws: seq<Write>): (View, bool) {
    if |ws| <= v.quota then (v.(disk := ApplyAll(v.disk, ws), quota := v.quota - |ws|), true)
    else (v.(disk := ApplyAll(v.disk, ws[..v.quota]), quota := 0), false)
  }

  function Owned(b: Body, rule: OwnerRule, token: Token): Body {
    match rule
    case KeepOwner => b
    case TakeOwner => b.(owner := Some(token))
    case ClearOwner => b.(owner := None)
  }

  function Decided(m: Manifest, t: Target, e: Option<LedgerEntry>): Manifest {
    if e.None? then m else m.(ledger := m.ledger[t := LedgerOf(m, t) + [e.value]])
  }

  /** The writes after the lease was settled. */
  function FinalWrites(m: Manifest, t: Target, step: Step, token: Token): seq<Write> {
    var m' := Decided(m, t, step.decided);
    if !step.snapshot then [PutManifest(m')]
    else (if step.makesFolder then [MakeFolder(t)] else [])
         + CommitWrites(m', t, Owned(step.body, step.owner, token))
  }

  function Finish(v: View, t: Target, step: Step, token: Token): (View, Outcome)
    requires v.disk.manifest.Some?
  {
    var (v1, early) := WriteAll(v, step.before);
    if !early then (v1, Stopped(Interrupted))
    else if step.blocked.Some? then (v1, Stopped(step.blocked.value))
    else
      var v2 := if step.owner.ClearOwner? then v1.(locks := Release(v1.locks, t)) else v1;
      var m := v.disk.manifest.value;
      var (v3, done) := WriteAll(v2, FinalWrites(m, t, step, token));
      if !done then (v3, Stopped(Interrupted))
      else (v3.(generation := Some(m.generation), mutated := v3.mutated || step.snapshot), Finished)
  }

  /** Require the lease this store already has, or acquire one. */
  function Settle(l: Locks, t: Target, expected: Option<Token>, mode: LeaseMode): (Locks, Grant) {
    match mode
    case Require => (l, if Holds(l, t, expected) then Kept(l.leases[t].token) else Denied)
    case Claim(fence, _) => Acquire(l, t, expected, fence)
  }

  function Execute(v: View, t: Target, expected: Option<Token>, step: Step): (View, Outcome)
    requires v.disk.manifest.Some?
  {
    var (locks, grant) := Settle(v.locks, t, expected, step.mode);
    var v1 := v.(locks := locks);
    if grant.Denied? then (v1, Stopped(Busy))
    else if grant.Kept? && step.mode.Claim? && step.mode.adopt then (v1, Adopted)
    else Finish(v1, t, step, grant.token)
  }

  /** `_required_manifest` and `_validate_all_attempt_receipts`: a store first met learns the generation. */
  function Load(v: View): (View, bool) {
    if v.disk.manifest.None? || !ValidManifest(v.disk.manifest.value, v.disk.recoveries) then (v, false)
    else
      var v1 := if v.fencing then v else v.(generation := Some(v.disk.manifest.value.generation), fencing := true);
      (v1, Accepts(v1.disk))
  }

  function OwnerOf(d: Disk, t: Target): Option<Token> {
    if StateAt(d, t).Some? then StateAt(d, t).value.snapshot.body.owner else None
  }

  function Concluded(outcome: Outcome, adopted: Reply, finished: Reply): Reply {
    match outcome
    case Stopped(fault) => Raised(fault)
    case Adopted => adopted
    case Finished => finished
  }

  function PerformDecided(v: View, op: Operation, note: string): (View, Reply)
    requires OnExistingState(op) || op.Prepare?
  {
    var (v1, ok) := Load(v);
    if !ok then (v1, Raised(Untrusted))
    else match Decide(op, note, v1.disk)
      case Refuse(fault) => (v1, Raised(fault))
      case Answer(reply) => (v1, reply)
      case Advance(step, reply) =>
        var (v2, outcome) := Execute(v1, op.target, OwnerOf(v1.disk, op.target), step);
        (v2, Concluded(outcome, reply, reply))
  }

  // ---------------------------------------------------------------- resolve

  /** First half of `resolve`: make the attempt ambiguous and this store its owner. */
  function OwnAmbiguous(b: Body, attempt: int, note: string): Option<Step> {
    if b.attempt != attempt then None
    else if b.status.Running? && b.effect then
      Some(Write1(Claim(true, false), b.(status := Ambiguous, note := note), TakeOwner))
    else if b.status.Ambiguous? then
      Some(Write1(Claim(true, true), b.(note := note), TakeOwner))
    else None
  }

  function Settled(b: Body, retry: bool, reason: string, note: string): Step {
    Write1(Require,
           if retry then b.(status := RetryScheduled, nextAttempt := b.attempt + 1, resolved := true, note := note)
           else b.(status := Failed, resolved := true, note := note),
           ClearOwner).(before := [PutResolution(b.target, b.attempt, reason)])
  }

  function PerformResolve(v: View, t: Target, attempt: int, retry: bool, reason: string, note: string): (View, Reply) {
    if reason == "" then (v, Raised(Refused))
    else
      var (v1, ok) := Load(v);
      if !ok || StateAt(v1.disk, t).None? then (v1, Raised(Untrusted))
      else
        var first := OwnAmbiguous(StateAt(v1.disk, t).value.snapshot.body, attempt, note);
        if first.None? then (v1, Raised(Refused))
        else
          var (v2, outcome) := Execute(v1, t, OwnerOf(v1.disk, t), first.value);
          if outcome.Stopped? then (v2, Raised(outcome.fault))
          else if v2.disk.manifest.None? || StateAt(v2.disk, t).None? then (v2, Raised(Untrusted))
          else
            var b := StateAt(v2.disk, t).value.snapshot.body;
            var (v3, last) := Execute(v2, t, b.owner, Settled(b, retry, reason, note));
            (v3, Concluded(last, Done, Done))
  }

  // --------------------------------------------------------------- manifest

  function NewManifest(identity: string): Manifest {
    Manifest(identity, RunRunning, 0, [], [], map[], map[])
  }

  function PerformInitialize(v: View, identity: string): (View, Reply) {
    if v.disk.manifest.None? then
      if v.disk.folders != map[] || v.disk.recoveries != map[] then (v, Raised(Refused))
      else
        var (v1, ok) := WriteAll(v, [PutManifest(NewManifest(identity))]);
        if !ok then (v1, Raised(Interrupted))
        else (v1.(generation := Some(0), fencing := true), Done)
    else
      var m := v.disk.manifest.value;
      if !ValidManifest(m, v.disk.recoveries) then (v, Raised(Untrusted))
      else
        var v1 := v.(generation := Some(m.generation), fencing := true);
        if m.identity != identity then (v1, Raised(Refused))
        else if !Accepts(v1.disk) then (v1, Raised(Untrusted))
        else (v1, Done)
  }

  /** `_validate_manifest_status_update`, except that completed admits `running` as a no-op. */
  predicate Admitted(m: Manifest, states: map<Target, Record>, status: RunStatus, mutated: bool,
                     admission: Option<nat>)
  {
    && (m.status.RunCompleted? ==> status.RunCompleted?)
    && match status
       case RunRunning => true
       case RunCompleted => forall t :: t in states ==> states[t].snapshot.body.status.Completed?
       case RunPendingRetry => AnyIn(states, {RetryScheduled})
       case RunAmbiguous => AnyIn(states, {Ambiguous})
       case RunCheckpointPending => AnyIn(states, {CheckpointPending})
       case RunFailed =>
         && !(states != map[] && (forall t :: t in states ==> states[t].snapshot.body.status.Completed?)
              && !mutated && admission != Some(m.generation))
         && !(AnyIn(states, {Running}) && !AnyIn(states, {Failed}))
  }

  /** A publication under the generation this store recorded, of a run the readers accept. */
  function PublishChecked(v: View, status: RunStatus, pending: seq<Target>, ambiguous: seq<Target>): (View, Reply)
    requires v.disk.manifest.Some?
  {
    var m := v.disk.manifest.value;
    if m.status.RunCompleted? && status.RunRunning? then
      (v.(admission := Some(m.generation), mutated := false), Done)
    else if !Admitted(m, States(v.disk), status, v.mutated, v.admission) then (v, Raised(Refused))
    else if m.status.RunRunning? && status.RunRunning? then (v.(mutated := false), Done)
    else
      var m' := m.(status := status, pending := pending, ambiguous := ambiguous, generation := m.generation + 1);
      var (v1, ok) := WriteAll(v, [PutManifest(m')]);
      if !ok then (v1, Raised(Interrupted))
      else (v1.(generation := Some(m'.generation), admission := None, mutated := false), Done)
  }

  function PerformPublish(v: View, status: RunStatus, pending: seq<Target>, ambiguous: seq<Target>): (View, Reply) {
    if v.disk.manifest.None? || !ValidManifest(v.disk.manifest.value, v.disk.recoveries) then (v, Raised(Untrusted))
    else
      var m := v.disk.manifest.value;
      var v1 := if v.fencing then v else v.(generation := Some(m.generation), fencing := true);
      if v1.generation.Some? && v1.generation.value != m.generation then (v1, Raised(Stale))
      else if !Accepts(v1.disk) then (v1, Raised(Untrusted))
      else PublishChecked(v1, status, pending, ambiguous)
  }

  function Perform(v: View, op: Operation, note: string): (View, Reply) {
    match op
    case Initialize(identity) => PerformInitialize(v, identity)
    case Publish(status, pending, ambiguous) => PerformPublish(v, status, pending, ambiguous)
    case Resolve(t, attempt, retry, reason) => PerformResolve(v, t, attempt, retry, reason, note)
    case _ => PerformDecided(v, op, note)
  }
}
